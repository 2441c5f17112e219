/** The compiler from application-control rules to a WDAC policy. Attribute texts of the
    policy are as emitted, that is, escaped. */
module Wdac {
  import opened Common
  import opened Text
  import opened WdacRules

  datatype Root = WellKnown(number: string) | Tbs(hash: string)

  /** A Microsoft signer that every policy trusts. */
  datatype BaselineSigner = BaselineSigner(id: string, name: string, root: Root, eku: string, kernel: bool)

  datatype Allow = AllowHash(id: string, friendlyName: string, hash: string) | AllowPath(id: string, friendlyName: string, filePath: string)

  datatype Signer = Signer(id: string, name: string, root: Root, eku: string)

  datatype Eku = Eku(id: string, value: string)

  datatype Policy = Policy(audit: bool, ekus: seq<Eku>, fileRules: seq<Allow>, signers: seq<Signer>,
                           kernelSigners: seq<string>, userSigners: seq<string>, fileRefs: seq<string>, ciSigners: seq<string>)

  function HashId(n: nat): string { "ID_ALLOW_H_" + Decimal(n) }

  function PathId(n: nat): string { "ID_ALLOW_P_" + Decimal(n) }

  function SignerId(n: nat): string { "ID_SIGNER_P_" + Decimal(n) }

  function DisplayName(r: Rule): string {
    if r.publisherName == "" then "Publisher" else r.publisherName
  }

  // ---- What each rule emits at position n -------------------------------------------------------

  function AllowsAt(r: Rule, n: nat): seq<Allow> {
    match r.kind
    case HashKind => [AllowHash(HashId(n), Escape(r.description), r.value)]
    case PathKind => [AllowPath(PathId(n), Escape(r.description), Escape(r.value))]
    case _ => []
  }

  function SignersAt(r: Rule, n: nat): seq<Signer> {
    if r.kind == PublisherKind then [Signer(SignerId(n), Escape(DisplayName(r)), Tbs(r.value), "")] else []
  }

  function FileRules(rs: seq<Rule>, n: nat): seq<Allow>
    requires n <= |rs|
  {
    if n == 0 then [] else FileRules(rs, n - 1) + AllowsAt(rs[n - 1], n - 1)
  }

  function PublisherSigners(rs: seq<Rule>, n: nat): seq<Signer>
    requires n <= |rs|
  {
    if n == 0 then [] else PublisherSigners(rs, n - 1) + SignersAt(rs[n - 1], n - 1)
  }

  function AllowIds(a: seq<Allow>): seq<string> {
    seq(|a|, i requires 0 <= i < |a| => a[i].id)
  }

  function SignerIds(s: seq<Signer>): seq<string> {
    seq(|s|, i requires 0 <= i < |s| => s[i].id)
  }

  function BaselineSigners(b: seq<BaselineSigner>, n: nat): seq<Signer>
    requires n <= |b|
  {
    if n == 0 then [] else BaselineSigners(b, n - 1) + [Signer(b[n - 1].id, b[n - 1].name, b[n - 1].root, b[n - 1].eku)]
  }

  function BaselineRefs(b: seq<BaselineSigner>, n: nat, kernel: bool): seq<string>
    requires n <= |b|
  {
    if n == 0 then []
    else BaselineRefs(b, n - 1, kernel) + (if b[n - 1].kernel == kernel then [b[n - 1].id] else [])
  }

  /** The policy for rules that are normal and in order. */
  function Emit(b: seq<BaselineSigner>, ekus: seq<Eku>, audit: bool, rs: seq<Rule>): Policy {
    var allows, publishers := FileRules(rs, |rs|), PublisherSigners(rs, |rs|);
    Policy(audit, ekus, allows, BaselineSigners(b, |b|) + publishers,
           BaselineRefs(b, |b|, true), BaselineRefs(b, |b|, false) + SignerIds(publishers),
           AllowIds(allows), ["ID_SIGNER_STORE"])
  }

  /** The normal form of every rule, provided that each has one. */
  ghost function NormalizeAll(rs: seq<Rule>): Option<seq<Rule>> {
    if forall i :: 0 <= i < |rs| ==> Normalize(rs[i]).Some?
    then Some(seq(|rs|, i requires 0 <= i < |rs| => Normalize(rs[i]).value))
    else None
  }

  method NormalizeRules(rules: seq<Rule>) returns (rs: Option<seq<Rule>>)
    ensures rs == NormalizeAll(rules)
  {
    var done := [];
    for i := 0 to |rules|
      invariant |done| == i && forall k :: 0 <= k < i ==> Normalize(rules[k]) == Some(done[k])
    {
      var n := Normalize(rules[i]);
      if n == None {
        OneMissing(rules, i);
        return None;
      }
      done := done + [n.value];
    }
    AllCollected(rules, done);
    rs := Some(done);
  }

  lemma {:induction false} AllCollected(rules: seq<Rule>, done: seq<Rule>)
    requires |done| == |rules| && forall k :: 0 <= k < |rules| ==> Normalize(rules[k]) == Some(done[k])
    ensures NormalizeAll(rules) == Some(done)
  {
    assert done == seq(|rules|, i requires 0 <= i < |rules| => Normalize(rules[i]).value);
  }

  lemma {:induction false} OneMissing(rules: seq<Rule>, i: nat)
    requires i < |rules| && Normalize(rules[i]).None?
    ensures NormalizeAll(rules) == None
  {
  }

  /** Normalises every rule, sorts, and appends to the sections with one running number. */
  method Compile(b: seq<BaselineSigner>, ekus: seq<Eku>, mode: string, rules: seq<Rule>)
    returns (policy: Option<Policy>)
    ensures policy.Some? <==> forall i :: 0 <= i < |rules| ==> Normalize(rules[i]).Some?
    ensures policy.Some? ==> (policy.value.audit <==> mode != "enforce")
    ensures policy.Some? ==> exists sorted ::
              Arranges(sorted, NormalizeAll(rules).value) && policy.value == Emit(b, ekus, mode != "enforce", sorted)
  {
    var rs := NormalizeRules(rules);
    if rs == None {
      return None;
    }
    var order := SortRules(rs.value);
    var signers, kernelRefs, userRefs := EmitBaseline(b);
    var fileRules, fileRefs, published, publisherRefs := EmitRules(order);
    policy := Some(Policy(mode != "enforce", ekus, fileRules, signers + published, kernelRefs,
                          userRefs + publisherRefs, fileRefs, ["ID_SIGNER_STORE"]));
  }

  lemma {:induction false} AllowIdsSnoc(a: seq<Allow>, x: Allow)
    ensures AllowIds(a + [x]) == AllowIds(a) + [x.id]
  {
  }

  lemma {:induction false} SignerIdsSnoc(s: seq<Signer>, x: Signer)
    ensures SignerIds(s + [x]) == SignerIds(s) + [x.id]
  {
  }

  /** The sections the rules contribute to; publishers go behind the baseline signers. */
  method EmitRules(rs: seq<Rule>)
    returns (fileRules: seq<Allow>, fileRefs: seq<string>, signers: seq<Signer>, userRefs: seq<string>)
    ensures fileRules == FileRules(rs, |rs|)
    ensures fileRefs == AllowIds(FileRules(rs, |rs|))
    ensures signers == PublisherSigners(rs, |rs|)
    ensures userRefs == SignerIds(PublisherSigners(rs, |rs|))
  {
    fileRules, fileRefs, signers, userRefs := [], [], [], [];
    var id := 0;
    while id < |rs|
      invariant 0 <= id <= |rs|
      invariant fileRules == FileRules(rs, id) && fileRefs == AllowIds(fileRules)
      invariant signers == PublisherSigners(rs, id) && userRefs == SignerIds(signers)
    {
      var r := rs[id];
      if r.kind == HashKind {
        var entry := AllowHash(HashId(id), Escape(r.description), r.value);
        AllowIdsSnoc(fileRules, entry);
        fileRules, fileRefs := fileRules + [entry], fileRefs + [entry.id];
      } else if r.kind == PathKind {
        var entry := AllowPath(PathId(id), Escape(r.description), Escape(r.value));
        AllowIdsSnoc(fileRules, entry);
        fileRules, fileRefs := fileRules + [entry], fileRefs + [entry.id];
      } else if r.kind == PublisherKind {
        var name := if r.publisherName == "" then "Publisher" else r.publisherName;
        var signer := Signer(SignerId(id), Escape(name), Tbs(r.value), "");
        SignerIdsSnoc(signers, signer);
        signers, userRefs := signers + [signer], userRefs + [signer.id];
      }
      id := id + 1;
    }
  }

  method EmitBaseline(b: seq<BaselineSigner>) returns (signers: seq<Signer>, kernelRefs: seq<string>, userRefs: seq<string>)
    ensures signers == BaselineSigners(b, |b|)
    ensures kernelRefs == BaselineRefs(b, |b|, true)
    ensures userRefs == BaselineRefs(b, |b|, false)
  {
    signers, kernelRefs, userRefs := [], [], [];
    for i := 0 to |b|
      invariant signers == BaselineSigners(b, i)
      invariant kernelRefs == BaselineRefs(b, i, true) && userRefs == BaselineRefs(b, i, false)
    {
      signers := signers + [Signer(b[i].id, b[i].name, b[i].root, b[i].eku)];
      if b[i].kernel {
        kernelRefs := kernelRefs + [b[i].id];
      } else {
        userRefs := userRefs + [b[i].id];
      }
    }
  }
}
