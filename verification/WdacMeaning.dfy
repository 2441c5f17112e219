/** What a compiled policy allows, and that it allows what the rules say. */
module WdacMeaning {
  import opened Common
  import opened Text
  import opened WdacRules
  import opened Wdac

  /** An image as code integrity sees it: its hash and path, the TBS hashes and well-known
      roots of its verified signature, and the usages its certificate carries. */
  datatype Image = Image(hash: string, path: string, tbs: set<string>, roots: set<string>, ekus: set<string>)

  /** How the platform matches a path against a path pattern; nothing is assumed of it. */
  type PathMatch = (string, string) -> bool

  predicate RootMatches(root: Root, f: Image) {
    match root
    case WellKnown(number) => number in f.roots
    case Tbs(hash) => hash in f.tbs
  }

  ghost predicate SignerMatches(p: Policy, s: Signer, f: Image) {
    RootMatches(s.root, f) && (s.eku == "" || exists e :: e in p.ekus && e.id == s.eku && e.value in f.ekus)
  }

  predicate AllowMatches(a: Allow, f: Image, pm: PathMatch) {
    match a
    case AllowHash(_, _, hash) => Unescape(hash) == f.hash
    case AllowPath(_, _, filePath) => pm(Unescape(filePath), f.path)
  }

  /** Some listed signer id names a signer that matches. */
  ghost predicate BySigner(p: Policy, refs: seq<string>, f: Image) {
    exists s :: s in p.signers && s.id in refs && SignerMatches(p, s, f)
  }

  ghost predicate ByFileRule(p: Policy, f: Image, pm: PathMatch) {
    exists a :: a in p.fileRules && a.id in p.fileRefs && AllowMatches(a, f, pm)
  }

  ghost predicate UserAllows(p: Policy, f: Image, pm: PathMatch) {
    BySigner(p, p.userSigners, f) || ByFileRule(p, f, pm)
  }

  ghost predicate KernelAllows(p: Policy, f: Image) {
    BySigner(p, p.kernelSigners, f)
  }

  // ---- What the rules mean on their own ----------------------------------------------------------

  predicate RuleMatches(r: Rule, f: Image, pm: PathMatch) {
    match r.kind
    case HashKind => r.value == f.hash
    case PathKind => pm(r.value, f.path)
    case PublisherKind => r.value in f.tbs
    case OtherKind(_) => false
  }

  ghost predicate BaselineMatches(s: BaselineSigner, ekus: seq<Eku>, f: Image) {
    RootMatches(s.root, f) && (s.eku == "" || exists e :: e in ekus && e.id == s.eku && e.value in f.ekus)
  }

  ghost predicate BaselineAllows(b: seq<BaselineSigner>, ekus: seq<Eku>, kernel: bool, f: Image) {
    exists i :: 0 <= i < |b| && b[i].kernel == kernel && BaselineMatches(b[i], ekus, f)
  }

  /** The baseline ids differ from each other and from every generated id; the store
      signer is among them and each usage a signer requires is declared. */
  ghost predicate BaselineOk(b: seq<BaselineSigner>, ekus: seq<Eku>) {
    && (forall i, j :: 0 <= i < j < |b| ==> b[i].id != b[j].id)
    && (forall i :: 0 <= i < |b| ==> |b[i].id| > 10 && b[i].id[3] == 'S' && b[i].id[10] != 'P')
    && (exists i :: 0 <= i < |b| && b[i].id == "ID_SIGNER_STORE")
    && (forall i :: 0 <= i < |b| && b[i].eku != "" ==> exists e :: e in ekus && e.id == b[i].eku)
  }

  // ---- Identifiers -----------------------------------------------------------------------------------

  lemma {:induction false} IdForms(n: nat)
    ensures |HashId(n)| > 11 && HashId(n)[3] == 'A' && HashId(n)[9] == 'H' && HashId(n)[11..] == Decimal(n)
    ensures |PathId(n)| > 11 && PathId(n)[3] == 'A' && PathId(n)[9] == 'P' && PathId(n)[11..] == Decimal(n)
    ensures |SignerId(n)| > 12 && SignerId(n)[3] == 'S' && SignerId(n)[10] == 'P' && SignerId(n)[12..] == Decimal(n)
  {
  }

  /** A generated id determines its form and its number. */
  lemma {:induction false} IdsDetermine(m: nat, n: nat)
    ensures HashId(m) != PathId(n)
    ensures HashId(m) == HashId(n) || PathId(m) == PathId(n) || SignerId(m) == SignerId(n) ==> m == n
  {
    IdForms(m);
    IdForms(n);
    if Decimal(m) == Decimal(n) {
      DecimalInjective(m, n);
    }
  }

  function SignerOf(s: BaselineSigner): Signer {
    Signer(s.id, s.name, s.root, s.eku)
  }

  lemma {:induction false} InBaseline(b: seq<BaselineSigner>, n: nat, s: Signer)
    requires n <= |b|
    ensures s in BaselineSigners(b, n) <==> exists i :: 0 <= i < n && s == SignerOf(b[i])
  {
    if n > 0 {
      InBaseline(b, n - 1, s);
      assert s in BaselineSigners(b, n) <==> s in BaselineSigners(b, n - 1) || s == SignerOf(b[n - 1]);
    }
  }

  lemma {:induction false} InBaselineRefs(b: seq<BaselineSigner>, n: nat, kernel: bool, id: string)
    requires n <= |b|
    ensures id in BaselineRefs(b, n, kernel) <==> exists i :: 0 <= i < n && b[i].kernel == kernel && b[i].id == id
  {
    if n > 0 {
      InBaselineRefs(b, n - 1, kernel, id);
      assert id in BaselineRefs(b, n, kernel) <==>
             id in BaselineRefs(b, n - 1, kernel) || (b[n - 1].kernel == kernel && b[n - 1].id == id);
    }
  }

  lemma {:induction false} InConcat<T>(a: seq<T>, b: seq<T>, x: T)
    ensures x in a + b <==> x in a || x in b
  {
  }

  /** What the first `n` rules contribute to a section. */
  ghost function Gathered<T>(rs: seq<Rule>, n: nat, at: (Rule, nat) -> seq<T>): seq<T>
    requires n <= |rs|
  {
    if n == 0 then [] else Gathered(rs, n - 1, at) + at(rs[n - 1], n - 1)
  }

  lemma {:induction false} InGathered<T>(rs: seq<Rule>, n: nat, at: (Rule, nat) -> seq<T>, x: T)
    requires n <= |rs|
    ensures x in Gathered(rs, n, at) <==> exists i :: 0 <= i < n && x in at(rs[i], i)
  {
    if n > 0 {
      InGathered(rs, n - 1, at, x);
      InConcat(Gathered(rs, n - 1, at), at(rs[n - 1], n - 1), x);
    }
  }

  lemma {:induction false} PublishersGathered(rs: seq<Rule>, n: nat)
    requires n <= |rs|
    ensures PublisherSigners(rs, n) == Gathered(rs, n, SignersAt)
  {
    if n > 0 {
      PublishersGathered(rs, n - 1);
    }
  }

  lemma {:induction false} FileRulesGathered(rs: seq<Rule>, n: nat)
    requires n <= |rs|
    ensures FileRules(rs, n) == Gathered(rs, n, AllowsAt)
  {
    if n > 0 {
      FileRulesGathered(rs, n - 1);
    }
  }

  lemma {:induction false} InPublishers(rs: seq<Rule>, n: nat, s: Signer)
    requires n <= |rs|
    ensures s in PublisherSigners(rs, n) <==> exists i :: 0 <= i < n && s in SignersAt(rs[i], i)
  {
    PublishersGathered(rs, n);
    InGathered(rs, n, SignersAt, s);
  }

  lemma {:induction false} InFileRules(rs: seq<Rule>, n: nat, a: Allow)
    requires n <= |rs|
    ensures a in FileRules(rs, n) <==> exists i :: 0 <= i < n && a in AllowsAt(rs[i], i)
  {
    FileRulesGathered(rs, n);
    InGathered(rs, n, AllowsAt, a);
  }

  lemma {:induction false} InSignerIds(s: seq<Signer>, id: string)
    ensures id in SignerIds(s) <==> exists x :: x in s && x.id == id
  {
    if id in SignerIds(s) {
      var i :| 0 <= i < |s| && SignerIds(s)[i] == id;
      assert s[i] in s;
    }
    if x :| x in s && x.id == id {
      var i :| 0 <= i < |s| && s[i] == x;
      assert SignerIds(s)[i] == id;
    }
  }

  lemma {:induction false} InAllowIds(a: seq<Allow>, id: string)
    ensures id in AllowIds(a) <==> exists x :: x in a && x.id == id
  {
    if id in AllowIds(a) {
      var i :| 0 <= i < |a| && AllowIds(a)[i] == id;
      assert a[i] in a;
    }
    if x :| x in a && x.id == id {
      var i :| 0 <= i < |a| && a[i] == x;
      assert AllowIds(a)[i] == id;
    }
  }

  /** A signer of the policy is a baseline signer or the one publisher rule `i` emits. */
  lemma {:induction false} SignerOrigin(b: seq<BaselineSigner>, ekus: seq<Eku>, audit: bool, rs: seq<Rule>, s: Signer)
    ensures s in Emit(b, ekus, audit, rs).signers <==>
              || (exists i :: 0 <= i < |b| && s == SignerOf(b[i]))
              || (exists i :: 0 <= i < |rs| && s in SignersAt(rs[i], i))
  {
    InBaseline(b, |b|, s);
    InPublishers(rs, |rs|, s);
  }

  // ---- Identifiers are distinct, position by position -------------------------------------------

  ghost predicate Distinct(ids: seq<string>) {
    forall i, j :: 0 <= i < j < |ids| ==> ids[i] != ids[j]
  }

  lemma {:induction false} DistinctConcat(x: seq<string>, y: seq<string>)
    requires Distinct(x) && Distinct(y) && forall id :: id in x ==> id !in y
    ensures Distinct(x + y)
  {
    var z := x + y;
    forall i, j | 0 <= i < j < |z|
      ensures z[i] != z[j]
    {
      if i < |x| <= j {
        assert z[i] == x[i] && z[i] in x && z[j] == y[j - |x|] && z[j] in y;
      }
    }
  }

  lemma {:induction false} DistinctSnoc(x: seq<string>, id: string)
    requires Distinct(x) && id !in x
    ensures Distinct(x + [id])
  {
    DistinctConcat(x, [id]);
  }

  lemma {:induction false} PublisherIdsDistinct(rs: seq<Rule>, n: nat)
    requires n <= |rs|
    ensures Distinct(SignerIds(PublisherSigners(rs, n)))
    ensures forall id :: id in SignerIds(PublisherSigners(rs, n)) ==> exists k :: 0 <= k < n && id == SignerId(k)
  {
    if n > 0 {
      PublisherIdsDistinct(rs, n - 1);
      var ids := SignerIds(PublisherSigners(rs, n - 1));
      if rs[n - 1].kind == PublisherKind {
        assert SignerIds(PublisherSigners(rs, n)) == ids + [SignerId(n - 1)];
        if SignerId(n - 1) in ids {
          var k :| 0 <= k < n - 1 && SignerId(n - 1) == SignerId(k);
          IdsDetermine(k, n - 1);
          assert false;
        }
        DistinctSnoc(ids, SignerId(n - 1));
      } else {
        assert PublisherSigners(rs, n) == PublisherSigners(rs, n - 1);
      }
    }
  }

  lemma {:induction false} FileRuleIdsDistinct(rs: seq<Rule>, n: nat)
    requires n <= |rs|
    ensures Distinct(AllowIds(FileRules(rs, n)))
    ensures forall id :: id in AllowIds(FileRules(rs, n)) ==> exists k :: 0 <= k < n && (id == HashId(k) || id == PathId(k))
  {
    if n > 0 {
      FileRuleIdsDistinct(rs, n - 1);
      var ids := AllowIds(FileRules(rs, n - 1));
      if AllowsAt(rs[n - 1], n - 1) == [] {
        assert FileRules(rs, n) == FileRules(rs, n - 1);
      } else {
        var id := AllowsAt(rs[n - 1], n - 1)[0].id;
        assert AllowIds(FileRules(rs, n)) == ids + [id];
        NewFileRuleId(ids, n - 1, id);
        DistinctSnoc(ids, id);
      }
    }
  }

  lemma {:induction false} NewFileRuleId(ids: seq<string>, n: nat, id: string)
    requires forall x :: x in ids ==> exists k :: 0 <= k < n && (x == HashId(k) || x == PathId(k))
    requires id == HashId(n) || id == PathId(n)
    ensures id !in ids
  {
    if id in ids {
      var k :| 0 <= k < n && (id == HashId(k) || id == PathId(k));
      IdsDetermine(k, n);
      IdsDetermine(n, k);
      assert false;
    }
  }

  lemma {:induction false} BaselineIds(b: seq<BaselineSigner>, n: nat)
    requires n <= |b|
    ensures |BaselineSigners(b, n)| == n && forall i :: 0 <= i < n ==> SignerIds(BaselineSigners(b, n))[i] == b[i].id
  {
    if n > 0 {
      BaselineIds(b, n - 1);
      assert forall i :: 0 <= i < n - 1 ==> SignerIds(BaselineSigners(b, n))[i] == SignerIds(BaselineSigners(b, n - 1))[i];
    }
  }

  lemma {:induction false} BaselineRefsDistinct(b: seq<BaselineSigner>, ekus: seq<Eku>, n: nat, kernel: bool)
    requires BaselineOk(b, ekus) && n <= |b|
    ensures Distinct(BaselineRefs(b, n, kernel))
  {
    if n > 0 {
      BaselineRefsDistinct(b, ekus, n - 1, kernel);
      InBaselineRefs(b, n - 1, kernel, b[n - 1].id);
      if b[n - 1].kernel == kernel {
        DistinctSnoc(BaselineRefs(b, n - 1, kernel), b[n - 1].id);
      } else {
        assert BaselineRefs(b, n, kernel) == BaselineRefs(b, n - 1, kernel);
      }
    }
  }

  lemma {:induction false} GeneratedIsNotBaseline(b: seq<BaselineSigner>, ekus: seq<Eku>, rs: seq<Rule>, i: nat)
    requires BaselineOk(b, ekus) && i < |b|
    ensures b[i].id !in SignerIds(PublisherSigners(rs, |rs|))
  {
    PublisherIdsDistinct(rs, |rs|);
    forall k | 0 <= k < |rs|
      ensures SignerId(k) != b[i].id
    {
      IdForms(k);
    }
  }

  lemma {:induction false} DeclaredIdsDistinct(b: seq<BaselineSigner>, ekus: seq<Eku>, rs: seq<Rule>)
    requires BaselineOk(b, ekus)
    ensures Distinct(SignerIds(BaselineSigners(b, |b|)) + SignerIds(PublisherSigners(rs, |rs|)))
  {
    var published := SignerIds(PublisherSigners(rs, |rs|));
    var base := SignerIds(BaselineSigners(b, |b|));
    PublisherIdsDistinct(rs, |rs|);
    BaselineIds(b, |b|);
    forall id | id in base
      ensures id !in published
    {
      var i :| 0 <= i < |base| && base[i] == id;
      GeneratedIsNotBaseline(b, ekus, rs, i);
    }
    BaselineIdsDistinct(b, ekus);
    DistinctConcat(base, published);
  }

  lemma {:induction false} BaselineIdsDistinct(b: seq<BaselineSigner>, ekus: seq<Eku>)
    requires BaselineOk(b, ekus)
    ensures Distinct(SignerIds(BaselineSigners(b, |b|)))
  {
    BaselineIds(b, |b|);
  }

  lemma {:induction false} SignerIdsConcat(a: seq<Signer>, c: seq<Signer>)
    ensures SignerIds(a + c) == SignerIds(a) + SignerIds(c)
  {
  }

  lemma {:induction false} ReferencedIdsDistinct(b: seq<BaselineSigner>, ekus: seq<Eku>, rs: seq<Rule>)
    requires BaselineOk(b, ekus)
    ensures Distinct(BaselineRefs(b, |b|, false) + SignerIds(PublisherSigners(rs, |rs|)))
  {
    var published := SignerIds(PublisherSigners(rs, |rs|));
    PublisherIdsDistinct(rs, |rs|);
    BaselineRefsDistinct(b, ekus, |b|, false);
    forall id | id in BaselineRefs(b, |b|, false)
      ensures id !in published
    {
      InBaselineRefs(b, |b|, false, id);
      var i :| 0 <= i < |b| && b[i].id == id;
      GeneratedIsNotBaseline(b, ekus, rs, i);
    }
    DistinctConcat(BaselineRefs(b, |b|, false), published);
  }

  lemma {:induction false} SignerIdsDistinct(b: seq<BaselineSigner>, ekus: seq<Eku>, rs: seq<Rule>)
    requires BaselineOk(b, ekus)
    ensures Distinct(SignerIds(BaselineSigners(b, |b|) + PublisherSigners(rs, |rs|)))
    ensures Distinct(BaselineRefs(b, |b|, false) + SignerIds(PublisherSigners(rs, |rs|)))
  {
    DeclaredIdsDistinct(b, ekus, rs);
    SignerIdsConcat(BaselineSigners(b, |b|), PublisherSigners(rs, |rs|));
    ReferencedIdsDistinct(b, ekus, rs);
  }

  /** In a policy no id is declared twice, among signers and file rules together, and no
      list of references repeats one. */
  lemma {:induction false} PolicyIdsDistinct(b: seq<BaselineSigner>, ekus: seq<Eku>, audit: bool, rs: seq<Rule>)
    requires BaselineOk(b, ekus)
    ensures var p := Emit(b, ekus, audit, rs);
      && Distinct(SignerIds(p.signers) + AllowIds(p.fileRules))
      && Distinct(p.kernelSigners) && Distinct(p.userSigners) && Distinct(p.fileRefs) && Distinct(p.ciSigners)
  {
    var p := Emit(b, ekus, audit, rs);
    SignerIdsDistinct(b, ekus, rs);
    FileRuleIdsDistinct(rs, |rs|);
    BaselineRefsDistinct(b, ekus, |b|, true);
    forall id | id in SignerIds(p.signers)
      ensures id !in AllowIds(p.fileRules)
    {
      SignerIdForm(b, ekus, audit, rs, id);
      if id in AllowIds(p.fileRules) {
        var k :| 0 <= k < |rs| && (id == HashId(k) || id == PathId(k));
        IdForms(k);
        assert false;
      }
    }
    DistinctConcat(SignerIds(p.signers), AllowIds(p.fileRules));
  }

  lemma {:induction false} SignerIdForm(b: seq<BaselineSigner>, ekus: seq<Eku>, audit: bool, rs: seq<Rule>, id: string)
    requires BaselineOk(b, ekus) && id in SignerIds(Emit(b, ekus, audit, rs).signers)
    ensures |id| > 3 && id[3] == 'S'
  {
    var signers := Emit(b, ekus, audit, rs).signers;
    InSignerIds(signers, id);
    var s :| s in signers && s.id == id;
    SignerOrigin(b, ekus, audit, rs, s);
    if i :| 0 <= i < |rs| && s in SignersAt(rs[i], i) {
      IdForms(i);
    }
  }

  /** A signer's id determines the signer. */
  lemma {:induction false} SignerIdsUnique(b: seq<BaselineSigner>, ekus: seq<Eku>, audit: bool, rs: seq<Rule>, s: Signer, t: Signer)
    requires BaselineOk(b, ekus)
    requires s in Emit(b, ekus, audit, rs).signers && t in Emit(b, ekus, audit, rs).signers && s.id == t.id
    ensures s == t
  {
    var signers := Emit(b, ekus, audit, rs).signers;
    SignerIdsDistinct(b, ekus, rs);
    var i :| 0 <= i < |signers| && signers[i] == s;
    var j :| 0 <= j < |signers| && signers[j] == t;
    assert SignerIds(signers)[i] == SignerIds(signers)[j];
    assert i == j;
  }

  /** A file rule's id determines the rule. */
  lemma {:induction false} FileRuleIdsUnique(rs: seq<Rule>, x: Allow, y: Allow)
    requires x in FileRules(rs, |rs|) && y in FileRules(rs, |rs|) && x.id == y.id
    ensures x == y
  {
    var rules := FileRules(rs, |rs|);
    FileRuleIdsDistinct(rs, |rs|);
    var i :| 0 <= i < |rules| && rules[i] == x;
    var j :| 0 <= j < |rules| && rules[j] == y;
    assert AllowIds(rules)[i] == AllowIds(rules)[j];
    assert i == j;
  }

  /** Whether some signer of the policy has the id. */
  ghost predicate Declares(p: Policy, id: string) {
    exists s :: s in p.signers && s.id == id
  }

  lemma {:induction false} BaselineDeclared(b: seq<BaselineSigner>, ekus: seq<Eku>, audit: bool, rs: seq<Rule>, i: nat)
    requires i < |b|
    ensures Declares(Emit(b, ekus, audit, rs), b[i].id)
  {
    SignerOrigin(b, ekus, audit, rs, SignerOf(b[i]));
    assert SignerOf(b[i]) in Emit(b, ekus, audit, rs).signers && SignerOf(b[i]).id == b[i].id;
  }

  lemma {:induction false} SignerReferenceResolves(b: seq<BaselineSigner>, ekus: seq<Eku>, audit: bool, rs: seq<Rule>, id: string)
    requires BaselineOk(b, ekus)
    requires var p := Emit(b, ekus, audit, rs); id in p.userSigners || id in p.kernelSigners || id in p.ciSigners
    ensures Declares(Emit(b, ekus, audit, rs), id)
  {
    var p := Emit(b, ekus, audit, rs);
    InBaselineRefs(b, |b|, true, id);
    InBaselineRefs(b, |b|, false, id);
    if i :| 0 <= i < |b| && b[i].id == id {
      BaselineDeclared(b, ekus, audit, rs, i);
    } else {
      InConcat(BaselineRefs(b, |b|, false), SignerIds(PublisherSigners(rs, |rs|)), id);
      PublisherDeclared(b, ekus, audit, rs, id);
    }
  }

  lemma {:induction false} PublisherDeclared(b: seq<BaselineSigner>, ekus: seq<Eku>, audit: bool, rs: seq<Rule>, id: string)
    requires id in SignerIds(PublisherSigners(rs, |rs|))
    ensures Declares(Emit(b, ekus, audit, rs), id)
  {
    InSignerIds(PublisherSigners(rs, |rs|), id);
    var s :| s in PublisherSigners(rs, |rs|) && s.id == id;
    InConcat(BaselineSigners(b, |b|), PublisherSigners(rs, |rs|), s);
    assert s in Emit(b, ekus, audit, rs).signers;
  }

  lemma {:induction false} UsageResolves(b: seq<BaselineSigner>, ekus: seq<Eku>, audit: bool, rs: seq<Rule>, s: Signer)
    requires BaselineOk(b, ekus) && s in Emit(b, ekus, audit, rs).signers && s.eku != ""
    ensures exists e :: e in ekus && e.id == s.eku
  {
    SignerOrigin(b, ekus, audit, rs, s);
    if i :| 0 <= i < |b| && s == SignerOf(b[i]) {
      assert b[i].eku != "";
    }
  }

  /** Every signer, file-rule and usage reference of a policy resolves. */
  lemma {:induction false} ReferencesResolve(b: seq<BaselineSigner>, ekus: seq<Eku>, audit: bool, rs: seq<Rule>, id: string)
    requires BaselineOk(b, ekus)
    ensures var p := Emit(b, ekus, audit, rs);
      && (id in p.userSigners || id in p.kernelSigners || id in p.ciSigners ==> Declares(p, id))
      && (id in p.fileRefs ==> exists a :: a in p.fileRules && a.id == id)
      && (forall s :: s in p.signers && s.eku != "" ==> exists e :: e in p.ekus && e.id == s.eku)
  {
    var p := Emit(b, ekus, audit, rs);
    InAllowIds(p.fileRules, id);
    if id in p.userSigners || id in p.kernelSigners || id in p.ciSigners {
      SignerReferenceResolves(b, ekus, audit, rs, id);
    }
    forall s | s in p.signers && s.eku != ""
      ensures exists e :: e in p.ekus && e.id == s.eku
    {
      UsageResolves(b, ekus, audit, rs, s);
    }
  }

  // ---- Meaning ------------------------------------------------------------------------------------------

  /** Kernel mode trusts the baseline's kernel signers and no rule. */
  lemma {:induction false} KernelMeaning(b: seq<BaselineSigner>, ekus: seq<Eku>, audit: bool, rs: seq<Rule>, f: Image)
    requires BaselineOk(b, ekus)
    ensures KernelAllows(Emit(b, ekus, audit, rs), f) <==> BaselineAllows(b, ekus, true, f)
  {
    var p := Emit(b, ekus, audit, rs);
    if s :| s in p.signers && s.id in p.kernelSigners && SignerMatches(p, s, f) {
      InBaselineRefs(b, |b|, true, s.id);
      var i :| 0 <= i < |b| && b[i].kernel && b[i].id == s.id;
      SignerOrigin(b, ekus, audit, rs, SignerOf(b[i]));
      SignerIdsUnique(b, ekus, audit, rs, s, SignerOf(b[i]));
      assert BaselineMatches(b[i], ekus, f);
    }
    if i :| 0 <= i < |b| && b[i].kernel && BaselineMatches(b[i], ekus, f) {
      BaselineIsListed(b, ekus, audit, rs, f, i);
    }
  }

  lemma {:induction false} BaselineIsListed(b: seq<BaselineSigner>, ekus: seq<Eku>, audit: bool, rs: seq<Rule>, f: Image, i: nat)
    requires i < |b| && BaselineMatches(b[i], ekus, f)
    ensures var p := Emit(b, ekus, audit, rs);
      BySigner(p, if b[i].kernel then p.kernelSigners else p.userSigners, f)
  {
    var p, s := Emit(b, ekus, audit, rs), SignerOf(b[i]);
    SignerOrigin(b, ekus, audit, rs, s);
    InBaselineRefs(b, |b|, b[i].kernel, b[i].id);
    assert s in p.signers && SignerMatches(p, s, f);
  }

  lemma {:induction false} PublisherSignerMeaning(rs: seq<Rule>, p: Policy, t: Signer, f: Image, pm: PathMatch)
    requires t in PublisherSigners(rs, |rs|) && SignerMatches(p, t, f)
    ensures exists i :: 0 <= i < |rs| && RuleMatches(rs[i], f, pm)
  {
    InPublishers(rs, |rs|, t);
    var i :| 0 <= i < |rs| && t in SignersAt(rs[i], i);
    assert RuleMatches(rs[i], f, pm);
  }

  /** A user-mode signer that matches is a baseline user signer or some publisher rule's. */
  lemma {:induction false} UserSignerMeaning(b: seq<BaselineSigner>, ekus: seq<Eku>, audit: bool, rs: seq<Rule>, f: Image, pm: PathMatch)
    requires BaselineOk(b, ekus) && BySigner(Emit(b, ekus, audit, rs), Emit(b, ekus, audit, rs).userSigners, f)
    ensures BaselineAllows(b, ekus, false, f) || exists i :: 0 <= i < |rs| && RuleMatches(rs[i], f, pm)
  {
    var p := Emit(b, ekus, audit, rs);
    var s :| s in p.signers && s.id in p.userSigners && SignerMatches(p, s, f);
    InBaselineRefs(b, |b|, false, s.id);
    if i :| 0 <= i < |b| && !b[i].kernel && b[i].id == s.id {
      SignerOrigin(b, ekus, audit, rs, SignerOf(b[i]));
      SignerIdsUnique(b, ekus, audit, rs, s, SignerOf(b[i]));
      assert BaselineMatches(b[i], ekus, f);
    } else {
      InConcat(BaselineRefs(b, |b|, false), SignerIds(PublisherSigners(rs, |rs|)), s.id);
      InSignerIds(PublisherSigners(rs, |rs|), s.id);
      var t :| t in PublisherSigners(rs, |rs|) && t.id == s.id;
      SignerIdsUnique(b, ekus, audit, rs, s, t);
      PublisherSignerMeaning(rs, p, t, f, pm);
    }
  }

  lemma {:induction false} HashUnescape(s: string)
    requires forall i :: 0 <= i < |s| ==> s[i] != '&'
    ensures Unescape(s) == s
  {
    if s != [] {
      HashUnescape(s[1..]);
      assert "&amp;"[0] == '&' && "&lt;"[0] == '&' && "&gt;"[0] == '&' && "&quot;"[0] == '&';
    }
  }

  /** The entry that a hash or path rule emits matches what the rule matches. */
  lemma {:induction false} EntryMeaning(r: Rule, n: nat, f: Image, pm: PathMatch)
    requires IsNormal(r) && r.kind != PublisherKind
    ensures |AllowsAt(r, n)| == 1 && (AllowMatches(AllowsAt(r, n)[0], f, pm) <==> RuleMatches(r, f, pm))
  {
    NormalIsKnown(r);
    if r.kind == HashKind {
      assert forall i :: 0 <= i < |r.value| ==> IsHexDigit(r.value[i]);
      HashUnescape(r.value);
    } else {
      EscapeRoundTrip(r.value);
    }
  }

  lemma {:induction false} RuleIsListed(b: seq<BaselineSigner>, ekus: seq<Eku>, audit: bool, rs: seq<Rule>, f: Image, pm: PathMatch, i: nat)
    requires i < |rs| && IsNormal(rs[i]) && RuleMatches(rs[i], f, pm)
    ensures UserAllows(Emit(b, ekus, audit, rs), f, pm)
  {
    var p := Emit(b, ekus, audit, rs);
    if rs[i].kind == PublisherKind {
      var s := SignersAt(rs[i], i)[0];
      assert s in SignersAt(rs[i], i);
      SignerOrigin(b, ekus, audit, rs, s);
      InPublishers(rs, |rs|, s);
      InSignerIds(PublisherSigners(rs, |rs|), s.id);
      assert s in p.signers && s.id in p.userSigners && SignerMatches(p, s, f);
    } else {
      EntryMeaning(rs[i], i, f, pm);
      var a := AllowsAt(rs[i], i)[0];
      assert a in AllowsAt(rs[i], i);
      InFileRules(rs, |rs|, a);
      InAllowIds(p.fileRules, a.id);
      assert a in p.fileRules && a.id in p.fileRefs && AllowMatches(a, f, pm);
    }
  }

  lemma {:induction false} FileRuleMeaning(b: seq<BaselineSigner>, ekus: seq<Eku>, audit: bool, rs: seq<Rule>, f: Image, pm: PathMatch)
    requires (forall i :: 0 <= i < |rs| ==> IsNormal(rs[i])) && ByFileRule(Emit(b, ekus, audit, rs), f, pm)
    ensures exists i :: 0 <= i < |rs| && RuleMatches(rs[i], f, pm)
  {
    var p := Emit(b, ekus, audit, rs);
    var a :| a in p.fileRules && a.id in p.fileRefs && AllowMatches(a, f, pm);
    InFileRules(rs, |rs|, a);
    var i :| 0 <= i < |rs| && a in AllowsAt(rs[i], i);
    assert rs[i].kind != PublisherKind;
    EntryMeaning(rs[i], i, f, pm);
  }

  /** User mode allows exactly what the baseline's user signers or some rule allow. */
  lemma {:induction false} UserMeaning(b: seq<BaselineSigner>, ekus: seq<Eku>, audit: bool, rs: seq<Rule>, f: Image, pm: PathMatch)
    requires BaselineOk(b, ekus) && forall i :: 0 <= i < |rs| ==> IsNormal(rs[i])
    ensures UserAllows(Emit(b, ekus, audit, rs), f, pm) <==>
            BaselineAllows(b, ekus, false, f) || exists i :: 0 <= i < |rs| && RuleMatches(rs[i], f, pm)
  {
    var p := Emit(b, ekus, audit, rs);
    if BySigner(p, p.userSigners, f) {
      UserSignerMeaning(b, ekus, audit, rs, f, pm);
    } else if ByFileRule(p, f, pm) {
      FileRuleMeaning(b, ekus, audit, rs, f, pm);
    }
    if i :| 0 <= i < |rs| && RuleMatches(rs[i], f, pm) {
      RuleIsListed(b, ekus, audit, rs, f, pm, i);
    } else if i :| 0 <= i < |b| && !b[i].kernel && BaselineMatches(b[i], ekus, f) {
      BaselineIsListed(b, ekus, audit, rs, f, i);
    }
  }

  /** How a rule is written: its entry is numbered by the position of the rule, and an XML reader
      gets back the description, the path and the name, or "Publisher" for a missing name. */
  lemma {:induction false} RuleIsWritten(b: seq<BaselineSigner>, ekus: seq<Eku>, audit: bool, rs: seq<Rule>, i: nat)
    requires i < |rs|
    ensures var p, r := Emit(b, ekus, audit, rs), rs[i];
      && (r.kind == HashKind ==> exists title ::
            AllowHash("ID_ALLOW_H_" + Decimal(i), title, r.value) in p.fileRules && Unescape(title) == r.description)
      && (r.kind == PathKind ==> exists title, path ::
            && AllowPath("ID_ALLOW_P_" + Decimal(i), title, path) in p.fileRules
            && Unescape(title) == r.description && Unescape(path) == r.value)
      && (r.kind == PublisherKind ==> exists name ::
            && Signer("ID_SIGNER_P_" + Decimal(i), name, Tbs(r.value), "") in p.signers
            && Unescape(name) == if r.publisherName == "" then "Publisher" else r.publisherName)
  {
    var r := rs[i];
    EscapeRoundTrip(r.description);
    EscapeRoundTrip(r.value);
    EscapeRoundTrip(DisplayName(r));
    if r.kind == HashKind {
      var a := AllowHash("ID_ALLOW_H_" + Decimal(i), Escape(r.description), r.value);
      assert a in AllowsAt(r, i);
      InFileRules(rs, |rs|, a);
    } else if r.kind == PathKind {
      var a := AllowPath("ID_ALLOW_P_" + Decimal(i), Escape(r.description), Escape(r.value));
      assert a in AllowsAt(r, i);
      InFileRules(rs, |rs|, a);
    } else if r.kind == PublisherKind {
      var s := Signer("ID_SIGNER_P_" + Decimal(i), Escape(DisplayName(r)), Tbs(r.value), "");
      assert s in SignersAt(r, i);
      SignerOrigin(b, ekus, audit, rs, s);
    }
  }

  // ---- Whole compilations ---------------------------------------------------------------------------------

  /** Some given rule, once normalised, matches the image. */
  ghost predicate Named(rules: seq<Rule>, f: Image, pm: PathMatch) {
    exists i :: 0 <= i < |rules| && Normalize(rules[i]).Some? && RuleMatches(Normalize(rules[i]).value, f, pm)
  }

  /** What the sort leaves are normal rules, and they match what the given rules name. */
  lemma {:induction false} SortedAreNormal(rules: seq<Rule>, sorted: seq<Rule>)
    requires NormalizeAll(rules).Some? && Arranges(sorted, NormalizeAll(rules).value)
    ensures forall i :: 0 <= i < |sorted| ==> IsNormal(sorted[i])
  {
    var rs := NormalizeAll(rules).value;
    forall i | 0 <= i < |sorted|
      ensures IsNormal(sorted[i])
    {
      assert sorted[i] in multiset(sorted);
      assert sorted[i] in multiset(rs);
      var j :| 0 <= j < |rs| && rs[j] == sorted[i];
      NormalizeIdempotent(rules[j]);
    }
  }

  lemma {:induction false} NamedByNormal(rules: seq<Rule>, f: Image, pm: PathMatch)
    requires NormalizeAll(rules).Some?
    ensures Named(rules, f, pm) <==>
            exists i :: 0 <= i < |NormalizeAll(rules).value| && RuleMatches(NormalizeAll(rules).value[i], f, pm)
  {
    var rs := NormalizeAll(rules).value;
    if i :| 0 <= i < |rs| && RuleMatches(rs[i], f, pm) {
      assert RuleMatches(Normalize(rules[i]).value, f, pm);
    }
    if i :| 0 <= i < |rules| && Normalize(rules[i]).Some? && RuleMatches(Normalize(rules[i]).value, f, pm) {
      assert RuleMatches(rs[i], f, pm);
    }
  }

  /** Whatever order the sort leaves equal keys in: the compiled policy allows in user mode
      exactly the baseline plus the files some given rule names, in kernel mode the baseline. */
  lemma {:induction false} CompiledMeaning(b: seq<BaselineSigner>, ekus: seq<Eku>, audit: bool, rules: seq<Rule>, sorted: seq<Rule>, f: Image, pm: PathMatch)
    requires BaselineOk(b, ekus) && NormalizeAll(rules).Some? && Arranges(sorted, NormalizeAll(rules).value)
    ensures var p := Emit(b, ekus, audit, sorted);
      && (UserAllows(p, f, pm) <==> (BaselineAllows(b, ekus, false, f) || Named(rules, f, pm)))
      && (KernelAllows(p, f) <==> BaselineAllows(b, ekus, true, f))
  {
    SortedAreNormal(rules, sorted);
    KernelMeaning(b, ekus, audit, sorted, f);
    UserMeaning(b, ekus, audit, sorted, f, pm);
    SameMatches(sorted, NormalizeAll(rules).value, f, pm);
    NamedByNormal(rules, f, pm);
  }

  lemma {:induction false} SameMatches(a: seq<Rule>, b: seq<Rule>, f: Image, pm: PathMatch)
    requires multiset(a) == multiset(b)
    ensures (exists i :: 0 <= i < |a| && RuleMatches(a[i], f, pm)) <==> (exists i :: 0 <= i < |b| && RuleMatches(b[i], f, pm))
  {
    if i :| 0 <= i < |a| && RuleMatches(a[i], f, pm) {
      assert a[i] in multiset(a) && a[i] in multiset(b);
      assert a[i] in b;
      var j :| 0 <= j < |b| && b[j] == a[i];
    }
    if i :| 0 <= i < |b| && RuleMatches(b[i], f, pm) {
      assert b[i] in multiset(b) && b[i] in multiset(a);
      assert b[i] in a;
      var j :| 0 <= j < |a| && a[j] == b[i];
    }
  }
}
