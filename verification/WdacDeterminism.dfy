/** When the compiled policy depends on the rules alone and not on the order they came in. */
module WdacDeterminism {
  import opened Common
  import opened Bags
  import opened Text
  import opened WdacRules
  import opened Wdac
  import opened WdacMeaning

  /** The text of a rule's entry that its key does not determine. */
  function Label(r: Rule): string {
    if r.kind == PublisherKind then DisplayName(r) else r.description
  }

  /** Rules that the sort cannot tell apart carry the same label. */
  ghost predicate Unambiguous(rs: seq<Rule>) {
    forall i, j :: 0 <= i < |rs| && 0 <= j < |rs| && KeyOf(rs[i]) == KeyOf(rs[j]) ==> Label(rs[i]) == Label(rs[j])
  }

  ghost predicate DistinctKeys(rs: seq<Rule>) {
    forall i, j :: 0 <= i < j < |rs| ==> KeyOf(rs[i]) != KeyOf(rs[j])
  }

  ghost predicate AllNormal(rs: seq<Rule>) {
    forall i :: 0 <= i < |rs| ==> IsNormal(rs[i])
  }

  /** Every order the sort may leave the rules in gives the same policy. */
  ghost predicate Deterministic(b: seq<BaselineSigner>, ekus: seq<Eku>, audit: bool, rs: seq<Rule>) {
    forall s, t :: Arranges(s, rs) && Arranges(t, rs) ==> Emit(b, ekus, audit, s) == Emit(b, ekus, audit, t)
  }

  // ---- Sorted arrangements have the same keys ----------------------------------------------------

  lemma {:induction false} KeysKeepBag(a: seq<Rule>, b: seq<Rule>)
    requires multiset(a) == multiset(b)
    ensures multiset(Keys(a)) == multiset(Keys(b))
  {
    MapKeepsBag(a, b, KeyOf);
    assert Keys(a) == Mapped(a, KeyOf) && Keys(b) == Mapped(b, KeyOf);
  }

  lemma {:induction false} LastIsGreatest(a: seq<Key>, k: Key)
    requires SortedKeys(a) && k in multiset(a)
    ensures !KeyLess(a[|a| - 1], k)
  {
    var i :| 0 <= i < |a| && a[i] == k;
    KeyOrder(k, k);
  }

  lemma {:induction false} LastKeysAgree(a: seq<Key>, b: seq<Key>)
    requires SortedKeys(a) && SortedKeys(b) && multiset(a) == multiset(b) && |a| == |b| > 0
    ensures a[|a| - 1] == b[|b| - 1]
  {
    var x, y := a[|a| - 1], b[|b| - 1];
    assert x in multiset(a) && y in multiset(b);
    LastIsGreatest(a, y);
    LastIsGreatest(b, x);
    KeyOrder(x, y);
  }

  lemma {:induction false} FrontSorted(a: seq<Key>, front: seq<Key>)
    requires SortedKeys(a) && front <= a
    ensures SortedKeys(front)
  {
    forall i, j | 0 <= i < j < |front|
      ensures !KeyLess(front[j], front[i])
    {
      assert !KeyLess(a[j], a[i]);
    }
  }

  lemma {:induction false} SortedKeysUnique(a: seq<Key>, b: seq<Key>)
    requires SortedKeys(a) && SortedKeys(b) && multiset(a) == multiset(b)
    ensures a == b
  {
    LengthOfBag(a, b);
    if a != [] {
      var n := |a| - 1;
      LastKeysAgree(a, b);
      DropCommon(a, n, b, n);
      assert a[..n] == Without(a, n) && b[..n] == Without(b, n);
      FrontSorted(a, a[..n]);
      FrontSorted(b, b[..n]);
      SortedKeysUnique(a[..n], b[..n]);
      assert a == a[..n] + [a[n]] && b == b[..n] + [b[n]];
    }
  }

  lemma {:induction false} SameKeys(s: seq<Rule>, t: seq<Rule>, rs: seq<Rule>)
    requires Arranges(s, rs) && Arranges(t, rs)
    ensures |s| == |t| == |rs| && Keys(s) == Keys(t)
  {
    KeysKeepBag(s, t);
    SortedKeysUnique(Keys(s), Keys(t));
    LengthOfBag(s, rs);
    assert |s| == |Keys(s)|;
  }

  // ---- Equal keys and labels give equal entries -----------------------------------------------------

  lemma {:induction false} AlikeEntries(r: Rule, q: Rule, n: nat)
    requires IsNormal(r) && IsNormal(q) && KeyOf(r) == KeyOf(q) && Label(r) == Label(q)
    ensures AllowsAt(r, n) == AllowsAt(q, n) && SignersAt(r, n) == SignersAt(q, n)
  {
    NormalIsKnown(r);
    NormalIsKnown(q);
  }

  lemma {:induction false} AlikeSections(s: seq<Rule>, t: seq<Rule>, n: nat)
    requires n <= |s| == |t|
    requires forall i :: 0 <= i < n ==> AllowsAt(s[i], i) == AllowsAt(t[i], i) && SignersAt(s[i], i) == SignersAt(t[i], i)
    ensures FileRules(s, n) == FileRules(t, n) && PublisherSigners(s, n) == PublisherSigners(t, n)
  {
    if n > 0 {
      AlikeSections(s, t, n - 1);
    }
  }

  lemma {:induction false} ElementsOf(s: seq<Rule>, rs: seq<Rule>, i: nat) returns (j: nat)
    requires multiset(s) == multiset(rs) && i < |s|
    ensures j < |rs| && rs[j] == s[i]
  {
    assert s[i] in multiset(s);
    j := IndexIn(rs, s[i]);
  }

  lemma {:induction false} SameAtEach(s: seq<Rule>, t: seq<Rule>, rs: seq<Rule>, i: nat)
    requires AllNormal(rs) && Unambiguous(rs) && Arranges(s, rs) && Arranges(t, rs) && i < |s| == |t|
    ensures AllowsAt(s[i], i) == AllowsAt(t[i], i) && SignersAt(s[i], i) == SignersAt(t[i], i)
  {
    SameKeys(s, t, rs);
    assert Keys(s)[i] == Keys(t)[i];
    var x := ElementsOf(s, rs, i);
    var y := ElementsOf(t, rs, i);
    assert KeyOf(rs[x]) == KeyOf(rs[y]);
    AlikeEntries(s[i], t[i], i);
  }

  lemma {:induction false} UnambiguousIsDeterministic(b: seq<BaselineSigner>, ekus: seq<Eku>, audit: bool, rs: seq<Rule>, s: seq<Rule>, t: seq<Rule>)
    requires AllNormal(rs) && Unambiguous(rs) && Arranges(s, rs) && Arranges(t, rs)
    ensures Emit(b, ekus, audit, s) == Emit(b, ekus, audit, t)
  {
    SameKeys(s, t, rs);
    forall i | 0 <= i < |s|
      ensures AllowsAt(s[i], i) == AllowsAt(t[i], i) && SignersAt(s[i], i) == SignersAt(t[i], i)
    {
      SameAtEach(s, t, rs, i);
    }
    AlikeSections(s, t, |s|);
  }

  // ---- Ambiguous rules give two policies ---------------------------------------------------------------

  lemma {:induction false} Arrangement(rs: seq<Rule>) returns (sorted: seq<Rule>)
    ensures Arranges(sorted, rs)
  {
    if rs == [] {
      sorted := [];
    } else {
      var n := |rs| - 1;
      var front := Arrangement(rs[..n]);
      var at := InsertionPoint(front, rs[n]);
      InsertKeepsOrder(front, at, rs[n]);
      sorted := front[..at] + [rs[n]] + front[at..];
      assert rs == rs[..n] + [rs[n]];
    }
  }

  lemma {:induction false} InsertionPoint(s: seq<Rule>, r: Rule) returns (at: nat)
    ensures at <= |s|
    ensures at > 0 ==> !KeyLess(KeyOf(r), KeyOf(s[at - 1]))
    ensures at < |s| ==> KeyLess(KeyOf(r), KeyOf(s[at]))
  {
    at := |s|;
    while at > 0 && KeyLess(KeyOf(r), KeyOf(s[at - 1]))
      invariant at <= |s| && (at < |s| ==> KeyLess(KeyOf(r), KeyOf(s[at])))
    {
      at := at - 1;
    }
  }

  /** Exchanging two rules with equal keys leaves an arrangement. */
  lemma {:induction false} SwapArranges(s: seq<Rule>, rs: seq<Rule>, p: nat, q: nat)
    requires Arranges(s, rs) && p < |s| && q < |s| && KeyOf(s[p]) == KeyOf(s[q])
    ensures Arranges(s[p := s[q]][q := s[p]], rs)
  {
    var t := s[p := s[q]][q := s[p]];
    assert Keys(t) == Keys(s);
    assert multiset(t) == multiset(s);
  }

  lemma {:induction false} LabelsFromEntries(r: Rule, q: Rule, n: nat)
    requires IsNormal(r) && IsNormal(q) && KeyOf(r) == KeyOf(q)
    requires AllowsAt(r, n) == AllowsAt(q, n) && SignersAt(r, n) == SignersAt(q, n)
    ensures Label(r) == Label(q)
  {
    NormalIsKnown(r);
    NormalIsKnown(q);
    EscapeRoundTrip(Label(r));
    EscapeRoundTrip(Label(q));
    if r.kind == PublisherKind {
      assert SignersAt(r, n)[0].name == SignersAt(q, n)[0].name;
    } else {
      assert AllowsAt(r, n)[0].friendlyName == AllowsAt(q, n)[0].friendlyName;
    }
  }

  /** The entry a policy holds for position `n` can be read back from the policy. */
  lemma {:induction false} EntriesFromPolicy(b: seq<BaselineSigner>, ekus: seq<Eku>, audit: bool, s: seq<Rule>, t: seq<Rule>, n: nat)
    requires BaselineOk(b, ekus) && Emit(b, ekus, audit, s) == Emit(b, ekus, audit, t)
    requires n < |s| && n < |t| && IsNormal(s[n]) && IsNormal(t[n]) && KeyOf(s[n]) == KeyOf(t[n])
    ensures AllowsAt(s[n], n) == AllowsAt(t[n], n) && SignersAt(s[n], n) == SignersAt(t[n], n)
  {
    NormalIsKnown(s[n]);
    NormalIsKnown(t[n]);
    if s[n].kind == PublisherKind {
      var x, y := SignersAt(s[n], n)[0], SignersAt(t[n], n)[0];
      assert x in SignersAt(s[n], n) && y in SignersAt(t[n], n);
      SignerOrigin(b, ekus, audit, s, x);
      SignerOrigin(b, ekus, audit, t, y);
      SignerIdsUnique(b, ekus, audit, s, x, y);
    } else {
      var x, y := AllowsAt(s[n], n)[0], AllowsAt(t[n], n)[0];
      assert x in AllowsAt(s[n], n) && y in AllowsAt(t[n], n);
      InFileRules(s, |s|, x);
      InFileRules(t, |t|, y);
      assert x in Emit(b, ekus, audit, s).fileRules && y in Emit(b, ekus, audit, s).fileRules;
      FileRuleIdsUnique(s, x, y);
    }
  }

  lemma {:induction false} DeterministicIsUnambiguous(b: seq<BaselineSigner>, ekus: seq<Eku>, audit: bool, rs: seq<Rule>, i: nat, j: nat)
    requires BaselineOk(b, ekus) && AllNormal(rs) && Deterministic(b, ekus, audit, rs)
    requires i < |rs| && j < |rs| && KeyOf(rs[i]) == KeyOf(rs[j])
    ensures Label(rs[i]) == Label(rs[j])
  {
    var s := Arrangement(rs);
    var p := ElementsOf(rs, s, i);
    var q := ElementsOf(rs, s, j);
    SwapArranges(s, rs, p, q);
    var t := s[p := s[q]][q := s[p]];
    assert t[p] == s[q];
    EntriesFromPolicy(b, ekus, audit, s, t, p);
    LabelsFromEntries(s[p], s[q], p);
  }

  /** The output is fixed exactly when rules with the same kind and value also agree in
      the description, or for publishers in the name. */
  lemma {:induction false} DeterministicIff(b: seq<BaselineSigner>, ekus: seq<Eku>, audit: bool, rs: seq<Rule>)
    requires BaselineOk(b, ekus) && AllNormal(rs)
    ensures Deterministic(b, ekus, audit, rs) <==> Unambiguous(rs)
  {
    if Unambiguous(rs) {
      forall s, t | Arranges(s, rs) && Arranges(t, rs)
        ensures Emit(b, ekus, audit, s) == Emit(b, ekus, audit, t)
      {
        UnambiguousIsDeterministic(b, ekus, audit, rs, s, t);
      }
    }
    if Deterministic(b, ekus, audit, rs) {
      forall i, j | 0 <= i < |rs| && 0 <= j < |rs| && KeyOf(rs[i]) == KeyOf(rs[j])
        ensures Label(rs[i]) == Label(rs[j])
      {
        DeterministicIsUnambiguous(b, ekus, audit, rs, i, j);
      }
    }
  }

  // ---- Permuted inputs ------------------------------------------------------------------------------------

  function NormalForm(r: Rule): Rule {
    if Normalize(r).Some? then Normalize(r).value else r
  }

  lemma {:induction false} NormalizeAllMaps(rules: seq<Rule>)
    requires NormalizeAll(rules).Some?
    ensures NormalizeAll(rules).value == Mapped(rules, NormalForm)
  {
    var rs := NormalizeAll(rules).value;
    assert forall i :: 0 <= i < |rules| ==> rs[i] == NormalForm(rules[i]);
  }

  lemma {:induction false} PermutedNormal(rules: seq<Rule>, permuted: seq<Rule>)
    requires multiset(rules) == multiset(permuted) && NormalizeAll(rules).Some?
    ensures NormalizeAll(permuted).Some?
    ensures multiset(NormalizeAll(permuted).value) == multiset(NormalizeAll(rules).value)
  {
    forall i | 0 <= i < |permuted|
      ensures Normalize(permuted[i]).Some?
    {
      var j := ElementsOf(permuted, rules, i);
    }
    MapKeepsBag(rules, permuted, NormalForm);
    NormalizeAllMaps(rules);
    NormalizeAllMaps(permuted);
  }

  /** Rules with distinct kind and value compile to the same policy from every input order,
      whatever their descriptions and however the sort treats equal keys. */
  lemma {:induction false} PermutationInvariance(b: seq<BaselineSigner>, ekus: seq<Eku>, audit: bool,
                              rules: seq<Rule>, permuted: seq<Rule>, s: seq<Rule>, t: seq<Rule>)
    requires multiset(rules) == multiset(permuted)
    requires NormalizeAll(rules).Some? && DistinctKeys(NormalizeAll(rules).value) && Arranges(s, NormalizeAll(rules).value)
    requires NormalizeAll(permuted).Some? ==> Arranges(t, NormalizeAll(permuted).value)
    ensures NormalizeAll(permuted).Some? && Emit(b, ekus, audit, s) == Emit(b, ekus, audit, t)
  {
    PermutedNormal(rules, permuted);
    var rs := NormalizeAll(rules).value;
    forall i, j | 0 <= i < |rs| && 0 <= j < |rs| && KeyOf(rs[i]) == KeyOf(rs[j])
      ensures Label(rs[i]) == Label(rs[j])
    {
      assert i < j || j < i || i == j;
    }
    forall i | 0 <= i < |rs|
      ensures IsNormal(rs[i])
    {
      NormalizeIdempotent(rules[i]);
    }
    UnambiguousIsDeterministic(b, ekus, audit, rs, s, t);
  }

  lemma {:induction false} LabelsShowThrough(b: seq<BaselineSigner>, ekus: seq<Eku>, audit: bool, x: Rule, y: Rule)
    requires BaselineOk(b, ekus) && IsNormal(x) && IsNormal(y) && KeyOf(x) == KeyOf(y) && Label(x) != Label(y)
    ensures !Deterministic(b, ekus, audit, [x, y])
  {
    var rs := [x, y];
    DeterministicIff(b, ekus, audit, rs);
    assert KeyOf(rs[0]) == KeyOf(rs[1]) && Label(rs[0]) != Label(rs[1]);
  }

  lemma {:induction false} HashRuleIsNormal(hash: string, description: string)
    requires IsHash(hash) && Trim(description) == description
    ensures IsNormal(Rule(HashKind, hash, "", description))
  {
    HashIsFixed(hash);
    TrimFixed("");
  }

  /** Two hash rules for the same file with different descriptions: the policy depends on their order. */
  lemma {:induction false} OrderShowsThrough(b: seq<BaselineSigner>, ekus: seq<Eku>, audit: bool)
    requires BaselineOk(b, ekus)
    ensures var zeros := seq(64, _ => '0');
      !Deterministic(b, ekus, audit, [Rule(HashKind, zeros, "", "a"), Rule(HashKind, zeros, "", "b")])
  {
    var zeros := seq(64, _ => '0');
    var x, y := Rule(HashKind, zeros, "", "a"), Rule(HashKind, zeros, "", "b");
    TrimFixed("a");
    TrimFixed("b");
    HashRuleIsNormal(zeros, "a");
    HashRuleIsNormal(zeros, "b");
    assert "a"[0] != "b"[0];
    LabelsShowThrough(b, ekus, audit, x, y);
  }
}
