/** Application-control rules and their normal form. */
module WdacRules {
  import opened Common
  import opened Text

  datatype Kind = HashKind | PathKind | PublisherKind | OtherKind(name: string)

  datatype Rule = Rule(kind: Kind, value: string, publisherName: string, description: string)

  function UpperChar(c: char): char {
    if 'a' <= c <= 'z' then (c as int - 32) as char else c
  }

  function Upper(s: string): (r: string)
    ensures |r| == |s| && forall i :: 0 <= i < |s| ==> r[i] == UpperChar(s[i])
  {
    if s == [] then [] else [UpperChar(s[0])] + Upper(s[1..])
  }

  predicate IsHexDigit(c: char) { '0' <= c <= '9' || 'A' <= c <= 'F' }

  /** Sixty-four upper-case hexadecimal digits. */
  predicate IsHash(s: string) {
    |s| == 64 && forall i :: 0 <= i < |s| ==> IsHexDigit(s[i])
  }

  predicate IsLetter(c: char) { 'a' <= c <= 'z' || 'A' <= c <= 'Z' }

  predicate IsPathChar(c: char) {
    c != '<' && c != '>' && c != ':' && c != '"' && c != '|' && c != '?' && c != '\n'
  }

  /** An absolute Windows path: a drive letter, a colon and a backslash. */
  predicate IsWindowsPath(s: string) {
    |s| >= 3 && IsLetter(s[0]) && s[1] == ':' && s[2] == '\\' && forall i :: 3 <= i < |s| ==> IsPathChar(s[i])
  }

  /** The path without one trailing wildcard component. */
  function WithoutWildcard(s: string): string {
    if |s| >= 2 && s[|s| - 2..] == "\\*" then s[..|s| - 2] else s
  }

  function Normalize(r: Rule): Option<Rule> {
    var value, name, description := Trim(r.value), Trim(r.publisherName), Trim(r.description);
    match r.kind
    case OtherKind(_) => None
    case PathKind => if IsWindowsPath(WithoutWildcard(value)) then Some(Rule(r.kind, value, name, description)) else None
    case _ => if IsHash(Upper(value)) then Some(Rule(r.kind, Upper(value), name, description)) else None
  }

  lemma {:induction false} HashIsFixed(s: string)
    requires IsHash(s)
    ensures Trim(s) == s && Upper(s) == s
  {
    assert IsHexDigit(s[0]) && IsHexDigit(s[|s| - 1]);
    TrimFixed(s);
    assert forall i :: 0 <= i < |s| ==> IsHexDigit(s[i]) && Upper(s)[i] == s[i];
  }

  /** Normalising twice is normalising once. */
  lemma {:induction false} NormalizeIdempotent(r: Rule)
    requires Normalize(r).Some?
    ensures Normalize(Normalize(r).value) == Normalize(r)
  {
    TrimIdempotent(r.value);
    TrimIdempotent(r.publisherName);
    TrimIdempotent(r.description);
    if r.kind == HashKind || r.kind == PublisherKind {
      HashIsFixed(Upper(Trim(r.value)));
    }
  }

  ghost predicate IsNormal(r: Rule) {
    Normalize(r) == Some(r)
  }

  /** A normal value needs no escaping in hash and publisher rules. */
  lemma {:induction false} NormalIsKnown(r: Rule)
    requires IsNormal(r)
    ensures !r.kind.OtherKind?
    ensures r.kind != PathKind ==> IsHash(r.value)
  {
    if r.kind == HashKind || r.kind == PublisherKind {
      assert IsHash(Upper(Trim(r.value)));
    }
  }

  // ---- Which rules have a normal form, by character -----------------------------------------

  /** The same character up to the case of an ASCII letter. */
  ghost predicate SameChar(c: char, d: char) {
    || c == d
    || ('a' <= c <= 'z' && c as int - 'a' as int == d as int - 'A' as int)
    || ('a' <= d <= 'z' && d as int - 'a' as int == c as int - 'A' as int)
  }

  ghost predicate SameButCase(a: string, b: string) {
    |a| == |b| && forall i :: 0 <= i < |a| ==> SameChar(a[i], b[i])
  }

  lemma {:induction false} UpperChars(c: char, d: char)
    ensures UpperChar(c) == UpperChar(d) <==> SameChar(c, d)
  {
    if UpperChar(c) == UpperChar(d) {
      assert UpperChar(c) as int == UpperChar(d) as int;
    }
  }

  /** Upper-casing identifies exactly the texts that differ in the case of ASCII letters only. */
  lemma {:induction false} UpperMeaning(a: string, b: string)
    ensures Upper(a) == Upper(b) <==> SameButCase(a, b)
  {
    if Upper(a) == Upper(b) {
      forall i | 0 <= i < |a|
        ensures SameChar(a[i], b[i])
      {
        assert Upper(a)[i] == Upper(b)[i];
        UpperChars(a[i], b[i]);
      }
    }
    if SameButCase(a, b) {
      forall i | 0 <= i < |a|
        ensures Upper(a)[i] == Upper(b)[i]
      {
        assert SameChar(a[i], b[i]);
        UpperChars(a[i], b[i]);
      }
    }
  }

  /** The value of a hexadecimal digit in either case, -1 for any other character. */
  ghost function HexValue(c: char): int {
    if '0' <= c <= '9' then c as int - '0' as int
    else if 'A' <= c <= 'F' then c as int - 'A' as int + 10
    else if 'a' <= c <= 'f' then c as int - 'a' as int + 10
    else -1
  }

  lemma {:induction false} UpperDigit(c: char)
    ensures IsHexDigit(UpperChar(c)) <==> HexValue(c) >= 0
    ensures HexValue(c) >= 0 ==> HexValue(UpperChar(c)) == HexValue(c)
  {
  }

  lemma {:induction false} UpperDigits(s: string)
    ensures IsHash(Upper(s)) <==> |s| == 64 && forall i :: 0 <= i < |s| ==> HexValue(s[i]) >= 0
    ensures forall i :: 0 <= i < |s| && HexValue(s[i]) >= 0 ==> HexValue(Upper(s)[i]) == HexValue(s[i])
  {
    forall i | 0 <= i < |s|
      ensures IsHexDigit(Upper(s)[i]) <==> HexValue(s[i]) >= 0
      ensures HexValue(s[i]) >= 0 ==> HexValue(Upper(s)[i]) == HexValue(s[i])
    {
      UpperDigit(s[i]);
    }
  }

  /** A hash or publisher rule is accepted if and only if its trimmed value is 64 hexadecimal
      digits, in either case; the normal value writes the same digits in upper case. */
  lemma {:induction false} HashNormalForm(r: Rule)
    requires r.kind == HashKind || r.kind == PublisherKind
    ensures var v := Trim(r.value);
      Normalize(r).Some? <==> |v| == 64 && forall i :: 0 <= i < |v| ==>
                                '0' <= v[i] <= '9' || 'a' <= v[i] <= 'f' || 'A' <= v[i] <= 'F'
    ensures Normalize(r).Some? ==>
              var v, n := Trim(r.value), Normalize(r).value;
              && n.kind == r.kind && n.publisherName == Trim(r.publisherName) && n.description == Trim(r.description)
              && |n.value| == 64
              && forall i :: 0 <= i < 64 ==> HexValue(n.value[i]) == HexValue(v[i]) && !('a' <= n.value[i] <= 'f')
  {
    var v := Trim(r.value);
    UpperDigits(v);
    if Normalize(r).Some? {
      assert forall i :: 0 <= i < 64 ==> HexValue(v[i]) >= 0 && IsHexDigit(Upper(v)[i]);
    }
  }

  /** Two accepted values have the same normal value if and only if they differ in the case of
      letters only. */
  lemma {:induction false} HashNormalFormsAgree(r: Rule, q: Rule)
    requires r.kind == HashKind || r.kind == PublisherKind
    requires q.kind == HashKind || q.kind == PublisherKind
    requires Normalize(r).Some?
    ensures SameButCase(Trim(r.value), Trim(q.value)) <==>
            Normalize(q).Some? && Normalize(q).value.value == Normalize(r).value.value
  {
    UpperMeaning(Trim(r.value), Trim(q.value));
  }

  /** A value in upper case is its own normal value. */
  lemma {:induction false} UpperIsNormal(r: Rule)
    requires (r.kind == HashKind || r.kind == PublisherKind) && Normalize(r).Some?
    requires var v := Trim(r.value); forall i :: 0 <= i < |v| ==> !('a' <= v[i] <= 'f')
    ensures Normalize(r).value.value == Trim(r.value)
  {
    var v := Trim(r.value);
    UpperDigits(v);
    assert forall i :: 0 <= i < |v| ==> Upper(v)[i] == v[i];
  }

  lemma {:induction false} WildcardIs(v: string, path: string, wildcard: bool)
    requires v == if wildcard then path + ['\\', '*'] else path
    requires !wildcard && |path| >= 2 ==> !(path[|path| - 2] == '\\' && path[|path| - 1] == '*')
    ensures WithoutWildcard(v) == path
  {
    if |v| >= 2 {
      assert v[|v| - 2..] == [v[|v| - 2], v[|v| - 1]];
    }
  }

  lemma {:induction false} WindowsPathIs(path: string)
    ensures IsWindowsPath(path) <==>
            && |path| >= 3 && ('a' <= path[0] <= 'z' || 'A' <= path[0] <= 'Z') && path[1] == ':' && path[2] == '\\'
            && forall i :: 3 <= i < |path| ==> path[i] !in "<>:\"|?\n"
  {
    forall i | 3 <= i < |path|
      ensures IsPathChar(path[i]) <==> path[i] !in "<>:\"|?\n"
    {
      ForbiddenChars(path[i]);
    }
  }

  /** A path rule is accepted if and only if its trimmed value, without one trailing `\*`, is a
      drive letter, `:\` and characters other than the forbidden ones; the normal value is the
      trimmed value. */
  lemma {:induction false} PathNormalForm(r: Rule, path: string, wildcard: bool)
    requires r.kind == PathKind && Trim(r.value) == (if wildcard then path + ['\\', '*'] else path)
    requires !wildcard && |path| >= 2 ==> !(path[|path| - 2] == '\\' && path[|path| - 1] == '*')
    ensures Normalize(r).Some? <==>
            && |path| >= 3 && ('a' <= path[0] <= 'z' || 'A' <= path[0] <= 'Z') && path[1] == ':' && path[2] == '\\'
            && forall i :: 3 <= i < |path| ==> path[i] !in "<>:\"|?\n"
    ensures Normalize(r).Some? ==>
              Normalize(r).value == Rule(PathKind, Trim(r.value), Trim(r.publisherName), Trim(r.description))
  {
    WildcardIs(Trim(r.value), path, wildcard);
    WindowsPathIs(path);
  }

  lemma {:induction false} ForbiddenChars(c: char)
    ensures IsPathChar(c) <==> c !in "<>:\"|?\n"
  {
    var s := "<>:\"|?\n";
    assert s[0] == '<' && s[1] == '>' && s[2] == ':' && s[3] == '"' && s[4] == '|' && s[5] == '?' && s[6] == '\n';
  }

  /** A rule of any other kind has no normal form. */
  lemma {:induction false} OtherKindsRefused(r: Rule)
    ensures r.kind != HashKind && r.kind != PathKind && r.kind != PublisherKind ==> Normalize(r) == None
  {
  }

  // ---- The order in which rules are emitted ---------------------------------------------------

  datatype Key = Key(rank: nat, value: string)

  /** The kinds are compared as the strings "hash", "path" and "publisher". */
  function KeyOf(r: Rule): Key {
    Key(match r.kind case HashKind => 0 case PathKind => 1 case PublisherKind => 2 case OtherKind(_) => 3, r.value)
  }

  predicate KeyLess(a: Key, b: Key) {
    a.rank < b.rank || (a.rank == b.rank && StrLess(a.value, b.value))
  }

  /** Hash rules come before path rules, those before publisher rules, and rules of one kind
      stand in the order of their values. */
  lemma {:induction false} RuleOrder(a: Rule, b: Rule)
    requires !a.kind.OtherKind? && !b.kind.OtherKind?
    ensures KeyLess(KeyOf(a), KeyOf(b)) <==>
            || (a.kind == HashKind && b.kind != HashKind)
            || (a.kind == PathKind && b.kind == PublisherKind)
            || (a.kind == b.kind && StrLess(a.value, b.value))
  {
  }

  lemma {:induction false} KeyOrder(a: Key, b: Key)
    ensures KeyLess(a, b) || a == b || KeyLess(b, a)
    ensures !(KeyLess(a, b) && (a == b || KeyLess(b, a)))
  {
    StrLessTotal(a.value, b.value);
    StrLessIrreflexive(a.value);
    if StrLess(a.value, b.value) && StrLess(b.value, a.value) {
      StrLessTransitive(a.value, b.value, a.value);
    }
  }

  lemma {:induction false} KeyLessTransitive(a: Key, b: Key, c: Key)
    requires !KeyLess(b, a) && !KeyLess(c, b)
    ensures !KeyLess(c, a)
  {
    KeyOrder(a, b);
    KeyOrder(b, c);
    KeyOrder(a, c);
    if KeyLess(c, a) && a.rank == b.rank == c.rank && a != b && b != c {
      StrLessTransitive(a.value, b.value, c.value);
    }
  }

  ghost predicate SortedKeys(ks: seq<Key>) {
    forall i, j :: 0 <= i < j < |ks| ==> !KeyLess(ks[j], ks[i])
  }

  function Keys(rs: seq<Rule>): seq<Key> {
    seq(|rs|, i requires 0 <= i < |rs| => KeyOf(rs[i]))
  }

  /** One possible result of the unstable sort: the same rules, ordered by key. */
  ghost predicate Arranges(sorted: seq<Rule>, rs: seq<Rule>) {
    multiset(sorted) == multiset(rs) && SortedKeys(Keys(sorted))
  }

  method SortRules(rs: seq<Rule>) returns (sorted: seq<Rule>)
    ensures Arranges(sorted, rs)
  {
    sorted := [];
    for n := 0 to |rs|
      invariant Arranges(sorted, rs[..n])
    {
      assert rs[..n + 1] == rs[..n] + [rs[n]];
      var at := 0;
      while at < |sorted| && !KeyLess(KeyOf(rs[n]), KeyOf(sorted[at]))
        invariant 0 <= at <= |sorted|
        invariant at > 0 ==> !KeyLess(KeyOf(rs[n]), KeyOf(sorted[at - 1]))
      {
        at := at + 1;
      }
      InsertKeepsOrder(sorted, at, rs[n]);
      sorted := sorted[..at] + [rs[n]] + sorted[at..];
    }
    assert rs[..|rs|] == rs;
  }

  lemma {:induction false} InsertKeepsOrder(s: seq<Rule>, at: nat, r: Rule)
    requires SortedKeys(Keys(s)) && at <= |s|
    requires at > 0 ==> !KeyLess(KeyOf(r), KeyOf(s[at - 1]))
    requires at < |s| ==> KeyLess(KeyOf(r), KeyOf(s[at]))
    ensures SortedKeys(Keys(s[..at] + [r] + s[at..]))
    ensures multiset(s[..at] + [r] + s[at..]) == multiset(s) + multiset{r}
  {
    var t := s[..at] + [r] + s[at..];
    forall i, j | 0 <= i < j < |t|
      ensures !KeyLess(Keys(t)[j], Keys(t)[i])
    {
      PairInOrder(s, at, r, i, j);
    }
    assert s == s[..at] + s[at..];
  }

  lemma {:induction false} PairInOrder(s: seq<Rule>, at: nat, r: Rule, i: nat, j: nat)
    requires SortedKeys(Keys(s)) && at <= |s| && i < j <= |s|
    requires at > 0 ==> !KeyLess(KeyOf(r), KeyOf(s[at - 1]))
    requires at < |s| ==> KeyLess(KeyOf(r), KeyOf(s[at]))
    ensures var t := s[..at] + [r] + s[at..]; !KeyLess(KeyOf(t[j]), KeyOf(t[i]))
  {
    if i == at {
      AboveInserted(s, at, r, j - 1);
    } else if j == at {
      BelowInserted(s, at, r, i);
    } else {
      var x, y := if i < at then i else i - 1, if j < at then j else j - 1;
      assert !KeyLess(Keys(s)[y], Keys(s)[x]);
    }
  }

  lemma {:induction false} AboveInserted(s: seq<Rule>, at: nat, r: Rule, y: nat)
    requires SortedKeys(Keys(s)) && at <= y < |s| && KeyLess(KeyOf(r), KeyOf(s[at]))
    ensures !KeyLess(KeyOf(s[y]), KeyOf(r))
  {
    KeyOrder(KeyOf(r), KeyOf(s[at]));
    KeyOrder(KeyOf(s[at]), KeyOf(s[at]));
    assert y == at || !KeyLess(Keys(s)[y], Keys(s)[at]);
    KeyLessTransitive(KeyOf(r), KeyOf(s[at]), KeyOf(s[y]));
  }

  lemma {:induction false} BelowInserted(s: seq<Rule>, at: nat, r: Rule, x: nat)
    requires SortedKeys(Keys(s)) && x < at <= |s| && !KeyLess(KeyOf(r), KeyOf(s[at - 1]))
    ensures !KeyLess(KeyOf(r), KeyOf(s[x]))
  {
    KeyOrder(KeyOf(s[x]), KeyOf(s[x]));
    assert x == at - 1 || !KeyLess(Keys(s)[at - 1], Keys(s)[x]);
    KeyLessTransitive(KeyOf(s[x]), KeyOf(s[at - 1]), KeyOf(r));
  }
}
