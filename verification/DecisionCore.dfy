/** The kernel decision core as written: byte loops and a binary search over packed
    records, with 32-bit offsets, on constant memory owned by the caller. */
module DecisionCore {
  import opened Common
  import opened Decision

  /** Offsets are 32-bit: `index * HASH_LEN` wraps here. */
  const WRAP := 0x1_0000_0000
  const WRAP_RECORDS := 0x800_0000

  const MODE_AUDIT := 0
  const MODE_ENFORCE := 1
  const KIND_EXACT := 0
  const KIND_PREFIX := 1

  type Uint = n: int | 0 <= n < WRAP

  /** A null pointer is `None`; the length belongs to the pointer. */
  datatype RawRule = RawRule(kind: int, path: Option<Path>)

  datatype Ruleset = Ruleset(mode: int,
                             hashes: Option<seq<Byte>>, hashCount: Uint,
                             publishers: Option<seq<Byte>>, publisherCount: Uint,
                             paths: Option<seq<RawRule>>, pathCount: Uint,
                             self: Option<seq<RawRule>>, selfCount: Uint)

  datatype Request = Request(sha256: Option<seq<Byte>>, signer: Option<seq<Byte>>, verified: bool, path: Option<Path>)

  // ---- Byte order ------------------------------------------------------------------------

  /** Lexicographic order of two byte strings of the same length. */
  predicate Less(a: seq<Byte>, b: seq<Byte>)
    requires |a| == |b|
  {
    a != [] && (a[0] < b[0] || (a[0] == b[0] && Less(a[1..], b[1..])))
  }

  lemma {:induction false} LessAt(a: seq<Byte>, b: seq<Byte>, k: nat)
    requires |a| == |b| && k < |a| && a[..k] == b[..k] && a[k] < b[k]
    ensures Less(a, b)
  {
    if k > 0 {
      assert a[0] == a[..k][0] && b[0] == b[..k][0];
      assert a[1..][..k - 1] == a[..k][1..] && b[1..][..k - 1] == b[..k][1..];
      LessAt(a[1..], b[1..], k - 1);
    }
  }

  lemma {:induction false} LessIsIrreflexive(a: seq<Byte>)
    ensures !Less(a, a)
  {
    if a != [] {
      LessIsIrreflexive(a[1..]);
    }
  }

  lemma {:induction false} LessIsTransitive(a: seq<Byte>, b: seq<Byte>, c: seq<Byte>)
    requires |a| == |b| == |c| && Less(a, b) && Less(b, c)
    ensures Less(a, c)
  {
    if a[0] == b[0] == c[0] {
      LessIsTransitive(a[1..], b[1..], c[1..]);
    }
  }

  lemma {:induction false} LessIsAsymmetric(a: seq<Byte>, b: seq<Byte>)
    requires |a| == |b| && Less(a, b)
    ensures !Less(b, a) && a != b
  {
    if Less(b, a) {
      LessIsTransitive(a, b, a);
    }
    LessIsIrreflexive(a);
  }

  method BytesCmp(a: seq<Byte>, from: nat, b: seq<Byte>, at: nat, n: nat) returns (c: int)
    requires from + n <= |a| && at + n <= |b|
    ensures var x, y := a[from..from + n], b[at..at + n];
      && (c == 0 <==> x == y)
      && (c < 0 <==> Less(x, y))
      && (c > 0 <==> Less(y, x))
  {
    ghost var x, y := a[from..from + n], b[at..at + n];
    for i := 0 to n
      invariant x[..i] == y[..i]
    {
      if a[from + i] != b[at + i] {
        assert a[from + i] == x[i] && b[at + i] == y[i];
        if a[from + i] < b[at + i] {
          LessAt(x, y, i);
          LessIsAsymmetric(x, y);
          return -1;
        } else {
          LessAt(y, x, i);
          LessIsAsymmetric(y, x);
          return 1;
        }
      }
      assert x[..i + 1] == x[..i] + [x[i]] && y[..i + 1] == y[..i] + [y[i]];
    }
    assert x[..n] == x && y[..n] == y;
    LessIsIrreflexive(x);
    c := 0;
  }

  // ---- Packed records --------------------------------------------------------------------

  ghost function Record(s: seq<Byte>, i: nat): Hash
    requires (i + 1) * HASH_LEN <= |s|
  {
    s[i * HASH_LEN..(i + 1) * HASH_LEN]
  }

  ghost predicate Holds(s: seq<Byte>, count: nat) { count * HASH_LEN <= |s| }

  ghost predicate Contains(s: seq<Byte>, count: nat, needle: Hash)
    requires Holds(s, count)
  {
    exists i :: 0 <= i < count && Record(s, i) == needle
  }

  /** Neighbouring records are strictly ascending. */
  ghost predicate Ascending(s: seq<Byte>, count: nat)
    requires Holds(s, count)
  {
    forall i :: 0 < i < count ==> Less(Record(s, i - 1), Record(s, i))
  }

  lemma {:induction false} AscendingOrder(s: seq<Byte>, count: nat, i: nat, j: nat)
    requires Holds(s, count) && Ascending(s, count) && i < j < count
    ensures Less(Record(s, i), Record(s, j))
    decreases j - i
  {
    if i + 1 < j {
      AscendingOrder(s, count, i, j - 1);
      LessIsTransitive(Record(s, i), Record(s, j - 1), Record(s, j));
    }
  }

  /** The record that a 32-bit offset reaches. */
  lemma {:induction false} WrappedOffset(i: nat)
    ensures (i * HASH_LEN) % WRAP == (i % WRAP_RECORDS) * HASH_LEN
    ensures i < WRAP_RECORDS ==> i % WRAP_RECORDS == i
  {
    var q, r := i / WRAP_RECORDS, i % WRAP_RECORDS;
    assert i * HASH_LEN == q * WRAP + r * HASH_LEN;
    assert (r * HASH_LEN + q * WRAP) % WRAP == r * HASH_LEN;
  }

  /** Compares the record that a 32-bit offset reaches with the key. */
  method CompareAt(s: seq<Byte>, count: Uint, mid: nat, key: Hash) returns (c: int)
    requires Holds(s, count) && mid < count && |key| == HASH_LEN
    ensures mid % WRAP_RECORDS <= mid && (mid < WRAP_RECORDS ==> mid % WRAP_RECORDS == mid)
    ensures c == 0 <==> Record(s, mid % WRAP_RECORDS) == key
    ensures c < 0 <==> Less(Record(s, mid % WRAP_RECORDS), key)
    ensures c > 0 <==> Less(key, Record(s, mid % WRAP_RECORDS))
  {
    var off := (mid * HASH_LEN) % WRAP;
    WrappedOffset(mid);
    c := BytesCmp(s, off, key, 0, HASH_LEN);
    assert s[off..off + HASH_LEN] == Record(s, mid % WRAP_RECORDS) && key[0..HASH_LEN] == key;
  }

  /** Once offsets wrap, no probe reaches the last record, and none sends the search past it. */
  lemma {:induction false} LastIsMissed(s: seq<Byte>, count: nat, mid: nat)
    requires Holds(s, count) && Ascending(s, count) && count > WRAP_RECORDS && mid < count
    ensures mid % WRAP_RECORDS < count - 1 && Record(s, mid % WRAP_RECORDS) != Record(s, count - 1)
  {
    var k := mid % WRAP_RECORDS;
    AscendingOrder(s, count, k, count - 1);
    LessIsAsymmetric(Record(s, k), Record(s, count - 1));
  }

  /** Binary search. What it finds is there. Over ascending records it finds everything as
      long as no offset wraps, and misses the last record as soon as one can. */
  method HashPresent(sorted: Option<seq<Byte>>, count: Uint, needle: Option<seq<Byte>>) returns (present: bool)
    requires sorted.Some? ==> Holds(sorted.value, count)
    requires needle.Some? ==> |needle.value| == HASH_LEN
    ensures sorted.None? || needle.None? ==> !present
    ensures present ==> Contains(sorted.value, count, needle.value)
    ensures sorted.Some? && needle.Some? && Ascending(sorted.value, count) && count <= WRAP_RECORDS ==>
              (present <==> Contains(sorted.value, count, needle.value))
    ensures sorted.Some? && needle.Some? && Ascending(sorted.value, count) && count > WRAP_RECORDS ==>
              (needle.value == Record(sorted.value, count - 1) ==> !present)
  {
    var lo, hi := 0, count;
    if sorted == None || needle == None || count == 0 {
      return false;
    }
    var s, key := sorted.value, needle.value;
    ghost var exact := Ascending(s, count) && count <= WRAP_RECORDS;
    ghost var missed := Ascending(s, count) && count > WRAP_RECORDS && key == Record(s, count - 1);
    while lo < hi
      invariant 0 <= lo <= hi <= count
      invariant exact ==> forall i :: 0 <= i < count && !(lo <= i < hi) ==> Record(s, i) != key
    {
      var mid := lo + (hi - lo) / 2;
      var c := CompareAt(s, count, mid, key);
      if missed {
        LastIsMissed(s, count, mid);
      }
      if c == 0 {
        return true;
      }
      if c < 0 {
        if exact {
          BelowIsLess(s, count, mid, key);
        }
        lo := mid + 1;
      } else {
        if exact {
          AboveIsGreater(s, count, mid, key);
        }
        hi := mid;
      }
    }
    present := false;
  }

  lemma {:induction false} BelowIsLess(s: seq<Byte>, count: nat, mid: nat, key: Hash)
    requires Holds(s, count) && Ascending(s, count) && mid < count && |key| == HASH_LEN && Less(Record(s, mid), key)
    ensures forall i :: 0 <= i <= mid ==> Record(s, i) != key
  {
    forall i | 0 <= i <= mid
      ensures Record(s, i) != key
    {
      if i < mid {
        AscendingOrder(s, count, i, mid);
        LessIsTransitive(Record(s, i), Record(s, mid), key);
      }
      LessIsAsymmetric(Record(s, i), key);
    }
  }

  lemma {:induction false} AboveIsGreater(s: seq<Byte>, count: nat, mid: nat, key: Hash)
    requires Holds(s, count) && Ascending(s, count) && mid < count && |key| == HASH_LEN && Less(key, Record(s, mid))
    ensures forall i :: mid <= i < count ==> Record(s, i) != key
  {
    forall i | mid <= i < count
      ensures Record(s, i) != key
    {
      if mid < i {
        AscendingOrder(s, count, mid, i);
        LessIsTransitive(key, Record(s, mid), Record(s, i));
      }
      LessIsAsymmetric(key, Record(s, i));
    }
  }

  // ---- Validation ------------------------------------------------------------------------

  /** Accepts exactly the strictly ascending arrays whose offsets do not wrap: the first
      wrapped comparison sets the last record against the first one and fails. */
  method SortedRecords(a: Option<seq<Byte>>, count: Uint) returns (ok: bool)
    requires if a.None? then count == 0 else Holds(a.value, count)
    ensures ok <==> a.None? || (Ascending(a.value, count) && count <= WRAP_RECORDS)
  {
    if count < 2 {
      return true;
    }
    var s := a.value;
    var i := 1;
    while i < count
      invariant 1 <= i <= count && i <= WRAP_RECORDS
      invariant forall j :: 0 < j < i ==> Less(Record(s, j - 1), Record(s, j))
    {
      var c := CompareNeighbours(s, count, i);
      if i == WRAP_RECORDS {
        WrappedNeighbourFails(s, i);
      }
      if c >= 0 {
        return false;
      }
      i := i + 1;
    }
    ok := true;
  }

  /** Compares record `i - 1` with the record that the next offset reaches. */
  method CompareNeighbours(s: seq<Byte>, count: Uint, i: nat) returns (c: int)
    requires Holds(s, count) && 1 <= i < count && i <= WRAP_RECORDS
    ensures c < 0 <==> Less(Record(s, i - 1), Record(s, i % WRAP_RECORDS))
  {
    var x, y := ((i - 1) * HASH_LEN) % WRAP, (i * HASH_LEN) % WRAP;
    WrappedOffset(i - 1);
    WrappedOffset(i);
    assert s[x..x + HASH_LEN] == Record(s, i - 1);
    assert s[y..y + HASH_LEN] == Record(s, i % WRAP_RECORDS);
    c := BytesCmp(s, x, s, y, HASH_LEN);
  }

  lemma {:induction false} WrappedNeighbourFails(s: seq<Byte>, i: nat)
    requires i == WRAP_RECORDS && Holds(s, i) && forall j :: 0 < j < i ==> Less(Record(s, j - 1), Record(s, j))
    ensures !Less(Record(s, i - 1), Record(s, i % WRAP_RECORDS))
  {
    assert Ascending(s, i);
    AscendingOrder(s, i, 0, i - 1);
    LessIsAsymmetric(Record(s, 0), Record(s, i - 1));
  }

  predicate RuleOk(r: RawRule) {
    && r.path.Some? && 0 < |r.path.value| <= MAX_PATH
    && (r.kind == KIND_EXACT || r.kind == KIND_PREFIX)
  }

  ghost predicate PathsOk(rules: Option<seq<RawRule>>, count: Uint)
    requires rules.Some? ==> count <= |rules.value|
  {
    count == 0 || (rules.Some? && forall i :: 0 <= i < count ==> RuleOk(rules.value[i]))
  }

  method PathsValid(rules: Option<seq<RawRule>>, count: Uint) returns (ok: bool)
    requires rules.Some? ==> count <= |rules.value|
    ensures ok <==> PathsOk(rules, count)
    ensures ok <==> count == 0 ||
                    (rules.Some? && forall i :: 0 <= i < count ==>
                       var path := rules.value[i].path;
                       path.Some? && 1 <= |path.value| <= 520 && (rules.value[i].kind == 0 || rules.value[i].kind == 1))
  {
    if count == 0 {
      return true;
    }
    if rules == None {
      return false;
    }
    for i := 0 to count
      invariant forall j :: 0 <= j < i ==> RuleOk(rules.value[j])
    {
      var rule := rules.value[i];
      if rule.path == None || |rule.path.value| == 0 || |rule.path.value| > MAX_PATH {
        return false;
      }
      if rule.kind != KIND_EXACT && rule.kind != KIND_PREFIX {
        return false;
      }
    }
    ok := true;
  }

  /** What the caller guarantees about the memory it passes. */
  ghost predicate Readable(rs: Ruleset) {
    && (rs.hashes.Some? ==> Holds(rs.hashes.value, rs.hashCount))
    && (rs.publishers.Some? ==> Holds(rs.publishers.value, rs.publisherCount))
    && (rs.paths.Some? ==> rs.pathCount <= |rs.paths.value|)
    && (rs.self.Some? ==> rs.selfCount <= |rs.self.value|)
  }

  ghost predicate RecordsOk(a: Option<seq<Byte>>, count: Uint)
    requires a.Some? ==> Holds(a.value, count)
  {
    if a.None? then count == 0 else Ascending(a.value, count) && count <= WRAP_RECORDS
  }

  /** A well-formed ruleset; sorted arrays alone bound the counts. */
  ghost predicate WellFormed(rs: Ruleset)
    requires Readable(rs)
  {
    && (rs.mode == MODE_AUDIT || rs.mode == MODE_ENFORCE)
    && RecordsOk(rs.hashes, rs.hashCount) && RecordsOk(rs.publishers, rs.publisherCount)
    && PathsOk(rs.paths, rs.pathCount) && PathsOk(rs.self, rs.selfCount)
  }

  method RulesetValid(rs: Ruleset) returns (ok: bool)
    requires Readable(rs)
    ensures ok <==> WellFormed(rs)
  {
    if rs.mode != MODE_AUDIT && rs.mode != MODE_ENFORCE {
      return false;
    }
    if rs.hashCount != 0 && rs.hashes == None {
      return false;
    }
    if rs.publisherCount != 0 && rs.publishers == None {
      return false;
    }
    var hashes := SortedRecords(rs.hashes, rs.hashCount);
    if !hashes {
      return false;
    }
    var publishers := SortedRecords(rs.publishers, rs.publisherCount);
    if !publishers {
      return false;
    }
    var paths := PathsValid(rs.paths, rs.pathCount);
    if !paths {
      return false;
    }
    ok := PathsValid(rs.self, rs.selfCount);
  }

  // ---- Path rules ------------------------------------------------------------------------

  method BytesEq(a: Path, b: Path, n: nat) returns (eq: bool)
    requires n <= |a| && n <= |b|
    ensures eq <==> a[..n] == b[..n]
  {
    for i := 0 to n
      invariant a[..i] == b[..i]
    {
      if a[i] != b[i] {
        assert a[..n][i] != b[..n][i];
        return false;
      }
      assert a[..i + 1] == a[..i] + [a[i]] && b[..i + 1] == b[..i] + [b[i]];
    }
    eq := true;
  }

  function RuleOf(r: RawRule): PathRule
    requires RuleOk(r)
  {
    PathRule(if r.kind == KIND_EXACT then Exact else Prefix, r.path.value)
  }

  function PathOf(p: Option<Path>): Path { if p.Some? then p.value else [] }

  method PathMatches(rule: RawRule, path: Option<Path>) returns (m: bool)
    ensures m <==> rule.path.Some? && path.Some? && path.value != [] &&
                   if rule.kind == 0 then rule.path.value == path.value else EndsAtBoundary(rule.path.value, path.value)
    ensures RuleOk(rule) ==> (m <==> Covers(RuleOf(rule), PathOf(path)))
  {
    if rule.path == None || rule.path.value == [] || path == None || path.value == [] {
      return false;
    }
    var r, p := rule.path.value, path.value;
    BoundaryIsComponents(r, p);
    assert r[..|r|] == r && p[..|p|] == p;
    if rule.kind == KIND_EXACT {
      if |r| != |p| {
        return false;
      }
      m := BytesEq(r, p, |p|);
      return;
    }
    if |r| > |p| {
      return false;
    }
    var same := BytesEq(r, p, |r|);
    if !same {
      return false;
    }
    if |r| == |p| {
      return true;
    }
    if r[|r| - 1] == 92 || r[|r| - 1] == 47 {
      return true;
    }
    m := p[|r|] == 92 || p[|r|] == 47;
  }

  /** The rules of an array as a set. */
  ghost function RuleSet(rules: Option<seq<RawRule>>, count: Uint): set<PathRule>
    requires rules.Some? ==> count <= |rules.value|
  {
    if rules.None? then {} else set i | 0 <= i < count && RuleOk(rules.value[i]) :: RuleOf(rules.value[i])
  }

  method AnyPathMatches(rules: Option<seq<RawRule>>, count: Uint, path: Option<Path>) returns (m: bool)
    requires rules.Some? ==> count <= |rules.value|
    ensures PathsOk(rules, count) ==> (m <==> AnyCovers(RuleSet(rules, count), PathOf(path)))
  {
    if rules == None {
      return false;
    }
    for i := 0 to count
      invariant PathsOk(rules, count) ==> forall j :: 0 <= j < i ==> !Covers(RuleOf(rules.value[j]), PathOf(path))
    {
      var hit := PathMatches(rules.value[i], path);
      if hit {
        if PathsOk(rules, count) {
          assert RuleOf(rules.value[i]) in RuleSet(rules, count);
        }
        return true;
      }
    }
    m := false;
  }

  // ---- The decision ----------------------------------------------------------------------

  ghost function HashSet(a: Option<seq<Byte>>, count: Uint): set<Hash>
    requires a.Some? ==> Holds(a.value, count)
  {
    if a.None? then {} else set i | 0 <= i < count :: Record(a.value, i)
  }

  /** A lookup that may lack its key. */
  method Listed(a: Option<seq<Byte>>, count: Uint, key: Option<seq<Byte>>) returns (listed: bool)
    requires a.Some? ==> Holds(a.value, count)
    requires key.Some? ==> |key.value| == HASH_LEN
    ensures RecordsOk(a, count) ==> (listed <==> key.Some? && key.value in HashSet(a, count))
  {
    listed := HashPresent(a, count, key);
    if listed {
      ghost var i :| 0 <= i < count && Record(a.value, i) == key.value;
      assert Record(a.value, i) in HashSet(a, count);
    }
  }

  ghost function RulesOf(rs: Ruleset): Rules
    requires Readable(rs)
  {
    Rules(if rs.mode == MODE_ENFORCE then Enforce else Audit,
          HashSet(rs.hashes, rs.hashCount), HashSet(rs.publishers, rs.publisherCount),
          RuleSet(rs.paths, rs.pathCount), RuleSet(rs.self, rs.selfCount))
  }

  function ImageOf(req: Request): Image {
    Image(req.sha256, req.signer, req.verified, PathOf(req.path))
  }

  lemma {:induction false} EmptyCounts(rs: Ruleset)
    requires Readable(rs) && WellFormed(rs)
    ensures HasRules(RulesOf(rs)) <==> rs.hashCount != 0 || rs.publisherCount != 0 || rs.pathCount != 0
  {
    if rs.hashCount != 0 {
      assert Record(rs.hashes.value, 0) in HashSet(rs.hashes, rs.hashCount);
    }
    if rs.publisherCount != 0 {
      assert Record(rs.publishers.value, 0) in HashSet(rs.publishers, rs.publisherCount);
    }
    if rs.pathCount != 0 {
      assert RuleOf(rs.paths.value[0]) in RuleSet(rs.paths, rs.pathCount);
    }
  }

  method SelfCheck(r: Ruleset, q: Request) returns (hit: bool)
    requires Readable(r)
    ensures WellFormed(r) ==> hit == ChecksOf(RulesOf(r), ImageOf(q)).self
  {
    hit := AnyPathMatches(r.self, r.selfCount, q.path);
  }

  method HashCheck(r: Ruleset, q: Request) returns (hit: bool)
    requires Readable(r) && (q.sha256.Some? ==> |q.sha256.value| == HASH_LEN)
    ensures WellFormed(r) ==> hit == ChecksOf(RulesOf(r), ImageOf(q)).hash
  {
    hit := Listed(r.hashes, r.hashCount, q.sha256);
  }

  method PublisherCheck(r: Ruleset, q: Request) returns (hit: bool)
    requires Readable(r) && (q.signer.Some? ==> |q.signer.value| == HASH_LEN)
    ensures WellFormed(r) ==> hit == ChecksOf(RulesOf(r), ImageOf(q)).publisher
  {
    hit := false;
    if q.verified {
      hit := Listed(r.publishers, r.publisherCount, q.signer);
    }
  }

  method PathCheck(r: Ruleset, q: Request) returns (hit: bool)
    requires Readable(r)
    ensures WellFormed(r) ==> hit == ChecksOf(RulesOf(r), ImageOf(q)).path
  {
    hit := AnyPathMatches(r.paths, r.pathCount, q.path);
  }

  /** Runs the checks in order and stops at the first that holds; later ones read false. */
  method Check(r: Ruleset, q: Request) returns (c: Checks)
    requires Readable(r)
    requires q.sha256.Some? ==> |q.sha256.value| == HASH_LEN
    requires q.signer.Some? ==> |q.signer.value| == HASH_LEN
    ensures WellFormed(r) ==> SameChoice(c, ChecksOf(RulesOf(r), ImageOf(q)))
  {
    var hash, publisher, path := false, false, false;
    var self := SelfCheck(r, q);
    if !self {
      hash := HashCheck(r, q);
      if !hash {
        publisher := PublisherCheck(r, q);
        if !publisher {
          path := PathCheck(r, q);
        }
      }
    }
    c := Checks(self, hash, publisher, path, q.sha256 == None && q.signer == None && (q.path == None || q.path.value == []));
  }

  /** Two results of the checks with the same first success. */
  predicate SameChoice(a: Checks, b: Checks) {
    && a.self == b.self
    && (!b.self ==> a.hash == b.hash)
    && (!b.self && !b.hash ==> a.publisher == b.publisher)
    && (!b.self && !b.hash && !b.publisher ==> a.path == b.path && a.unknown == b.unknown)
  }

  /** For a well-formed ruleset the core decides as the simple specification does, with the
      same reason; without one, or without a request, it allows. */
  method FlDecide(rs: Option<Ruleset>, req: Option<Request>) returns (verdict: Verdict, why: Reason)
    requires rs.Some? ==> Readable(rs.value)
    requires req.Some? ==> (req.value.sha256.Some? ==> |req.value.sha256.value| == HASH_LEN) &&
                           (req.value.signer.Some? ==> |req.value.signer.value| == HASH_LEN)
    ensures rs.None? || req.None? ==> (verdict, why) == Decide(None, None)
    ensures rs.Some? && req.Some? && WellFormed(rs.value) ==>
              (verdict, why) == Decide(Some(RulesOf(rs.value)), Some(ImageOf(req.value)))
    ensures rs.Some? && rs.value.mode != 1 ==> verdict != Block
    ensures rs.Some? && rs.value.mode == 1 ==> verdict != WouldBlock
  {
    if rs == None || req == None {
      return Allow, NoRuleset;
    }
    var r := rs.value;
    if WellFormed(r) {
      EmptyCounts(r);
    }
    if r.hashCount == 0 && r.publisherCount == 0 && r.pathCount == 0 {
      return Allow, NoRuleset;
    }
    var c := Check(r, req.value);
    var chosen := Choose(if r.mode == MODE_ENFORCE then Enforce else Audit, c);
    verdict, why := chosen.0, chosen.1;
  }
}
