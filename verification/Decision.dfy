/** What the kernel decision core decides: sets of hashes, path components and an
    order of precedence. */
module Decision {
  import opened Common

  const HASH_LEN := 32
  const MAX_PATH := 520

  type Hash = seq<Byte>
  type Path = seq<Byte>

  datatype Mode = Audit | Enforce
  datatype Verdict = Allow | Block | WouldBlock
  datatype Reason = NoRuleset | Self | HashRule | PublisherRule | PathMatch | NoMatch | UnknownImage

  datatype PathKind = Exact | Prefix

  datatype PathRule = PathRule(kind: PathKind, path: Path)

  datatype Rules = Rules(mode: Mode, hashes: set<Hash>, publishers: set<Hash>, paths: set<PathRule>, self: set<PathRule>)

  datatype Image = Image(sha256: Option<Hash>, signer: Option<Hash>, verified: bool, path: Path)

  // ---- Paths ---------------------------------------------------------------------------

  predicate IsSeparator(b: Byte) { b == 92 || b == 47 }

  /** The components between separators; a trailing separator opens an empty one. */
  function Split(p: Path): (parts: seq<Path>)
    ensures |parts| > 0
  {
    if p == [] then [[]]
    else
      var front, c := Split(p[..|p| - 1]), p[|p| - 1];
      if IsSeparator(c) then front + [[]]
      else front[..|front| - 1] + [front[|front| - 1] + [c]]
  }

  predicate EndsInSeparator(p: Path) { p != [] && IsSeparator(p[|p| - 1]) }

  /** The components a directory names, without the empty one after a final separator. */
  function DirectoryParts(dir: Path): seq<Path> {
    if EndsInSeparator(dir) then Split(dir)[..|Split(dir)| - 1] else Split(dir)
  }

  /** `path` is `dir` or lies beneath it: whole components agree, byte for byte. */
  predicate Beneath(dir: Path, path: Path) {
    dir <= path && DirectoryParts(dir) <= Split(path)
  }

  predicate Covers(rule: PathRule, path: Path) {
    rule.path != [] && path != [] && if rule.kind == Exact then rule.path == path else Beneath(rule.path, path)
  }

  /** The core's own test: the match must end at a separator. */
  predicate EndsAtBoundary(dir: Path, path: Path) {
    dir != [] && dir <= path && (|dir| == |path| || EndsInSeparator(dir) || IsSeparator(path[|dir|]))
  }

  /** Splitting a longer path keeps every finished component and extends the last one. */
  lemma {:induction false} SplitPrefix(p: Path, k: nat)
    requires k <= |p|
    ensures var a, b := Split(p[..k]), Split(p);
      && |a| <= |b|
      && a[..|a| - 1] == b[..|a| - 1]
      && a[|a| - 1] <= b[|a| - 1]
      && (k < |p| && !IsSeparator(p[k]) ==> |a[|a| - 1]| < |b[|a| - 1]|)
      && (k == |p| || IsSeparator(p[k]) ==> a == b[..|a|])
    decreases |p| - k
  {
    var a, b := Split(p[..k]), Split(p);
    if k == |p| {
      assert p[..k] == p;
    } else {
      SplitPrefix(p, k + 1);
      assert p[..k + 1][..k] == p[..k];
      var next := Split(p[..k + 1]);
      if IsSeparator(p[k]) {
        assert next == a + [[]];
        assert a == b[..|a|];
      } else {
        assert next[..|next| - 1] == a[..|a| - 1];
        assert |a[|a| - 1]| < |next[|a| - 1]|;
        assert next[|a| - 1][..|a[|a| - 1]|] == a[|a| - 1];
        assert a[|a| - 1] <= next[|a| - 1] <= b[|a| - 1];
      }
    }
  }

  /** The boundary test decides containment of whole components: "c:\\program files" does
      not cover "c:\\program files evil\\x.exe". */
  lemma {:induction false} BoundaryIsComponents(dir: Path, path: Path)
    requires dir != []
    ensures EndsAtBoundary(dir, path) <==> Beneath(dir, path)
  {
    if dir <= path {
      var k := |dir|;
      assert path[..k] == dir;
      SplitPrefix(path, k);
      var a, b := Split(dir), Split(path);
      if EndsInSeparator(dir) {
        assert a[..|a| - 1] == b[..|a| - 1];
      } else if EndsAtBoundary(dir, path) {
        assert a == b[..|a|];
      } else {
        assert a[|a| - 1] != b[|a| - 1];
      }
    }
  }

  // ---- The decision --------------------------------------------------------------------

  predicate HasRules(r: Rules) { r.hashes != {} || r.publishers != {} || r.paths != {} }

  predicate AnyCovers(rules: set<PathRule>, path: Path) {
    exists rule :: rule in rules && Covers(rule, path)
  }

  /** Which of the checks an image passes. */
  datatype Checks = Checks(self: bool, hash: bool, publisher: bool, path: bool, unknown: bool)

  function ChecksOf(r: Rules, i: Image): Checks {
    Checks(AnyCovers(r.self, i.path),
           i.sha256.Some? && i.sha256.value in r.hashes,
           i.verified && i.signer.Some? && i.signer.value in r.publishers,
           AnyCovers(r.paths, i.path),
           i.sha256.None? && i.signer.None? && i.path == [])
  }

  /** The order of precedence. */
  function Choose(mode: Mode, c: Checks): (Verdict, Reason) {
    if c.self then (Allow, Self)
    else if c.hash then (Allow, HashRule)
    else if c.publisher then (Allow, PublisherRule)
    else if c.path then (Allow, PathMatch)
    else (if mode == Enforce then Block else WouldBlock, if c.unknown then UnknownImage else NoMatch)
  }

  function Decide(rules: Option<Rules>, image: Option<Image>): (Verdict, Reason) {
    if rules.None? || image.None? || !HasRules(rules.value) then (Allow, NoRuleset)
    else Choose(rules.value.mode, ChecksOf(rules.value, image.value))
  }

  /** What a path rule covers, in bytes: its own path, and for a prefix rule also any longer one
      that goes on at a backslash (92) or a slash (47), which either of the two may hold. */
  lemma {:induction false} CoversMeaning(rule: PathRule, path: Path)
    ensures Covers(rule, path) <==>
            && rule.path != [] && path != []
            && (rule.path == path ||
                (rule.kind == Prefix && |rule.path| < |path| && rule.path == path[..|rule.path|] &&
                 (rule.path[|rule.path| - 1] in {92, 47} || path[|rule.path|] in {92, 47})))
  {
    if rule.path != [] {
      BoundaryIsComponents(rule.path, path);
    }
  }

  /** Which reason a decision carries. A path of the agent itself goes before a listed hash, that
      before a listed publisher, that before a path rule; a signer counts only if it is verified. */
  lemma {:induction false} ReasonLaw(r: Rules, i: Image)
    ensures var (verdict, reason) := Decide(Some(r), Some(i));
      var self, path := exists x :: x in r.self && Covers(x, i.path), exists x :: x in r.paths && Covers(x, i.path);
      var hash := exists h :: i.sha256 == Some(h) && h in r.hashes;
      var publisher := i.verified && exists h :: i.signer == Some(h) && h in r.publishers;
      && (reason == NoRuleset <==> r.hashes == {} && r.publishers == {} && r.paths == {})
      && (reason == NoRuleset ==> verdict == Allow)
      && (reason != NoRuleset ==>
            && (reason == Self <==> self)
            && (reason == HashRule <==> !self && hash)
            && (reason == PublisherRule <==> !self && !hash && publisher)
            && (reason == PathMatch <==> !self && !hash && !publisher && path)
            && (reason == UnknownImage <==> && !self && !hash && !publisher && !path
                                            && i.sha256 == None && i.signer == None && i.path == [])
            && (reason == NoMatch <==> && !self && !hash && !publisher && !path
                                       && (i.sha256 != None || i.signer != None || i.path != []))
            && (verdict == Allow <==> self || hash || publisher || path)
            && (verdict == Block ==> r.mode == Enforce) && (verdict == WouldBlock ==> r.mode == Audit))
  {
    assert AnyCovers(r.self, i.path) <==> exists x :: x in r.self && Covers(x, i.path);
    assert AnyCovers(r.paths, i.path) <==> exists x :: x in r.paths && Covers(x, i.path);
  }

  /** Without rules or without a description of the image everything runs. */
  lemma {:induction false} NothingLoaded(rules: Option<Rules>, image: Option<Image>)
    ensures rules.None? || image.None? ==> Decide(rules, image) == (Allow, NoRuleset)
  {
  }

  /** The verdict in one line: an image runs freely exactly when nothing is loaded, it is
      the agent itself, or some rule names it. */
  lemma {:induction false} AllowedIff(rules: Option<Rules>, image: Option<Image>)
    ensures Decide(rules, image).0 == Allow <==>
      || rules.None? || image.None? || !HasRules(rules.value)
      || AnyCovers(rules.value.self + rules.value.paths, image.value.path)
      || (image.value.sha256.Some? && image.value.sha256.value in rules.value.hashes)
      || (image.value.verified && image.value.signer.Some? && image.value.signer.value in rules.value.publishers)
  {
    if rules.Some? && image.Some? {
      var r, p := rules.value, image.value.path;
      if AnyCovers(r.self + r.paths, p) {
        var rule :| rule in r.self + r.paths && Covers(rule, p);
        assert rule in r.self || rule in r.paths;
      }
      if AnyCovers(r.self, p) {
        var rule :| rule in r.self && Covers(rule, p);
        assert rule in r.self + r.paths;
      }
      if AnyCovers(r.paths, p) {
        var rule :| rule in r.paths && Covers(rule, p);
        assert rule in r.self + r.paths;
      }
    }
  }

  /** Mode changes no reason, and audit reports exactly what enforce would block. */
  lemma {:induction false} ModeLaw(r: Rules, image: Option<Image>)
    ensures var audit, enforce := Decide(Some(r.(mode := Audit)), image), Decide(Some(r.(mode := Enforce)), image);
      && audit.1 == enforce.1
      && (audit.0 == WouldBlock <==> enforce.0 == Block)
      && (audit.0 == Allow <==> enforce.0 == Allow)
      && audit.0 != Block && enforce.0 != WouldBlock
  {
  }

  predicate Extends(a: Rules, b: Rules) {
    a.mode == b.mode && a.hashes <= b.hashes && a.publishers <= b.publishers && a.paths <= b.paths && a.self <= b.self
  }

  lemma {:induction false} AddingKeepsAllow(a: Rules, b: Rules, image: Option<Image>)
    requires Extends(a, b) && HasRules(a) && Decide(Some(a), image).0 == Allow
    ensures Decide(Some(b), image).0 == Allow
  {
    AllowedIff(Some(a), image);
    AllowedIff(Some(b), image);
    if image.Some? && AnyCovers(a.self + a.paths, image.value.path) {
      var rule :| rule in a.self + a.paths && Covers(rule, image.value.path);
      assert rule in b.self + b.paths;
    }
  }

  /** Hashes as a packed array of records holds them. */
  ghost predicate RecordSized(r: Rules) {
    forall h :: h in r.hashes || h in r.publishers ==> |h| == HASH_LEN
  }

  ghost predicate NeverLosesAllow(a: Rules) {
    forall b, image :: Extends(a, b) && RecordSized(b) && Decide(Some(a), image).0 == Allow ==> Decide(Some(b), image).0 == Allow
  }

  /** Adding rules never takes an allowance away, except from a ruleset that has no hash,
      publisher or path rule: that one allows everything, and any rule ends it. */
  lemma {:induction false} NeverLosesAllowIff(a: Rules)
    ensures NeverLosesAllow(a) <==> HasRules(a)
  {
    if HasRules(a) {
      forall b, image | Extends(a, b) && RecordSized(b) && Decide(Some(a), image).0 == Allow
        ensures Decide(Some(b), image).0 == Allow
      {
        AddingKeepsAllow(a, b, image);
      }
    } else {
      var hash: Hash := seq(HASH_LEN, _ => 0);
      var b := a.(hashes := {hash});
      var image := Some(Image(None, None, false, []));
      assert hash in b.hashes;
      assert HasRules(b);
      assert !AnyCovers(b.self, []) && !AnyCovers(b.paths, []);
      assert Extends(a, b) && Decide(Some(a), image).0 == Allow;
      assert Decide(Some(b), image).0 != Allow;
    }
  }
}
