/** What can be read back from a ringfence's version text. */
module RingfenceDecoding {
  import opened Ringfence
  import opened RingfenceVersion

  // ---- Separators ---------------------------------------------------------------------------------

  /** Two texts that agree up to the first occurrence of a separator. */
  lemma {:induction false} FirstSplit(a: string, b: string, x: string, y: string, c: char)
    requires a + [c] + x == b + [c] + y
    requires (forall i :: 0 <= i < |a| ==> a[i] != c) && (forall i :: 0 <= i < |b| ==> b[i] != c)
    ensures a == b && x == y
  {
    var s := a + [c] + x;
    assert s[|a|] == c && s[|b|] == c;
    assert forall i :: 0 <= i < |a| ==> s[i] == a[i];
    assert forall i :: 0 <= i < |b| ==> s[i] == b[i];
    assert |a| == |b|;
    assert a == s[..|a|] && b == s[..|b|];
    assert x == s[|a| + 1..] && y == s[|b| + 1..];
  }

  lemma {:induction false} LastIndex(a: string, b: string, x: string, y: string, c: char)
    requires a + [c] + x == b + [c] + y && forall i :: 0 <= i < |x| ==> x[i] != c
    ensures |b| <= |a|
  {
    var s := a + [c] + x;
    assert s[|b|] == c;
    assert forall i :: |a| < i < |s| ==> s[i] == x[i - |a| - 1];
  }

  lemma {:induction false} LastSplit(a: string, b: string, x: string, y: string, c: char)
    requires a + [c] + x == b + [c] + y
    requires (forall i :: 0 <= i < |x| ==> x[i] != c) && (forall i :: 0 <= i < |y| ==> y[i] != c)
    ensures a == b && x == y
  {
    LastIndex(a, b, x, y, c);
    LastIndex(b, a, y, x, c);
    var s := a + [c] + x;
    assert a == s[..|a|] && b == s[..|b|];
    assert x == s[|a| + 1..] && y == s[|b| + 1..];
  }

  lemma {:induction false} JoinInjective(a: seq<string>, b: seq<string>)
    requires (forall i :: 0 <= i < |a| ==> LineSafe(a[i])) && (forall i :: 0 <= i < |b| ==> LineSafe(b[i]))
    requires Join(a) == Join(b)
    ensures a == b
  {
    if a == [] || b == [] {
      assert a != [] ==> |Join(a)| > 0;
      assert b != [] ==> |Join(b)| > 0;
    } else {
      assert LineSafe(a[0]) && LineSafe(b[0]);
      FirstSplit(a[0], b[0], Join(a[1..]), Join(b[1..]), '\n');
      JoinInjective(a[1..], b[1..]);
      assert a == [a[0]] + a[1..] && b == [b[0]] + b[1..];
    }
  }

  lemma {:induction false} ProgramLineInjective(p: Program, q: Program)
    requires ProgramLine(p) == ProgramLine(q)
    ensures p == q
  {
    assert "prog=" + p.path + "|" + Flag(p.blocked) == "prog=" + p.path + ['|'] + Flag(p.blocked);
    assert "prog=" + q.path + "|" + Flag(q.blocked) == "prog=" + q.path + ['|'] + Flag(q.blocked);
    LastSplit("prog=" + p.path, "prog=" + q.path, Flag(p.blocked), Flag(q.blocked), '|');
    assert ("prog=" + p.path)[5..] == p.path && ("prog=" + q.path)[5..] == q.path;
    assert "true"[0] == 't' && "false"[0] == 'f';
  }

  lemma {:induction false} ProtectionLineInjective(p: Protection, q: Protection)
    requires PipeFree(p.action) && PipeFree(q.action) && ProtectionLine(p) == ProtectionLine(q)
    ensures p == q
  {
    assert "prot=" + p.rule + "|" + p.action == "prot=" + p.rule + ['|'] + p.action;
    assert "prot=" + q.rule + "|" + q.action == "prot=" + q.rule + ['|'] + q.action;
    LastSplit("prot=" + p.rule, "prot=" + q.rule, p.action, q.action, '|');
    assert ("prot=" + p.rule)[5..] == p.rule && ("prot=" + q.rule)[5..] == q.rule;
  }

  lemma {:induction false} ConcatSafe(a: string, b: string)
    requires LineSafe(a) && LineSafe(b)
    ensures LineSafe(a + b)
  {
  }

  lemma {:induction false} SameProtections(ps: seq<Protection>, qs: seq<Protection>)
    requires ProtectionLines(ps) == ProtectionLines(qs)
    requires forall i :: 0 <= i < |ps| ==> PipeFree(ps[i].action)
    requires forall i :: 0 <= i < |qs| ==> PipeFree(qs[i].action)
    ensures ps == qs
  {
    assert |ps| == |ProtectionLines(ps)| == |qs|;
    forall i | 0 <= i < |ps|
      ensures ps[i] == qs[i]
    {
      assert ProtectionLines(ps)[i] == ProtectionLines(qs)[i];
      ProtectionLineInjective(ps[i], qs[i]);
    }
  }

  // ---- The text in parts --------------------------------------------------------------------------

  lemma {:induction false} JoinConcat(a: seq<string>, b: seq<string>)
    ensures Join(a + b) == Join(a) + Join(b)
  {
    if a == [] {
      assert a + b == b;
    } else {
      assert (a + b)[1..] == a[1..] + b;
      JoinConcat(a[1..], b);
    }
  }

  function ProgramsText(ps: seq<Program>): string {
    Join(ProgramLines(ps))
  }

  function ProtectionsText(ps: seq<Protection>): string {
    Join(ProtectionLines(ps))
  }

  /** The text behind the mode. */
  function Body(ps: seq<Program>, ts: seq<Protection>): string {
    ProgramsText(ps) + ProtectionsText(ts)
  }

  lemma {:induction false} TextIsModeAndBody(r: Fence)
    ensures VersionText(r) == "mode=" + r.mode + "\n" + Body(r.programs, r.protections)
  {
    JoinHead("mode=" + r.mode, ProgramLines(r.programs), ProtectionLines(r.protections));
  }

  lemma {:induction false} JoinHead(h: string, a: seq<string>, b: seq<string>)
    ensures Join([h] + a + b) == h + "\n" + (Join(a) + Join(b))
  {
    JoinConcat(a, b);
    var all := [h] + a + b;
    assert all[0] == h && all[1..] == a + b;
  }

  lemma {:induction false} SameModeAndBody(r: Fence, q: Fence)
    requires LineSafe(r.mode) && LineSafe(q.mode)
    ensures VersionText(r) == VersionText(q) <==>
            (r.mode == q.mode && Body(r.programs, r.protections) == Body(q.programs, q.protections))
  {
    TextIsModeAndBody(r);
    TextIsModeAndBody(q);
    if VersionText(r) == VersionText(q) {
      ConcatSafe("mode=", r.mode);
      ConcatSafe("mode=", q.mode);
      FirstSplit("mode=" + r.mode, "mode=" + q.mode, Body(r.programs, r.protections), Body(q.programs, q.protections), '\n');
      assert ("mode=" + r.mode)[5..] == r.mode && ("mode=" + q.mode)[5..] == q.mode;
    }
  }

  lemma {:induction false} ProgramsTextStep(ps: seq<Program>)
    requires ps != []
    ensures ProgramsText(ps) == ProgramLine(ps[0]) + "\n" + ProgramsText(ps[1..])
  {
    assert ProgramLines(ps)[1..] == ProgramLines(ps[1..]);
  }

  /** One program, and what follows it. */
  lemma {:induction false} BodyStep(ps: seq<Program>, ts: seq<Protection>)
    requires ps != []
    ensures Body(ps, ts) == ProgramLine(ps[0]) + "\n" + Body(ps[1..], ts)
  {
    ProgramsTextStep(ps);
    Regroup(ProgramLine(ps[0]), ProgramsText(ps[1..]), ProtectionsText(ts));
  }

  lemma {:induction false} Regroup(a: string, b: string, c: string)
    ensures a + "\n" + b + c == a + "\n" + (b + c)
  {
  }

  /** A body with a program starts like a program, and one without does not. */
  lemma {:induction false} BodyStart(ps: seq<Program>, ts: seq<Protection>)
    ensures ps != [] ==> |Body(ps, ts)| >= 5 && Body(ps, ts)[..5] == "prog="
    ensures ps == [] && |Body(ps, ts)| >= 5 ==> Body(ps, ts)[..5] == "prot="
    ensures ps == [] && Body(ps, ts) != [] ==> |Body(ps, ts)| >= 5
    ensures ps == [] ==> Body(ps, ts) == ProtectionsText(ts)
  {
    if ps != [] {
      BodyStep(ps, ts);
      var line := ProgramLine(ps[0]);
      assert line[..5] == "prog=";
      assert (line + "\n" + Body(ps[1..], ts))[..5] == line[..5];
    } else {
      assert Body(ps, ts) == ProtectionsText(ts);
      if ts != [] {
        var line := ProtectionLine(ts[0]);
        assert line[..5] == "prot=";
        assert ProtectionsText(ts) == line + "\n" + Join(ProtectionLines(ts)[1..]);
        assert ProtectionsText(ts)[..5] == line[..5];
      }
    }
  }

  // ---- Seams ----------------------------------------------------------------------------------------

  /** The end of one program's entry and the start of the next. */
  function Seam(flag: bool): string {
    "|" + Flag(flag) + "\n" + "prog="
  }

  ghost predicate SeamAt(path: string, k: nat, flag: bool) {
    k + |Seam(flag)| <= |path| && path[k..k + |Seam(flag)|] == Seam(flag)
  }

  /** The path reads like two programs. */
  ghost predicate HasSeam(path: string) {
    exists k: nat, flag :: SeamAt(path, k, flag)
  }

  ghost predicate Seamless(ps: seq<Program>) {
    forall i :: 0 <= i < |ps| ==> !HasSeam(ps[i].path)
  }

  lemma {:induction false} SeamSplits(path: string, y: string, flag: bool, z: string)
    requires path == y + Seam(flag) + z
    ensures SeamAt(path, |y|, flag) && HasSeam(path)
  {
    assert path[|y|..|y| + |Seam(flag)|] == Seam(flag);
    assert SeamAt(path, |y|, flag);
  }

  // ---- Where one reading is longer than another --------------------------------------------------------

  /** If a text of whole lines is cut at some line feed, the part before it ends with a line. */
  lemma {:induction false} CutEndsWithLine(lines: seq<string>, w: string, rest: string) returns (u: string, i: nat)
    requires (forall k :: 0 <= k < |lines| ==> LineSafe(lines[k])) && Join(lines) == w + "\n" + rest
    ensures i < |lines| && w == u + lines[i]
  {
    var line, tail := lines[0], Join(lines[1..]);
    var s := w + "\n" + rest;
    assert LineSafe(line);
    assert s == line + "\n" + tail && s[|w|] == '\n' && s[|line|] == '\n';
    assert forall k :: 0 <= k < |line| ==> s[k] == line[k];
    assert |line| <= |w|;
    if |line| == |w| {
      assert w == s[..|w|] == line;
      u, i := "", 0;
    } else {
      var w' := w[|line| + 1..];
      assert w[..|line|] == s[..|line|] == line && w[|line|] == '\n';
      assert w == line + "\n" + w';
      assert tail == s[|line| + 1..] == w' + "\n" + rest;
      var u', j := CutEndsWithLine(lines[1..], w', rest);
      u, i := line + "\n" + u', j + 1;
    }
  }

  lemma {:induction false} ProtectionLinesSafe(ts: seq<Protection>)
    requires forall i :: 0 <= i < |ts| ==> PlainProtection(ts[i])
    ensures forall i :: 0 <= i < |ts| ==> LineSafe(ProtectionLines(ts)[i])
  {
    forall i | 0 <= i < |ts|
      ensures LineSafe(ProtectionLine(ts[i]))
    {
      assert PlainProtection(ts[i]);
      ConcatSafe("prot=", ts[i].rule);
      ConcatSafe("prot=" + ts[i].rule, "|");
      ConcatSafe("prot=" + ts[i].rule + "|", ts[i].action);
    }
  }

  /** No cut of the protections' text ends like a program. */
  lemma {:induction false} ProtectionsHaveNoFlag(ts: seq<Protection>, z: string, flag: bool, rest: string)
    requires forall i :: 0 <= i < |ts| ==> PlainProtection(ts[i])
    ensures ProtectionsText(ts) != z + "|" + Flag(flag) + "\n" + rest
  {
    if ProtectionsText(ts) == z + "|" + Flag(flag) + "\n" + rest {
      ProtectionLinesSafe(ts);
      var u, i := CutEndsWithLine(ProtectionLines(ts), z + "|" + Flag(flag), rest);
      assert PlainProtection(ts[i]);
      var head := u + ("prot=" + ts[i].rule);
      assert u + ProtectionLines(ts)[i] == head + "|" + ts[i].action;
      assert z + "|" + Flag(flag) == z + ['|'] + Flag(flag) && head + "|" + ts[i].action == head + ['|'] + ts[i].action;
      LastSplit(z, head, Flag(flag), ts[i].action, '|');
      assert false;
    }
  }

  lemma {:induction false} Overlap(a: string, b: string, one: string, two: string)
    requires a + "\n" + one == b + "\n" + two && |a| > |b|
    ensures a[..|b|] == b && a[|b|] == '\n' && two == a[|b| + 1..] + "\n" + one
  {
    var s := a + "\n" + one;
    assert s[..|b|] == b && s[|b|] == '\n' && s[|b| + 1..] == two;
    assert a[..|b|] == s[..|b|] && a[|b|] == s[|b|];
    assert s[|b| + 1..] == a[|b| + 1..] + "\n" + one;
  }

  lemma {:induction false} BreakIsInMiddle(h: string, x: string, t: string, n: nat)
    requires |h| <= n < |h + x + t| && (h + x + t)[n] == '\n' && LineSafe(t)
    ensures var a, m := h + x + t, n - |h|;
      m < |x| && x[m] == '\n' && a[|h|..n] == x[..m] && a[n + 1..] == x[m + 1..] + t && x == x[..m] + "\n" + x[m + 1..]
  {
    var a, m := h + x + t, n - |h|;
    assert forall i :: |h| + |x| <= i < |a| ==> a[i] == t[i - |h| - |x|];
    assert a[n] == x[m];
    assert x == x[..m] + [x[m]] + x[m + 1..];
  }

  lemma {:induction false} TailAsOne(a: string, f: string)
    ensures a + "|" + f == a + ("|" + f)
  {
  }

  lemma {:induction false} LineWithoutLabel(q: Program)
    ensures |ProgramLine(q)| >= 5 && ProgramLine(q)[5..] == q.path + "|" + Flag(q.blocked)
  {
    var rest := q.path + "|" + Flag(q.blocked);
    LabelAndRest("prog=", q.path, Flag(q.blocked));
    assert ("prog=" + rest)[5..] == rest;
  }

  lemma {:induction false} LabelAndRest(h: string, x: string, f: string)
    ensures h + x + "|" + f == h + (x + "|" + f)
  {
  }

  lemma {:induction false} FlagSafe(flag: bool)
    ensures LineSafe("|" + Flag(flag))
  {
  }

  /** The longer of two entries that start the same text holds a line break where the
      shorter one ends. */
  lemma {:induction false} LongerEntry(p: Program, q: Program, one: string, two: string) returns (z: string)
    requires ProgramLine(p) + "\n" + one == ProgramLine(q) + "\n" + two && |ProgramLine(p)| > |ProgramLine(q)|
    ensures p.path == q.path + "|" + Flag(q.blocked) + "\n" + z
    ensures two == z + "|" + Flag(p.blocked) + "\n" + one
  {
    var a, b := ProgramLine(p), ProgramLine(q);
    var n, t := |b|, "|" + Flag(p.blocked);
    Overlap(a, b, one, two);
    TailAsOne("prog=" + p.path, Flag(p.blocked));
    FlagSafe(p.blocked);
    BreakIsInMiddle("prog=", p.path, t, n);
    z := p.path[n - 5 + 1..];
    LineWithoutLabel(q);
    assert a[5..n] == b[5..];
    TailAsOne(z, Flag(p.blocked));
  }

  lemma {:induction false} SeamGroup(y: string, f: string, h: string, z: string)
    ensures y + "|" + f + "\n" + (h + z) == y + ("|" + f + "\n" + h) + z
  {
  }

  /** So the longer entry's path has a seam there, and the other reading goes on with a program. */
  lemma {:induction false} LongerPathHasSeam(p: Program, q: Program, ps: seq<Program>, ts: seq<Protection>,
                                             qs: seq<Program>, us: seq<Protection>) returns (z: string)
    requires forall i :: 0 <= i < |us| ==> PlainProtection(us[i])
    requires ProgramLine(p) + "\n" + Body(ps, ts) == ProgramLine(q) + "\n" + Body(qs, us)
    requires |ProgramLine(p)| > |ProgramLine(q)|
    ensures p.path == q.path + Seam(q.blocked) + z && HasSeam(p.path) && qs != []
    ensures Body(qs, us) == ProgramLine(Program(z, p.blocked)) + "\n" + Body(ps, ts)
  {
    var w := LongerEntry(p, q, Body(ps, ts), Body(qs, us));
    BodyStart(qs, us);
    if qs == [] {
      ProtectionsHaveNoFlag(us, w, p.blocked, Body(ps, ts));
      assert false;
    }
    z := StartsWithProgram(w, p.blocked, Body(ps, ts), Body(qs, us));
    SeamGroup(q.path, Flag(q.blocked), "prog=", z);
    SeamSplits(p.path, q.path, q.blocked, z);
  }

  lemma {:induction false} StartsWithProgram(w: string, flag: bool, rest: string, body: string) returns (z: string)
    requires body == w + "|" + Flag(flag) + "\n" + rest && |body| >= 5 && body[..5] == "prog="
    ensures w == "prog=" + z
  {
    assert body[|w|] == '|';
    assert forall i :: 0 <= i < 5 ==> body[i] == "prog="[i] && body[i] != '|';
    assert w[..5] == body[..5];
    z := w[5..];
  }

  // ---- When the text determines the ringfence -------------------------------------------------------------

  lemma {:induction false} SameLengthSameEntry(p: Program, q: Program, one: string, two: string)
    requires ProgramLine(p) + "\n" + one == ProgramLine(q) + "\n" + two && |ProgramLine(p)| == |ProgramLine(q)|
    ensures p == q && one == two
  {
    var s := ProgramLine(p) + "\n" + one;
    assert ProgramLine(p) == s[..|ProgramLine(p)|] && ProgramLine(q) == s[..|ProgramLine(q)|];
    assert one == s[|ProgramLine(p)| + 1..] && two == s[|ProgramLine(q)| + 1..];
    ProgramLineInjective(p, q);
  }

  /** Bodies without programs have the same protections. */
  lemma {:induction false} SameProtectionsText(ts: seq<Protection>, us: seq<Protection>)
    requires forall i :: 0 <= i < |ts| ==> PlainProtection(ts[i])
    requires forall i :: 0 <= i < |us| ==> PlainProtection(us[i])
    requires ProtectionsText(ts) == ProtectionsText(us)
    ensures ts == us
  {
    ProtectionLinesSafe(ts);
    ProtectionLinesSafe(us);
    JoinInjective(ProtectionLines(ts), ProtectionLines(us));
    assert forall i :: 0 <= i < |ts| ==> PlainProtection(ts[i]) && PipeFree(ts[i].action);
    assert forall i :: 0 <= i < |us| ==> PlainProtection(us[i]) && PipeFree(us[i].action);
    SameProtections(ts, us);
  }

  lemma {:induction false} BothOrNeitherHavePrograms(ps: seq<Program>, ts: seq<Protection>, qs: seq<Program>, us: seq<Protection>)
    requires Body(ps, ts) == Body(qs, us)
    ensures ps == [] <==> qs == []
  {
    BodyStart(ps, ts);
    BodyStart(qs, us);
    assert "prog="[3] != "prot="[3];
  }

  /** Two seamless readings of a body are one. */
  lemma {:induction false} SeamlessIsUnique(ps: seq<Program>, ts: seq<Protection>, qs: seq<Program>, us: seq<Protection>)
    requires forall i :: 0 <= i < |ts| ==> PlainProtection(ts[i])
    requires forall i :: 0 <= i < |us| ==> PlainProtection(us[i])
    requires Body(ps, ts) == Body(qs, us) && Seamless(ps) && Seamless(qs)
    ensures ps == qs && ts == us
    decreases |ps|
  {
    BothOrNeitherHavePrograms(ps, ts, qs, us);
    if ps == [] {
      BodyStart(ps, ts);
      BodyStart(qs, us);
      SameProtectionsText(ts, us);
    } else {
      var p, q := ps[0], qs[0];
      BodyStep(ps, ts);
      BodyStep(qs, us);
      assert !HasSeam(p.path) && !HasSeam(q.path);
      SameEntryLength(p, q, ps[1..], ts, qs[1..], us);
      SameLengthSameEntry(p, q, Body(ps[1..], ts), Body(qs[1..], us));
      SeamlessIsUnique(ps[1..], ts, qs[1..], us);
      assert ps == [p] + ps[1..] && qs == [q] + qs[1..];
    }
  }

  lemma {:induction false} SameEntryLength(p: Program, q: Program, ps: seq<Program>, ts: seq<Protection>, qs: seq<Program>, us: seq<Protection>)
    requires forall i :: 0 <= i < |ts| ==> PlainProtection(ts[i])
    requires forall i :: 0 <= i < |us| ==> PlainProtection(us[i])
    requires ProgramLine(p) + "\n" + Body(ps, ts) == ProgramLine(q) + "\n" + Body(qs, us)
    requires !HasSeam(p.path) && !HasSeam(q.path)
    ensures |ProgramLine(p)| == |ProgramLine(q)|
  {
    if |ProgramLine(p)| > |ProgramLine(q)| {
      var z := LongerPathHasSeam(p, q, ps, ts, qs, us);
    } else if |ProgramLine(q)| > |ProgramLine(p)| {
      var z := LongerPathHasSeam(q, p, qs, us, ps, ts);
    }
  }

  /** Ringfences without seams in their paths have the same text exactly when they have the
      same content, line breaks or not. */
  lemma {:induction false} VersionTextDetermines(r: Fence, q: Fence)
    requires Plain(r) && Plain(q) && Seamless(r.programs) && Seamless(q.programs)
    ensures VersionText(r) == VersionText(q) <==>
            (r.mode == q.mode && r.programs == q.programs && r.protections == q.protections)
  {
    SameModeAndBody(r, q);
    if VersionText(r) == VersionText(q) {
      SeamlessIsUnique(r.programs, r.protections, q.programs, q.protections);
    }
  }

  // ---- When it does not ------------------------------------------------------------------------------------

  /** A reading with more programs finds a seam in some path of the reading with fewer. */
  lemma {:induction false} MoreProgramsNeedSeam(ps: seq<Program>, ts: seq<Protection>, qs: seq<Program>, us: seq<Protection>)
    requires forall i :: 0 <= i < |ts| ==> PlainProtection(ts[i])
    requires forall i :: 0 <= i < |us| ==> PlainProtection(us[i])
    requires Body(ps, ts) == Body(qs, us) && |qs| > |ps|
    ensures !Seamless(ps)
    decreases |ps|
  {
    BothOrNeitherHavePrograms(ps, ts, qs, us);
    var p, q := ps[0], qs[0];
    BodyStep(ps, ts);
    BodyStep(qs, us);
    if |ProgramLine(p)| > |ProgramLine(q)| {
      var z := LongerPathHasSeam(p, q, ps[1..], ts, qs[1..], us);
      assert HasSeam(ps[0].path);
    } else {
      var more: seq<Program>;
      if |ProgramLine(p)| == |ProgramLine(q)| {
        SameLengthSameEntry(p, q, Body(ps[1..], ts), Body(qs[1..], us));
        more := qs[1..];
      } else {
        var z := LongerPathHasSeam(q, p, qs[1..], us, ps[1..], ts);
        more := [Program(z, q.blocked)] + qs[1..];
        BodyStep(more, us);
        assert more[1..] == qs[1..];
      }
      MoreProgramsNeedSeam(ps[1..], ts, more, us);
      var i :| 0 <= i < |ps[1..]| && HasSeam(ps[1..][i].path);
      assert HasSeam(ps[i + 1].path);
    }
  }

  /** Cutting a path at a seam gives a ringfence with one more program and the same text. */
  function Cut(r: Fence, i: nat, k: nat, flag: bool): Fence
    requires i < |r.programs| && k + |Seam(flag)| <= |r.programs[i].path|
  {
    var p := r.programs[i];
    r.(programs := r.programs[..i] + [Program(p.path[..k], flag), Program(p.path[k + |Seam(flag)|..], p.blocked)] + r.programs[i + 1..])
  }

  lemma {:induction false} Glue(h: string, y: string, f: string, z: string, g: string)
    ensures h + (y + ("|" + f + "\n" + h) + z) + "|" + g == (h + y + "|" + f) + "\n" + (h + z + "|" + g)
  {
  }

  lemma {:induction false} CutLine(p: Program, k: nat, flag: bool)
    requires SeamAt(p.path, k, flag)
    ensures ProgramLine(p) == ProgramLine(Program(p.path[..k], flag)) + "\n" + ProgramLine(Program(p.path[k + |Seam(flag)|..], p.blocked))
  {
    var y, z := p.path[..k], p.path[k + |Seam(flag)|..];
    assert p.path == y + Seam(flag) + z;
    Glue("prog=", y, Flag(flag), z, Flag(p.blocked));
  }

  lemma {:induction false} ProgramsTextConcat(a: seq<Program>, b: seq<Program>)
    ensures ProgramsText(a + b) == ProgramsText(a) + ProgramsText(b)
  {
    assert ProgramLines(a + b) == ProgramLines(a) + ProgramLines(b);
    JoinConcat(ProgramLines(a), ProgramLines(b));
  }

  lemma {:induction false} TwoPrograms(p: Program, q: Program)
    ensures ProgramsText([p, q]) == ProgramLine(p) + "\n" + ProgramLine(q) + "\n"
    ensures ProgramsText([p]) == ProgramLine(p) + "\n"
  {
    ProgramsTextStep([p, q]);
    ProgramsTextStep([q]);
    ProgramsTextStep([p]);
    assert [p, q][1..] == [q] && [q][1..] == [] && [p][1..] == [];
  }

  lemma {:induction false} CutKeepsText(r: Fence, i: nat, k: nat, flag: bool)
    requires i < |r.programs| && SeamAt(r.programs[i].path, k, flag)
    ensures VersionText(Cut(r, i, k, flag)) == VersionText(r) && |Cut(r, i, k, flag).programs| == |r.programs| + 1
  {
    var ps, p := r.programs, r.programs[i];
    var y, z := Program(p.path[..k], flag), Program(p.path[k + |Seam(flag)|..], p.blocked);
    CutLine(p, k, flag);
    TwoPrograms(y, z);
    TwoPrograms(p, p);
    assert ProgramsText([y, z]) == ProgramsText([p]);
    ProgramsTextConcat(ps[..i] + [p], ps[i + 1..]);
    ProgramsTextConcat(ps[..i], [p]);
    ProgramsTextConcat(ps[..i] + [y, z], ps[i + 1..]);
    ProgramsTextConcat(ps[..i], [y, z]);
    assert ps == ps[..i] + [p] + ps[i + 1..];
    TextIsModeAndBody(r);
    TextIsModeAndBody(Cut(r, i, k, flag));
  }

  /** The text is also that of a ringfence with more programs if and only if some path,
      anywhere in the list, has a seam. */
  lemma {:induction false} CollidesIff(r: Fence)
    requires Plain(r)
    ensures !Seamless(r.programs) <==>
            exists q :: Plain(q) && VersionText(q) == VersionText(r) && |q.programs| > |r.programs|
  {
    if i :| 0 <= i < |r.programs| && HasSeam(r.programs[i].path) {
      var k: nat, flag :| SeamAt(r.programs[i].path, k, flag);
      CutKeepsText(r, i, k, flag);
      assert Plain(Cut(r, i, k, flag));
    }
    if q :| Plain(q) && VersionText(q) == VersionText(r) && |q.programs| > |r.programs| {
      SameModeAndBody(q, r);
      MoreProgramsNeedSeam(r.programs, r.protections, q.programs, q.protections);
    }
  }

  lemma {:induction false} ProgramsFitText(ps: seq<Program>)
    ensures |ps| <= |ProgramsText(ps)|
  {
    if ps != [] {
      ProgramsTextStep(ps);
      ProgramsFitText(ps[1..]);
    }
  }

  /** Every text has exactly one seamless reading: cutting at seams ends in it. */
  lemma {:induction false} SeamlessReading(r: Fence) returns (q: Fence)
    requires Plain(r)
    ensures Plain(q) && Seamless(q.programs) && VersionText(q) == VersionText(r)
    ensures forall other :: Plain(other) && Seamless(other.programs) && VersionText(other) == VersionText(r) ==>
              other.mode == q.mode && other.programs == q.programs && other.protections == q.protections
    decreases |VersionText(r)| - |r.programs|
  {
    if Seamless(r.programs) {
      q := r;
      forall other | Plain(other) && Seamless(other.programs) && VersionText(other) == VersionText(r)
        ensures other.mode == q.mode && other.programs == q.programs && other.protections == q.protections
      {
        VersionTextDetermines(other, r);
      }
    } else {
      var i :| 0 <= i < |r.programs| && HasSeam(r.programs[i].path);
      var k: nat, flag :| SeamAt(r.programs[i].path, k, flag);
      CutKeepsText(r, i, k, flag);
      var cut := Cut(r, i, k, flag);
      TextIsModeAndBody(cut);
      ProgramsFitText(cut.programs);
      q := SeamlessReading(cut);
    }
  }
}
