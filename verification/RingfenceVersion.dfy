/** The text whose digest is a ringfence's version, and when it determines the ringfence. */
module RingfenceVersion {
  import opened Ringfence

  predicate LineSafe(s: string) {
    forall i :: 0 <= i < |s| ==> s[i] != '\n'
  }

  predicate PipeFree(s: string) {
    forall i :: 0 <= i < |s| ==> s[i] != '|'
  }

  /** What the server guarantees of a ringfence: the mode and the protections hold no line
      break, and no action holds a pipe or reads like a flag. Paths are arbitrary. */
  ghost predicate Plain(r: Fence) {
    LineSafe(r.mode) && forall i :: 0 <= i < |r.protections| ==> PlainProtection(r.protections[i])
  }

  predicate PlainProtection(p: Protection) {
    LineSafe(p.rule) && LineSafe(p.action) && PipeFree(p.action) && p.action != "true" && p.action != "false"
  }

  // ---- The text -----------------------------------------------------------------------------------

  function Flag(b: bool): string {
    if b then "true" else "false"
  }

  function ProgramLine(p: Program): string {
    "prog=" + p.path + "|" + Flag(p.blocked)
  }

  function ProtectionLine(p: Protection): string {
    "prot=" + p.rule + "|" + p.action
  }

  function ProgramLines(ps: seq<Program>): seq<string> {
    seq(|ps|, i requires 0 <= i < |ps| => ProgramLine(ps[i]))
  }

  function ProtectionLines(ps: seq<Protection>): seq<string> {
    seq(|ps|, i requires 0 <= i < |ps| => ProtectionLine(ps[i]))
  }

  function Lines(r: Fence): seq<string> {
    ["mode=" + r.mode] + ProgramLines(r.programs) + ProtectionLines(r.protections)
  }

  function Join(lines: seq<string>): string {
    if lines == [] then [] else lines[0] + "\n" + Join(lines[1..])
  }

  function VersionText(r: Fence): string {
    Join(Lines(r))
  }

  lemma {:induction false} JoinAppend(lines: seq<string>, line: string)
    ensures Join(lines + [line]) == Join(lines) + line + "\n"
  {
    if lines == [] {
      assert [line][1..] == [];
    } else {
      assert (lines + [line])[1..] == lines[1..] + [line];
      JoinAppend(lines[1..], line);
    }
  }

  lemma {:induction false} ProgramLinesAppend(lines: seq<string>, ps: seq<Program>, i: nat)
    requires i < |ps|
    ensures Join(lines + ProgramLines(ps[..i + 1])) == Join(lines + ProgramLines(ps[..i])) + ProgramLine(ps[i]) + "\n"
  {
    JoinAppend(lines + ProgramLines(ps[..i]), ProgramLine(ps[i]));
    assert ProgramLines(ps[..i + 1]) == ProgramLines(ps[..i]) + [ProgramLine(ps[i])];
    assert lines + ProgramLines(ps[..i + 1]) == lines + ProgramLines(ps[..i]) + [ProgramLine(ps[i])];
  }

  lemma {:induction false} ProtectionLinesAppend(lines: seq<string>, ps: seq<Protection>, i: nat)
    requires i < |ps|
    ensures Join(lines + ProtectionLines(ps[..i + 1])) == Join(lines + ProtectionLines(ps[..i])) + ProtectionLine(ps[i]) + "\n"
  {
    JoinAppend(lines + ProtectionLines(ps[..i]), ProtectionLine(ps[i]));
    assert ProtectionLines(ps[..i + 1]) == ProtectionLines(ps[..i]) + [ProtectionLine(ps[i])];
    assert lines + ProtectionLines(ps[..i + 1]) == lines + ProtectionLines(ps[..i]) + [ProtectionLine(ps[i])];
  }

  method WritePrograms(head: string, ps: seq<Program>, ghost lines: seq<string>) returns (text: string)
    requires head == Join(lines)
    ensures text == Join(lines + ProgramLines(ps))
  {
    text := head;
    assert lines + ProgramLines(ps[..0]) == lines;
    for i := 0 to |ps|
      invariant text == Join(lines + ProgramLines(ps[..i]))
    {
      ProgramLinesAppend(lines, ps, i);
      text := text + ("prog=" + ps[i].path + "|" + Flag(ps[i].blocked)) + "\n";
    }
    assert ps[..|ps|] == ps;
  }

  method WriteProtections(head: string, ps: seq<Protection>, ghost lines: seq<string>) returns (text: string)
    requires head == Join(lines)
    ensures text == Join(lines + ProtectionLines(ps))
  {
    text := head;
    assert lines + ProtectionLines(ps[..0]) == lines;
    for i := 0 to |ps|
      invariant text == Join(lines + ProtectionLines(ps[..i]))
    {
      ProtectionLinesAppend(lines, ps, i);
      text := text + ("prot=" + ps[i].rule + "|" + ps[i].action) + "\n";
    }
    assert ps[..|ps|] == ps;
  }

  /** Writes the text field by field. */
  method WriteVersion(r: Fence) returns (text: string)
    ensures text == VersionText(r)
  {
    var mode := "mode=" + r.mode;
    JoinAppend([], mode);
    assert [] + [mode] == [mode];
    text := WritePrograms(mode + "\n", r.programs, [mode]);
    text := WriteProtections(text, r.protections, [mode] + ProgramLines(r.programs));
  }
}
