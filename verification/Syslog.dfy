/** Syslog records in the CEF and RFC 5424 formats, and what a receiver reads from them. */
module Syslog {
  import opened Common
  import opened Text

  /** Detail values are given as printed, the time and the tenant as their fixed-alphabet texts. */
  datatype Event = Event(kind: string, tenant: string, title: string, body: string, detail: map<string, string>, at: string)

  datatype Pair = Pair(key: string, value: string)

  const FACILITY := 13

  const APP_NAME := "freelocker"

  function Severity(kind: string): nat {
    if kind == "alert.raised" || kind == "rollout.auto_paused" then 4 else if kind == "approval.new" then 5 else 6
  }

  function CefSeverity(kind: string): nat {
    if Severity(kind) == 4 then 6 else if Severity(kind) == 5 then 4 else 3
  }

  predicate IsBreak(c: char) {
    c == '\r' || c == '\n'
  }

  predicate OneLine(s: string) {
    forall i :: 0 <= i < |s| ==> !IsBreak(s[i])
  }

  /** Line breaks become blanks. */
  function Scrub(s: string): (r: string)
    ensures |r| == |s| && OneLine(r) && forall i :: 0 <= i < |s| ==> r[i] == if IsBreak(s[i]) then ' ' else s[i]
  {
    seq(|s|, i requires 0 <= i < |s| => if IsBreak(s[i]) then ' ' else s[i])
  }

  function EscChar(x: char, c: char): string {
    if x == '\\' || x == c then ['\\', x] else [x]
  }

  /** Backslash and the delimiter get a backslash in front. */
  function Esc(s: string, c: char): string {
    if s == [] then [] else EscChar(s[0], c) + Esc(s[1..], c)
  }

  function EscapeHeader(s: string): string {
    Esc(Scrub(s), '|')
  }

  function EscapeValue(s: string): string {
    Esc(Scrub(s), '=')
  }

  // ---- The CEF record -------------------------------------------------------------------------------

  function Field(text: string, rest: string): string {
    text + "|" + rest
  }

  /** Each field followed by a pipe. */
  function Header(e: Event): string {
    Field("CEF:0", Field("FreeLocker", Field("FreeLocker", Field("1",
      Field(EscapeHeader(e.kind), Field(EscapeHeader(e.title), Field(Decimal(CefSeverity(e.kind)), "")))))))
  }

  function PairText(p: Pair): string {
    Esc(p.key, '=') + "=" + Esc(p.value, '=')
  }

  function JoinPairs(ps: seq<Pair>): string {
    if ps == [] then [] else if |ps| == 1 then PairText(ps[0]) else PairText(ps[0]) + " " + JoinPairs(ps[1..])
  }

  function FixedPairs(e: Event): seq<Pair> {
    [Pair("rt", Scrub(e.at)), Pair("msg", Scrub(e.body)), Pair("cs1Label", "tenant"), Pair("cs1", Scrub(e.tenant))]
  }

  function DetailPairs(e: Event, keys: seq<string>): seq<Pair>
    requires forall k :: k in keys ==> k in e.detail
  {
    seq(|keys|, i requires 0 <= i < |keys| => Pair(Scrub(keys[i]), Scrub(e.detail[keys[i]])))
  }

  /** The extension's pairs in order: four fixed ones, then the details by sorted key. */
  function Pairs(e: Event, keys: seq<string>): seq<Pair>
    requires forall k :: k in keys ==> k in e.detail
  {
    FixedPairs(e) + DetailPairs(e, keys)
  }

  function CefPart(e: Event, keys: seq<string>): string
    requires forall k :: k in keys ==> k in e.detail
  {
    Header(e) + JoinPairs(Pairs(e, keys))
  }

  function Priority(e: Event): string {
    "<" + Decimal(FACILITY * 8 + Severity(e.kind)) + ">"
  }

  function Cef(e: Event, hostname: string, keys: seq<string>): string
    requires forall k :: k in keys ==> k in e.detail
  {
    Priority(e) + e.at + " " + hostname + " " + APP_NAME + " " + CefPart(e, keys)
  }

  /** The keys of the details in ascending order. */
  ghost predicate AreSortedKeys(keys: seq<string>, e: Event) {
    && (forall k :: k in keys <==> k in e.detail)
    && (forall i, j :: 0 <= i < j < |keys| ==> StrLess(keys[i], keys[j]))
  }

  // ---- The RFC 5424 record -----------------------------------------------------------------------------

  function Message(e: Event, detail: string): string {
    Scrub(e.title) + (if e.body != "" then " — " + Scrub(e.body) else "") + Scrub(detail)
  }

  /** `detail` is the encoded detail with a blank in front, or empty. */
  function Rfc5424(e: Event, hostname: string, pid: nat, detail: string): string {
    Priority(e) + "1 " + e.at + " " + hostname + " " + APP_NAME + " " + Decimal(pid) + " " + Scrub(e.kind) + " " +
    ("[freelocker@0 tenant=\"" + e.tenant + "\" event=\"" + Scrub(e.kind) + "\"]") + " " + Message(e, detail)
  }

  // ---- A receiver ---------------------------------------------------------------------------------------

  datatype Token = Token(text: string, rest: Option<string>)

  /** Up to the first unescaped delimiter, with the escapes undone. */
  function ReadUntil(s: string, c: char): Token {
    if s == [] then Token([], None)
    else if s[0] == c then Token([], Some(s[1..]))
    else if s[0] == '\\' && |s| > 1 then
      var t := ReadUntil(s[2..], c);
      Token([s[1]] + t.text, t.rest)
    else
      var t := ReadUntil(s[1..], c);
      Token([s[0]] + t.text, t.rest)
  }

  datatype Fields = Fields(values: seq<string>, rest: string)

  /** The first `n` fields and what follows them. */
  function ReadFields(s: string, n: nat): Option<Fields>
    decreases n
  {
    if n == 0 then Some(Fields([], s))
    else
      var t := ReadUntil(s, '|');
      if t.rest.None? then None
      else
        var more := ReadFields(t.rest.value, n - 1);
        if more.None? then None else Some(Fields([t.text] + more.value.values, more.value.rest))
  }

  /** The number of unescaped delimiters. */
  function Unescaped(s: string, c: char): nat {
    if s == [] then 0
    else if s[0] == '\\' && |s| > 1 then Unescaped(s[2..], c)
    else (if s[0] == c then 1 else 0) + Unescaped(s[1..], c)
  }

  predicate BlankFree(s: string) {
    forall i :: 0 <= i < |s| ==> s[i] != ' '
  }

  /** The last word. */
  function LastWord(s: string): (w: string)
    ensures BlankFree(w) && |w| <= |s|
  {
    if s == [] || s[|s| - 1] == ' ' then "" else LastWord(s[..|s| - 1]) + [s[|s| - 1]]
  }

  /** What stands before the blank that sets off the last word. */
  function BeforeLastWord(s: string): string {
    var n := |s| - |LastWord(s)| - 1;
    if n < 0 then "" else s[..n]
  }

  /** Reads the value of `key` and the pairs after it; a key is the last word before its sign. */
  function ReadPairs(key: string, s: string): seq<Pair>
    decreases |s|
  {
    var t := ReadUntil(s, '=');
    RestIsShorter(s, '=');
    if t.rest.None? then [Pair(key, t.text)]
    else [Pair(key, BeforeLastWord(t.text))] + ReadPairs(LastWord(t.text), t.rest.value)
  }

  /** The pairs of an extension. */
  function ReadExtension(s: string): seq<Pair> {
    var t := ReadUntil(s, '=');
    if t.rest.None? then [] else ReadPairs(t.text, t.rest.value)
  }

  lemma {:induction false} RestIsShorter(s: string, c: char)
    ensures ReadUntil(s, c).rest.Some? ==> |ReadUntil(s, c).rest.value| < |s|
  {
    if s == [] || s[0] == c {
    } else if s[0] == '\\' && |s| > 1 {
      RestIsShorter(s[2..], c);
    } else {
      RestIsShorter(s[1..], c);
    }
  }

  // ---- Escaping is undone by reading ------------------------------------------------------------------------

  lemma {:induction false} ReadHead(x: char, c: char, rest: string)
    requires c != '\\'
    ensures ReadUntil(EscChar(x, c) + rest, c) == Token([x] + ReadUntil(rest, c).text, ReadUntil(rest, c).rest)
    ensures Unescaped(EscChar(x, c) + rest, c) == Unescaped(rest, c)
  {
    var head := EscChar(x, c);
    var s := head + rest;
    assert s[0] == head[0] && s[|head|..] == rest;
    if |head| == 2 {
      assert s[1] == x;
    }
  }

  lemma {:induction false} ReadEscaped(x: string, c: char, tail: string)
    requires c != '\\' && (tail == [] || tail[0] == c)
    ensures ReadUntil(Esc(x, c) + tail, c) == Token(x, if tail == [] then None else Some(tail[1..]))
  {
    if x == [] {
      assert Esc(x, c) + tail == tail;
    } else {
      ReadEscaped(x[1..], c, tail);
      ReadHead(x[0], c, Esc(x[1..], c) + tail);
      assert Esc(x, c) + tail == EscChar(x[0], c) + (Esc(x[1..], c) + tail);
      assert x == [x[0]] + x[1..];
    }
  }

  lemma {:induction false} CountEscaped(x: string, c: char, tail: string)
    requires c != '\\'
    ensures Unescaped(Esc(x, c) + tail, c) == Unescaped(tail, c)
  {
    if x == [] {
      assert Esc(x, c) + tail == tail;
    } else {
      CountEscaped(x[1..], c, tail);
      ReadHead(x[0], c, Esc(x[1..], c) + tail);
      assert Esc(x, c) + tail == EscChar(x[0], c) + (Esc(x[1..], c) + tail);
    }
  }

  lemma {:induction false} EscPlain(x: string, c: char)
    requires forall i :: 0 <= i < |x| ==> x[i] != '\\' && x[i] != c
    ensures Esc(x, c) == x
  {
    if x != [] {
      EscPlain(x[1..], c);
    }
  }

  lemma {:induction false} EscConcat(x: string, y: string, c: char)
    ensures Esc(x + y, c) == Esc(x, c) + Esc(y, c)
  {
    if x == [] {
      assert x + y == y;
    } else {
      assert (x + y)[1..] == x[1..] + y;
      EscConcat(x[1..], y, c);
    }
  }

  // ---- The header -----------------------------------------------------------------------------------------------

  function JoinFields(fs: seq<string>): string {
    if fs == [] then [] else Field(Esc(fs[0], '|'), JoinFields(fs[1..]))
  }

  lemma {:induction false} ReadFieldsStep(s: string, n: nat, text: string, rest: string, more: Fields)
    requires n > 0 && ReadUntil(s, '|') == Token(text, Some(rest)) && ReadFields(rest, n - 1) == Some(more)
    ensures ReadFields(s, n) == Some(Fields([text] + more.values, more.rest))
  {
  }

  lemma {:induction false} ReadField(text: string, rest: string)
    ensures ReadUntil(Field(Esc(text, '|'), rest), '|') == Token(text, Some(rest))
  {
    ReadEscaped(text, '|', "|" + rest);
    assert Field(Esc(text, '|'), rest) == Esc(text, '|') + ("|" + rest);
    assert ("|" + rest)[1..] == rest;
  }

  lemma {:induction false} FieldThenTail(text: string, more: string, tail: string)
    ensures Field(text, more) + tail == Field(text, more + tail)
  {
  }

  lemma {:induction false} FirstFieldBack(f: string, fs: seq<string>, more: string, tail: string)
    requires ReadFields(more + tail, |fs|) == Some(Fields(fs, tail))
    ensures ReadFields(Field(Esc(f, '|'), more) + tail, |fs| + 1) == Some(Fields([f] + fs, tail))
  {
    FieldThenTail(Esc(f, '|'), more, tail);
    ReadField(f, more + tail);
    ReadFieldsStep(Field(Esc(f, '|'), more + tail), |fs| + 1, f, more + tail, Fields(fs, tail));
  }

  lemma {:induction false} FieldsRoundTrip(fs: seq<string>, tail: string)
    ensures ReadFields(JoinFields(fs) + tail, |fs|) == Some(Fields(fs, tail))
  {
    if fs == [] {
      assert JoinFields(fs) + tail == tail;
    } else {
      FieldsRoundTrip(fs[1..], tail);
      FirstFieldBack(fs[0], fs[1..], JoinFields(fs[1..]), tail);
      assert fs == [fs[0]] + fs[1..];
    }
  }

  /** The seven header fields a receiver is meant to see. */
  function HeaderFields(e: Event): seq<string> {
    ["CEF:0", "FreeLocker", "FreeLocker", "1", Scrub(e.kind), Scrub(e.title), Decimal(CefSeverity(e.kind))]
  }

  lemma {:induction false} JoinCons(f: string, fs: seq<string>)
    ensures JoinFields([f] + fs) == Field(Esc(f, '|'), JoinFields(fs))
  {
    assert ([f] + fs)[1..] == fs;
  }

  lemma {:induction false} JoinFour(a: string, b: string, c: string, d: string, fs: seq<string>)
    ensures JoinFields([a, b, c, d] + fs) ==
            Field(Esc(a, '|'), Field(Esc(b, '|'), Field(Esc(c, '|'), Field(Esc(d, '|'), JoinFields(fs)))))
  {
    JoinCons(d, fs);
    JoinCons(c, [d] + fs);
    JoinCons(b, [c] + ([d] + fs));
    JoinCons(a, [b] + ([c] + ([d] + fs)));
    assert [a] + ([b] + ([c] + ([d] + fs))) == [a, b, c, d] + fs;
  }

  lemma {:induction false} FixedFieldsArePlain()
    ensures Esc("CEF:0", '|') == "CEF:0" && Esc("FreeLocker", '|') == "FreeLocker" && Esc("1", '|') == "1"
  {
    EscPlain("CEF:0", '|');
    EscPlain("FreeLocker", '|');
    EscPlain("1", '|');
  }

  lemma {:induction false} VariableFields(x: string, y: string, z: string)
    ensures JoinFields([x, y, z]) == Field(Esc(x, '|'), Field(Esc(y, '|'), Field(Esc(z, '|'), "")))
  {
    JoinCons(z, []);
    JoinCons(y, [z]);
    JoinCons(x, [y, z]);
    assert [z] + [] == [z] && [y] + [z] == [y, z] && [x] + [y, z] == [x, y, z];
  }

  lemma {:induction false} SevenFields(a: string, b: string, c: string, d: string, x: string, y: string, z: string)
    requires Esc(a, '|') == a && Esc(b, '|') == b && Esc(c, '|') == c && Esc(d, '|') == d && Esc(z, '|') == z
    ensures JoinFields([a, b, c, d, x, y, z]) ==
            Field(a, Field(b, Field(c, Field(d, Field(Esc(x, '|'), Field(Esc(y, '|'), Field(z, "")))))))
  {
    VariableFields(x, y, z);
    JoinFour(a, b, c, d, [x, y, z]);
    assert [a, b, c, d, x, y, z] == [a, b, c, d] + [x, y, z];
  }

  lemma {:induction false} SeverityIsPlain(kind: string)
    ensures Esc(Decimal(CefSeverity(kind)), '|') == Decimal(CefSeverity(kind))
  {
    EscPlain(Decimal(CefSeverity(kind)), '|');
  }

  lemma {:induction false} HeaderIsJoined(e: Event)
    ensures Header(e) == JoinFields(HeaderFields(e))
  {
    FixedFieldsArePlain();
    SeverityIsPlain(e.kind);
    SevenFields("CEF:0", "FreeLocker", "FreeLocker", "1", Scrub(e.kind), Scrub(e.title), Decimal(CefSeverity(e.kind)));
  }

  /** Splitting the CEF part at its first seven unescaped pipes gives back the scrubbed kind
      and title in their places, and the extension. */
  lemma {:induction false} HeaderRoundTrip(e: Event, keys: seq<string>)
    requires AreSortedKeys(keys, e)
    ensures ReadFields(CefPart(e, keys), 7) ==
              Some(Fields(["CEF:0", "FreeLocker", "FreeLocker", "1", Scrub(e.kind), Scrub(e.title), Decimal(CefSeverity(e.kind))],
                          JoinPairs(Pairs(e, keys))))
  {
    HeaderIsJoined(e);
    FieldsRoundTrip(HeaderFields(e), JoinPairs(Pairs(e, keys)));
  }
}
