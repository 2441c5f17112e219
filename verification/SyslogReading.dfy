/** What a receiver reads from a record: the frame of both formats, the priority, and the
    structured data and message of RFC 5424, section 6. */
module SyslogReading {
  import opened Common
  import opened Text
  import opened Syslog
  import opened SyslogRecords

  // ---- The priority -------------------------------------------------------------------------

  lemma {:induction false} ThreeDigits(n: nat)
    requires 100 <= n < 110
    ensures Decimal(n) == "10" + [Digit(n - 100)]
  {
    assert n / 10 == 10 && n % 10 == n - 100;
    assert Decimal(1) == "1";
    assert Decimal(10) == "10";
  }

  /** Facility 13, with a raised alert or a paused rollout a warning (4), a new approval request
      a notice (5) and anything else informational (6); CEF counts the other way, 6, 4 and 3. */
  lemma {:induction false} SeverityLaw(e: Event)
    ensures e.kind == "alert.raised" || e.kind == "rollout.auto_paused" ==>
              Priority(e) == "<108>" && Decimal(CefSeverity(e.kind)) == "6"
    ensures e.kind == "approval.new" ==> Priority(e) == "<109>" && Decimal(CefSeverity(e.kind)) == "4"
    ensures e.kind !in {"alert.raised", "rollout.auto_paused", "approval.new"} ==>
              Priority(e) == "<110>" && Decimal(CefSeverity(e.kind)) == "3"
  {
    ThreeDigits(108);
    ThreeDigits(109);
    assert Decimal(11) == Decimal(1) + "1" && Decimal(1) == "1";
    assert Decimal(110) == Decimal(11) + "0";
  }

  // ---- Words --------------------------------------------------------------------------------

  /** Up to the first blank. */
  function ReadWord(s: string): (t: Token)
    ensures BlankFree(t.text)
  {
    if s == [] then Token([], None)
    else if s[0] == ' ' then Token([], Some(s[1..]))
    else
      var t := ReadWord(s[1..]);
      Token([s[0]] + t.text, t.rest)
  }

  /** The first `n` words and what follows the blank behind them. */
  function ReadWords(s: string, n: nat): Option<Fields>
    decreases n
  {
    if n == 0 then Some(Fields([], s))
    else
      var t := ReadWord(s);
      if t.rest.None? then None
      else
        var more := ReadWords(t.rest.value, n - 1);
        if more.None? then None else Some(Fields([t.text] + more.value.values, more.value.rest))
  }

  function JoinWords(ws: seq<string>, tail: string): string {
    if ws == [] then tail else ws[0] + " " + JoinWords(ws[1..], tail)
  }

  lemma {:induction false} WordBack(w: string, rest: string)
    requires BlankFree(w)
    ensures ReadWord(w + " " + rest) == Token(w, Some(rest))
  {
    var s := w + " " + rest;
    if w == [] {
      assert s[0] == ' ' && s[1..] == rest;
    } else {
      assert s[0] == w[0] != ' ' && s[1..] == w[1..] + " " + rest;
      WordBack(w[1..], rest);
    }
  }

  lemma {:induction false} ReadWordsStep(s: string, n: nat, word: string, rest: string, more: Fields)
    requires n > 0 && ReadWord(s) == Token(word, Some(rest)) && ReadWords(rest, n - 1) == Some(more)
    ensures ReadWords(s, n) == Some(Fields([word] + more.values, more.rest))
  {
  }

  lemma {:induction false} WordsAreBlankFree(s: string, n: nat)
    requires ReadWords(s, n).Some?
    ensures var ws := ReadWords(s, n).value.values; |ws| == n && forall i :: 0 <= i < n ==> BlankFree(ws[i])
    decreases n
  {
    if n > 0 {
      WordsAreBlankFree(ReadWord(s).rest.value, n - 1);
    }
  }

  lemma {:induction false} WordsBack(ws: seq<string>, tail: string)
    requires forall i :: 0 <= i < |ws| ==> BlankFree(ws[i])
    ensures ReadWords(JoinWords(ws, tail), |ws|) == Some(Fields(ws, tail))
  {
    if ws != [] {
      var more := JoinWords(ws[1..], tail);
      WordsBack(ws[1..], tail);
      WordBack(ws[0], more);
      ReadWordsStep(ws[0] + " " + more, |ws|, ws[0], more, Fields(ws[1..], tail));
      assert ws == [ws[0]] + ws[1..];
    }
  }

  /** Words are read back exactly if none of them holds a blank. */
  lemma {:induction false} WordsBackIff(ws: seq<string>, tail: string)
    ensures ReadWords(JoinWords(ws, tail), |ws|) == Some(Fields(ws, tail)) <==>
            forall i :: 0 <= i < |ws| ==> BlankFree(ws[i])
  {
    if ReadWords(JoinWords(ws, tail), |ws|) == Some(Fields(ws, tail)) {
      WordsAreBlankFree(JoinWords(ws, tail), |ws|);
    }
    if forall i :: 0 <= i < |ws| ==> BlankFree(ws[i]) {
      WordsBack(ws, tail);
    }
  }

  lemma {:induction false} JoinWord(w: string, ws: seq<string>, tail: string)
    ensures JoinWords([w] + ws, tail) == w + " " + JoinWords(ws, tail)
  {
    assert ([w] + ws)[1..] == ws;
  }

  lemma {:induction false} ThreeWords(a: string, b: string, c: string, tail: string)
    ensures JoinWords([a, b, c], tail) == a + " " + b + " " + c + " " + tail
  {
    JoinWord(c, [], tail);
    JoinWord(b, [c], tail);
    JoinWord(a, [b, c], tail);
    assert [c] + [] == [c] && [b] + [c] == [b, c] && [a] + [b, c] == [a, b, c];
  }

  lemma {:induction false} JoinWordsConcat(us: seq<string>, ws: seq<string>, tail: string)
    ensures JoinWords(us + ws, tail) == JoinWords(us, JoinWords(ws, tail))
  {
    if us == [] {
      assert us + ws == ws;
    } else {
      assert (us + ws)[1..] == us[1..] + ws;
      JoinWordsConcat(us[1..], ws, tail);
    }
  }

  lemma {:induction false} SixWords(a: string, b: string, c: string, d: string, e: string, f: string, tail: string)
    ensures JoinWords([a, b, c, d, e, f], tail) ==
            a + " " + b + " " + c + " " + d + " " + e + " " + f + " " + tail
  {
    ThreeWords(d, e, f, tail);
    ThreeWords(a, b, c, d + " " + e + " " + f + " " + tail);
    JoinWordsConcat([a, b, c], [d, e, f], tail);
    assert [a, b, c] + [d, e, f] == [a, b, c, d, e, f];
  }

  /** A CEF record is the priority with the time, the host and the program name, blanks between,
      in front of the CEF part; they are read back exactly if time and host hold no blank. */
  lemma {:induction false} CefFrameIff(e: Event, hostname: string, keys: seq<string>)
    requires AreSortedKeys(keys, e)
    ensures ReadWords(Cef(e, hostname, keys), 3) == Some(Fields([Priority(e) + e.at, hostname, "freelocker"], CefPart(e, keys))) <==>
            BlankFree(e.at) && BlankFree(hostname)
  {
    var ws, priority := [Priority(e) + e.at, hostname, "freelocker"], Priority(e);
    ThreeWords(priority + e.at, hostname, "freelocker", CefPart(e, keys));
    WordsBackIff(ws, CefPart(e, keys));
    PriorityIsBlankFree(e);
    assert BlankFree(priority + e.at) <==> BlankFree(e.at) by {
      BlankFreeConcat(priority, e.at);
    }
    assert BlankFree("freelocker");
    assert (forall i :: 0 <= i < |ws| ==> BlankFree(ws[i])) <==> BlankFree(ws[0]) && BlankFree(ws[1]) && BlankFree(ws[2]);
  }

  lemma {:induction false} BlankFreeConcat(a: string, b: string)
    ensures BlankFree(a + b) <==> BlankFree(a) && BlankFree(b)
  {
    if BlankFree(a + b) {
      assert forall i :: 0 <= i < |a| ==> (a + b)[i] == a[i];
      assert forall i :: 0 <= i < |b| ==> (a + b)[|a| + i] == b[i];
    }
  }

  lemma {:induction false} PriorityIsBlankFree(e: Event)
    ensures BlankFree(Priority(e))
  {
    SeverityLaw(e);
  }

  // ---- The structured data of RFC 5424 -------------------------------------------------------

  /** A text that stands for itself between quotes. */
  predicate QuoteFree(s: string) {
    forall i :: 0 <= i < |s| ==> s[i] != '"' && s[i] != '\\'
  }

  /** After `lead`, the text up to an unescaped quote. */
  function ReadParam(s: string, lead: string): Token {
    if lead <= s then ReadUntil(s[|lead|..], '"') else Token("", None)
  }

  datatype Data = Data(tenant: string, event: string, message: string)

  function ReadData(s: string): Option<Data> {
    var tenant := ReadParam(s, "[freelocker@0 tenant=\"");
    if tenant.rest.None? then None
    else
      var event := ReadParam(tenant.rest.value, " event=\"");
      if event.rest.None? || !("] " <= event.rest.value) then None
      else Some(Data(tenant.text, event.text, event.rest.value[2..]))
  }

  /** Reading to a delimiter uses up the text and the delimiter, and more if anything was escaped. */
  lemma {:induction false} ReadingConsumes(s: string, c: char)
    requires ReadUntil(s, c).rest.Some?
    ensures var t := ReadUntil(s, c);
      && |t.text| + 1 + |t.rest.value| <= |s|
      && (|t.text| + 1 + |t.rest.value| == |s| ==> forall i :: 0 <= i < |t.text| ==> t.text[i] != c && t.text[i] != '\\')
  {
    if s == [] || s[0] == c {
    } else if s[0] == '\\' && |s| > 1 {
      ReadingConsumes(s[2..], c);
    } else {
      ReadingConsumes(s[1..], c);
    }
  }

  lemma {:induction false} PlainIsRead(x: string, rest: string)
    requires QuoteFree(x)
    ensures ReadUntil(x + "\"" + rest, '"') == Token(x, Some(rest))
  {
    EscPlain(x, '"');
    ReadEscaped(x, '"', "\"" + rest);
    assert x + "\"" + rest == Esc(x, '"') + ("\"" + rest);
    assert ("\"" + rest)[1..] == rest;
  }

  lemma {:induction false} ParamIs(lead: string, s: string)
    ensures ReadParam(lead + s, lead) == ReadUntil(s, '"')
  {
    assert (lead + s)[|lead|..] == s;
  }

  lemma {:induction false} ParamIsRead(lead: string, x: string, rest: string)
    requires QuoteFree(x)
    ensures ReadParam(lead + (x + "\"" + rest), lead) == Token(x, Some(rest))
  {
    ParamIs(lead, x + "\"" + rest);
    PlainIsRead(x, rest);
  }

  lemma {:induction false} ParamConsumes(s: string, lead: string)
    requires ReadParam(s, lead).rest.Some?
    ensures var t := ReadParam(s, lead);
      && |lead| + |t.text| + 1 + |t.rest.value| <= |s|
      && (|lead| + |t.text| + 1 + |t.rest.value| == |s| ==> QuoteFree(t.text))
  {
    ReadingConsumes(s[|lead|..], '"');
  }

  /** The structured data and the message behind it. */
  function DataText(d: Data): string {
    "[freelocker@0 tenant=\"" + (d.tenant + "\"" + (" event=\"" + (d.event + "\"" + ("] " + d.message))))
  }

  lemma {:induction false} DataIsRead(d: Data)
    requires QuoteFree(d.tenant) && QuoteFree(d.event)
    ensures ReadData(DataText(d)) == Some(d)
  {
    var end := "] " + d.message;
    var event := " event=\"" + (d.event + "\"" + end);
    ParamIsRead("[freelocker@0 tenant=\"", d.tenant, event);
    ParamIsRead(" event=\"", d.event, end);
    assert end[2..] == d.message;
  }

  lemma {:induction false} ReadDataIsPlain(s: string, d: Data)
    requires ReadData(s) == Some(d) && |s| <= |DataText(d)|
    ensures QuoteFree(d.tenant) && QuoteFree(d.event)
  {
    var tenant := ReadParam(s, "[freelocker@0 tenant=\"");
    ParamConsumes(s, "[freelocker@0 tenant=\"");
    ParamConsumes(tenant.rest.value, " event=\"");
  }

  // ---- The RFC 5424 record --------------------------------------------------------------------

  datatype Reading = Reading(header: seq<string>, data: Data)

  /** Six words (the priority with the version, time, host, program, process and kind), the
      structured data, and the message. */
  function ReadRecord(s: string): Option<Reading> {
    var words := ReadWords(s, 6);
    if words.None? then None
    else
      var data := ReadData(words.value.rest);
      if data.None? then None else Some(Reading(words.value.values, data.value))
  }

  lemma {:induction false} DataParts(lead: string, tenant: string, mid: string, event: string, end: string, message: string)
    requires |mid| > 0 && mid[0] == '"' && |end| == 2 && end[0] == '"'
    ensures (lead + tenant + mid + event + end) + " " + message ==
            lead + (tenant + "\"" + (mid[1..] + (event + "\"" + ((end[1..] + " ") + message))))
  {
    assert mid == "\"" + mid[1..] && end == "\"" + end[1..];
  }

  lemma {:induction false} DataIsText(tenant: string, event: string, message: string)
    ensures ("[freelocker@0 tenant=\"" + tenant + "\" event=\"" + event + "\"]") + " " + message ==
            DataText(Data(tenant, event, message))
  {
    DataParts("[freelocker@0 tenant=\"", tenant, "\" event=\"", event, "\"]", message);
    assert "\" event=\""[1..] == " event=\"" && "\"]"[1..] + " " == "] ";
  }

  lemma {:induction false} RecordParts(priority: string, at: string, host: string, app: string, pid: string, kind: string, data: string, message: string)
    ensures priority + "1 " + at + " " + host + " " + app + " " + pid + " " + kind + " " + data + " " + message ==
            (priority + "1") + " " + at + " " + host + " " + app + " " + pid + " " + kind + " " + (data + " " + message)
  {
    assert priority + "1 " == (priority + "1") + " ";
  }

  /** The six words of a record, the structured data and the message of an event. */
  function Shown(e: Event, hostname: string, pid: nat, message: string): Reading {
    Reading([Priority(e) + "1", e.at, hostname, "freelocker", Decimal(pid), Scrub(e.kind)],
            Data(e.tenant, Scrub(e.kind), message))
  }

  lemma {:induction false} RecordIsJoined(e: Event, hostname: string, pid: nat, detail: string)
    ensures var shown := Shown(e, hostname, pid, Message(e, detail));
      Rfc5424(e, hostname, pid, detail) == JoinWords(shown.header, DataText(shown.data))
  {
    var kind, message := Scrub(e.kind), Message(e, detail);
    var data := "[freelocker@0 tenant=\"" + e.tenant + "\" event=\"" + kind + "\"]";
    DataIsText(e.tenant, kind, message);
    SixWords(Priority(e) + "1", e.at, hostname, "freelocker", Decimal(pid), kind, data + " " + message);
    RecordParts(Priority(e), e.at, hostname, "freelocker", Decimal(pid), kind, data, message);
  }

  lemma {:induction false} HeaderIsBlankFree(e: Event, hostname: string, pid: nat, message: string)
    ensures var ws := Shown(e, hostname, pid, message).header;
      (forall i :: 0 <= i < |ws| ==> BlankFree(ws[i])) <==> BlankFree(e.at) && BlankFree(hostname) && BlankFree(Scrub(e.kind))
  {
    var ws := Shown(e, hostname, pid, message).header;
    PriorityIsBlankFree(e);
    BlankFreeConcat(Priority(e), "1");
    DecimalReadsBack(pid);
    assert BlankFree("freelocker") && BlankFree(Decimal(pid));
    assert (forall i :: 0 <= i < |ws| ==> BlankFree(ws[i])) <==>
        BlankFree(ws[0]) && BlankFree(ws[1]) && BlankFree(ws[2]) && BlankFree(ws[3]) && BlankFree(ws[4]) && BlankFree(ws[5]);
  }

  /** An RFC 5424 record is read back into the priority with version 1, the time, the host, the
      program, the process number and the kind, the tenant and the kind again as structured data,
      and the message, if and only if the words hold no blank and the structured values no quote
      and no backslash, which the record does not escape. */
  lemma {:induction false} Rfc5424ReadsBackIff(e: Event, hostname: string, pid: nat, detail: string)
    ensures ReadRecord(Rfc5424(e, hostname, pid, detail)) ==
              Some(Reading([Priority(e) + "1", e.at, hostname, "freelocker", Decimal(pid), Scrub(e.kind)],
                           Data(e.tenant, Scrub(e.kind),
                                Scrub(e.title) + (if e.body == "" then "" else " — " + Scrub(e.body)) + Scrub(detail)))) <==>
            && BlankFree(e.at) && BlankFree(hostname) && BlankFree(Scrub(e.kind))
            && QuoteFree(e.tenant) && QuoteFree(Scrub(e.kind))
  {
    var message := Scrub(e.title) + (if e.body == "" then "" else " — " + Scrub(e.body)) + Scrub(detail);
    var shown := Shown(e, hostname, pid, message);
    assert message == Message(e, detail);
    RecordIsJoined(e, hostname, pid, detail);
    HeaderIsBlankFree(e, hostname, pid, message);
    ReadsBackIff(shown);
  }

  lemma {:induction false} ReadsBackIff(shown: Reading)
    requires |shown.header| == 6
    ensures ReadRecord(JoinWords(shown.header, DataText(shown.data))) == Some(shown) <==>
            && (forall i :: 0 <= i < 6 ==> BlankFree(shown.header[i]))
            && QuoteFree(shown.data.tenant) && QuoteFree(shown.data.event)
  {
    var text := JoinWords(shown.header, DataText(shown.data));
    if ReadRecord(text) == Some(shown) {
      WordsAreBlankFree(text, 6);
      WordsBack(shown.header, DataText(shown.data));
      ReadDataIsPlain(DataText(shown.data), shown.data);
    } else if forall i :: 0 <= i < 6 ==> BlankFree(shown.header[i]) {
      WordsBack(shown.header, DataText(shown.data));
      if QuoteFree(shown.data.tenant) && QuoteFree(shown.data.event) {
        DataIsRead(shown.data);
      }
    }
  }
}
