/** The CEF extension, the framing of records on a stream, and the formatters. */
module SyslogRecords {
  import opened Common
  import opened Text
  import opened Syslog

  // ---- Reading the extension back --------------------------------------------------------------------

  /** The text behind the first sign. */
  function ValuesText(ps: seq<Pair>): string
    requires ps != []
  {
    if |ps| == 1 then Esc(ps[0].value, '=')
    else Esc(ps[0].value + " " + ps[1].key, '=') + ("=" + ValuesText(ps[1..]))
  }

  lemma {:induction false} EscBlank(x: string, y: string)
    ensures Esc(x + " " + y, '=') == Esc(x, '=') + " " + Esc(y, '=')
  {
    EscPlain(" ", '=');
    EscConcat(x + " ", y, '=');
    EscConcat(x, " ", '=');
  }

  lemma {:induction false} Regroup(a: string, b: string, c: string, d: string)
    ensures a + "=" + b + " " + (c + ("=" + d)) == a + ("=" + (b + " " + c + ("=" + d)))
    ensures a + "=" + b == a + ("=" + b)
  {
  }

  lemma {:induction false} JoinIsValues(ps: seq<Pair>)
    requires ps != []
    ensures JoinPairs(ps) == Esc(ps[0].key, '=') + ("=" + ValuesText(ps))
  {
    if |ps| > 1 {
      JoinIsValues(ps[1..]);
      EscBlank(ps[0].value, ps[1].key);
      Regroup(Esc(ps[0].key, '='), Esc(ps[0].value, '='), Esc(ps[1].key, '='), ValuesText(ps[1..]));
    } else {
      Regroup(Esc(ps[0].key, '='), Esc(ps[0].value, '='), "", "");
    }
  }

  lemma {:induction false} LastWordIs(v: string, k: string)
    requires BlankFree(k)
    ensures LastWord(v + " " + k) == k && BeforeLastWord(v + " " + k) == v
  {
    var s := v + " " + k;
    assert s[..|v|] == v;
    if k == [] {
      assert s[|s| - 1] == ' ';
    } else {
      var n := |k| - 1;
      assert s[|s| - 1] == k[n] && s[..|s| - 1] == v + " " + k[..n];
      LastWordIs(v, k[..n]);
      assert k == k[..n] + [k[n]];
    }
  }

  lemma {:induction false} ReadPairsStep(key: string, s: string, text: string, rest: string)
    requires ReadUntil(s, '=') == Token(text, Some(rest))
    ensures ReadPairs(key, s) == [Pair(key, BeforeLastWord(text))] + ReadPairs(LastWord(text), rest)
  {
  }

  lemma {:induction false} ReadPairsLast(key: string, s: string, text: string)
    requires ReadUntil(s, '=') == Token(text, None)
    ensures ReadPairs(key, s) == [Pair(key, text)]
  {
  }

  lemma {:induction false} ReadValue(v: string)
    ensures ReadUntil(Esc(v, '='), '=') == Token(v, None)
  {
    ReadEscaped(v, '=', "");
    assert Esc(v, '=') + "" == Esc(v, '=');
  }

  lemma {:induction false} ReadSign(text: string, rest: string)
    ensures ReadUntil(Esc(text, '=') + ("=" + rest), '=') == Token(text, Some(rest))
  {
    ReadEscaped(text, '=', "=" + rest);
    assert ("=" + rest)[1..] == rest;
  }

  lemma {:induction false} ReadPairsBack(ps: seq<Pair>)
    requires ps != [] && forall i :: 0 < i < |ps| ==> BlankFree(ps[i].key)
    ensures ReadPairs(ps[0].key, ValuesText(ps)) == ps
  {
    if |ps| == 1 {
      ReadValue(ps[0].value);
      ReadPairsLast(ps[0].key, ValuesText(ps), ps[0].value);
    } else {
      var text := ps[0].value + " " + ps[1].key;
      ReadSign(text, ValuesText(ps[1..]));
      ReadPairsStep(ps[0].key, ValuesText(ps), text, ValuesText(ps[1..]));
      LastWordIs(ps[0].value, ps[1].key);
      ReadPairsBack(ps[1..]);
    }
  }

  lemma {:induction false} FirstKey(key: string, s: string)
    ensures |ReadPairs(key, s)| > 0 && ReadPairs(key, s)[0].key == key
  {
  }

  lemma {:induction false} KeysReadAreBlankFree(key: string, s: string, i: nat)
    requires 0 < i < |ReadPairs(key, s)|
    ensures BlankFree(ReadPairs(key, s)[i].key)
    decreases i
  {
    var t := ReadUntil(s, '=');
    if t.rest.None? {
      ReadPairsLast(key, s, t.text);
      assert false;
    } else {
      ReadPairsStep(key, s, t.text, t.rest.value);
      var more := ReadPairs(LastWord(t.text), t.rest.value);
      FirstKey(LastWord(t.text), t.rest.value);
      assert ReadPairs(key, s)[i] == more[i - 1];
      if i > 1 {
        KeysReadAreBlankFree(LastWord(t.text), t.rest.value, i - 1);
      }
    }
  }

  lemma {:induction false} ReadExtensionStep(s: string, key: string, rest: string)
    requires ReadUntil(s, '=') == Token(key, Some(rest))
    ensures ReadExtension(s) == ReadPairs(key, rest)
  {
  }

  lemma {:induction false} ReadJoined(ps: seq<Pair>)
    requires ps != []
    ensures ReadExtension(JoinPairs(ps)) == ReadPairs(ps[0].key, ValuesText(ps))
  {
    JoinIsValues(ps);
    ReadSign(ps[0].key, ValuesText(ps));
    ReadExtensionStep(JoinPairs(ps), ps[0].key, ValuesText(ps));
  }

  /** A receiver gets the pairs back exactly when no key behind the first holds a blank. */
  lemma {:induction false} PairsRoundTripIff(ps: seq<Pair>)
    requires ps != []
    ensures ReadExtension(JoinPairs(ps)) == ps <==> forall i :: 0 < i < |ps| ==> BlankFree(ps[i].key)
  {
    ReadJoined(ps);
    if forall i :: 0 < i < |ps| ==> BlankFree(ps[i].key) {
      ReadPairsBack(ps);
    }
    if ReadPairs(ps[0].key, ValuesText(ps)) == ps {
      forall i | 0 < i < |ps|
        ensures BlankFree(ps[i].key)
      {
        KeysReadAreBlankFree(ps[0].key, ValuesText(ps), i);
      }
    }
  }

  /** Detail keys without blanks and line breaks, as all the product's own are. */
  ghost predicate PlainKeys(e: Event) {
    forall k :: k in e.detail ==> OneLine(k) && BlankFree(k)
  }

  lemma {:induction false} ScrubbedKey(k: string)
    ensures BlankFree(Scrub(k)) <==> OneLine(k) && BlankFree(k)
  {
    if OneLine(k) && BlankFree(k) {
      assert forall i :: 0 <= i < |k| ==> !IsBreak(k[i]) && Scrub(k)[i] == k[i];
    }
    if BlankFree(Scrub(k)) {
      assert forall i :: 0 <= i < |k| ==> Scrub(k)[i] != ' ' && !IsBreak(k[i]) && k[i] != ' ';
    }
  }

  lemma {:induction false} DetailKeysIff(e: Event, keys: seq<string>)
    requires AreSortedKeys(keys, e)
    ensures (forall i :: 0 < i < |Pairs(e, keys)| ==> BlankFree(Pairs(e, keys)[i].key)) <==> PlainKeys(e)
  {
    var ps := Pairs(e, keys);
    assert BlankFree("msg") && BlankFree("cs1Label") && BlankFree("cs1");
    assert forall i :: 4 <= i < |ps| ==> ps[i].key == Scrub(keys[i - 4]);
    if forall i :: 0 < i < |ps| ==> BlankFree(ps[i].key) {
      forall k | k in e.detail
        ensures OneLine(k) && BlankFree(k)
      {
        var j :| 0 <= j < |keys| && keys[j] == k;
        assert BlankFree(ps[4 + j].key);
        ScrubbedKey(k);
      }
    }
    if PlainKeys(e) {
      forall i | 0 < i < |ps|
        ensures BlankFree(ps[i].key)
      {
        if i >= 4 {
          assert keys[i - 4] in e.detail;
          ScrubbedKey(keys[i - 4]);
        }
      }
    }
  }

  lemma {:induction false} PairsAre(e: Event, keys: seq<string>, ps: seq<Pair>)
    requires AreSortedKeys(keys, e) && |ps| == 4 + |keys|
    requires ps[..4] == [Pair("rt", Scrub(e.at)), Pair("msg", Scrub(e.body)), Pair("cs1Label", "tenant"), Pair("cs1", Scrub(e.tenant))]
    requires forall i :: 0 <= i < |keys| ==> ps[4 + i] == Pair(Scrub(keys[i]), Scrub(e.detail[keys[i]]))
    ensures ps == Pairs(e, keys)
  {
    assert ps == ps[..4] + ps[4..];
    assert ps[4..] == DetailPairs(e, keys);
  }

  /** A receiver reads exactly these pairs from the extension: the time as `rt`, the body as
      `msg`, the tenant as `cs1` with its label, and the details by ascending key, if and only if
      no detail key holds a blank or a line break. */
  lemma {:induction false} ExtensionRoundTripIff(e: Event, keys: seq<string>, ps: seq<Pair>)
    requires AreSortedKeys(keys, e) && |ps| == 4 + |keys|
    requires ps[..4] == [Pair("rt", Scrub(e.at)), Pair("msg", Scrub(e.body)), Pair("cs1Label", "tenant"), Pair("cs1", Scrub(e.tenant))]
    requires forall i :: 0 <= i < |keys| ==> ps[4 + i] == Pair(Scrub(keys[i]), Scrub(e.detail[keys[i]]))
    ensures ReadExtension(JoinPairs(Pairs(e, keys))) == ps <==> forall k :: k in e.detail ==> OneLine(k) && BlankFree(k)
  {
    PairsAre(e, keys, ps);
    PairsRoundTripIff(Pairs(e, keys));
    DetailKeysIff(e, keys);
  }

  lemma {:induction false} CountStep(s: string)
    ensures Unescaped("=" + s, '=') == 1 + Unescaped(s, '=') && Unescaped(" " + s, '=') == Unescaped(s, '=')
  {
    assert ("=" + s)[1..] == s && (" " + s)[1..] == s;
  }

  lemma {:induction false} Group(a: string, b: string, c: string)
    ensures a + "=" + b + c == a + ("=" + (b + c))
  {
  }

  lemma {:induction false} CountPair(p: Pair, tail: string)
    ensures Unescaped(PairText(p) + tail, '=') == 1 + Unescaped(tail, '=')
  {
    var v := Esc(p.value, '=');
    CountEscaped(p.value, '=', tail);
    CountStep(v + tail);
    CountEscaped(p.key, '=', "=" + (v + tail));
    Group(Esc(p.key, '='), v, tail);
  }

  lemma {:induction false} CountLastPair(p: Pair)
    ensures Unescaped(PairText(p), '=') == 1
  {
    CountPair(p, "");
    assert PairText(p) + "" == PairText(p);
  }

  lemma {:induction false} CountFirstPair(p: Pair, more: string)
    ensures Unescaped(PairText(p) + " " + more, '=') == 1 + Unescaped(more, '=')
  {
    CountStep(more);
    CountPair(p, " " + more);
    Blank(PairText(p), more);
  }

  lemma {:induction false} Blank(a: string, b: string)
    ensures a + " " + b == a + (" " + b)
  {
  }

  /** One unescaped sign per pair. */
  lemma {:induction false} OneSignPerPair(ps: seq<Pair>)
    ensures Unescaped(JoinPairs(ps), '=') == |ps|
  {
    if |ps| == 1 {
      CountLastPair(ps[0]);
    } else if ps != [] {
      OneSignPerPair(ps[1..]);
      CountFirstPair(ps[0], JoinPairs(ps[1..]));
    }
  }

  // ---- One record, one line -----------------------------------------------------------------------------

  lemma {:induction false} EscOneLine(s: string, c: char)
    requires OneLine(s)
    ensures OneLine(Esc(s, c))
  {
    if s != [] {
      assert !IsBreak(s[0]) && forall i :: 0 <= i < |s[1..]| ==> s[1..][i] == s[i + 1];
      EscOneLine(s[1..], c);
    }
  }

  lemma {:induction false} DecimalOneLine(n: nat)
    ensures OneLine(Decimal(n))
  {
    if n >= 10 {
      DecimalOneLine(n / 10);
    }
  }

  lemma {:induction false} JoinOneLine(ps: seq<Pair>)
    requires forall i :: 0 <= i < |ps| ==> OneLine(ps[i].key) && OneLine(ps[i].value)
    ensures OneLine(JoinPairs(ps))
  {
    if ps != [] {
      EscOneLine(ps[0].key, '=');
      EscOneLine(ps[0].value, '=');
      JoinOneLine(ps[1..]);
    }
  }

  lemma {:induction false} FieldOneLine(text: string, rest: string)
    requires OneLine(text) && OneLine(rest)
    ensures OneLine(Field(text, rest))
  {
  }

  lemma {:induction false} HeaderOneLine(e: Event)
    ensures OneLine(Header(e))
  {
    var sev, kind, title := Decimal(CefSeverity(e.kind)), EscapeHeader(e.kind), EscapeHeader(e.title);
    DecimalOneLine(CefSeverity(e.kind));
    EscOneLine(Scrub(e.kind), '|');
    EscOneLine(Scrub(e.title), '|');
    FieldOneLine(sev, "");
    FieldOneLine(title, Field(sev, ""));
    var three := Field(kind, Field(title, Field(sev, "")));
    FieldOneLine(kind, Field(title, Field(sev, "")));
    FieldOneLine("1", three);
    FieldOneLine("FreeLocker", Field("1", three));
    FieldOneLine("FreeLocker", Field("FreeLocker", Field("1", three)));
    FieldOneLine("CEF:0", Field("FreeLocker", Field("FreeLocker", Field("1", three))));
  }

  lemma {:induction false} TwoOneLine(a: string, b: string)
    requires OneLine(a) && OneLine(b)
    ensures OneLine(a + b)
  {
  }

  lemma {:induction false} PriorityOneLine(e: Event)
    ensures OneLine(Priority(e))
  {
    DecimalOneLine(FACILITY * 8 + Severity(e.kind));
  }

  lemma {:induction false} FrontOneLine(start: string, at: string, hostname: string)
    requires OneLine(start) && OneLine(at) && OneLine(hostname)
    ensures OneLine(start + at + " " + hostname + " " + APP_NAME + " ")
  {
    TwoOneLine(start, at);
    TwoOneLine(start + at, " ");
    TwoOneLine(start + at + " ", hostname);
  }

  lemma {:induction false} CefOneLine(e: Event, hostname: string, keys: seq<string>)
    requires AreSortedKeys(keys, e) && OneLine(hostname) && OneLine(e.at)
    ensures OneLine(Cef(e, hostname, keys))
  {
    HeaderOneLine(e);
    JoinOneLine(Pairs(e, keys));
    TwoOneLine(Header(e), JoinPairs(Pairs(e, keys)));
    PriorityOneLine(e);
    FrontOneLine(Priority(e), e.at, hostname);
    TwoOneLine(Priority(e) + e.at + " " + hostname + " " + APP_NAME + " ", CefPart(e, keys));
  }

  lemma {:induction false} MessageOneLine(e: Event, detail: string)
    ensures OneLine(Message(e, detail))
  {
    assert OneLine(" — ");
  }

  lemma {:induction false} DataOneLine(tenant: string, kind: string)
    requires OneLine(tenant) && OneLine(kind)
    ensures OneLine("[freelocker@0 tenant=\"" + tenant + "\" event=\"" + kind + "\"]")
  {
    TwoOneLine("[freelocker@0 tenant=\"", tenant);
    TwoOneLine("[freelocker@0 tenant=\"" + tenant, "\" event=\"");
    TwoOneLine("[freelocker@0 tenant=\"" + tenant + "\" event=\"", kind);
  }

  lemma {:induction false} PidOneLine(front: string, pid: nat, kind: string)
    requires OneLine(front) && OneLine(kind)
    ensures OneLine(front + Decimal(pid) + " " + kind + " ")
  {
    DecimalOneLine(pid);
    TwoOneLine(front, Decimal(pid));
    TwoOneLine(front + Decimal(pid), " ");
    TwoOneLine(front + Decimal(pid) + " ", kind);
  }

  lemma {:induction false} Rfc5424OneLine(e: Event, hostname: string, pid: nat, detail: string)
    requires OneLine(hostname) && OneLine(e.at) && OneLine(e.tenant)
    ensures OneLine(Rfc5424(e, hostname, pid, detail))
  {
    MessageOneLine(e, detail);
    PriorityOneLine(e);
    TwoOneLine(Priority(e), "1 ");
    FrontOneLine(Priority(e) + "1 ", e.at, hostname);
    PidOneLine(Priority(e) + "1 " + e.at + " " + hostname + " " + APP_NAME + " ", pid, Scrub(e.kind));
    DataOneLine(e.tenant, Scrub(e.kind));
    var front := Priority(e) + "1 " + e.at + " " + hostname + " " + APP_NAME + " " + Decimal(pid) + " " + Scrub(e.kind) + " ";
    var data := "[freelocker@0 tenant=\"" + e.tenant + "\" event=\"" + Scrub(e.kind) + "\"]";
    TwoOneLine(front, data);
    TwoOneLine(front + data, " ");
    TwoOneLine(front + data + " ", Message(e, detail));
  }

  /** Records as a stream, each followed by a line feed. */
  function Stream(records: seq<string>): string {
    if records == [] then [] else records[0] + "\n" + Stream(records[1..])
  }

  /** What a receiver that frames on line feeds reads; it drops an unfinished last record. */
  function ReadStream(s: string, current: string): seq<string>
    decreases |s|
  {
    if s == [] then []
    else if s[0] == '\n' then [current] + ReadStream(s[1..], "")
    else ReadStream(s[1..], current + [s[0]])
  }

  lemma {:induction false} ReadLine(line: string, current: string, rest: string)
    requires OneLine(line)
    ensures ReadStream(line + "\n" + rest, current) == [current + line] + ReadStream(rest, "")
    decreases |line|
  {
    var s := line + "\n" + rest;
    if line == [] {
      assert s[0] == '\n' && s[1..] == rest && current + line == current;
    } else {
      assert !IsBreak(line[0]) && s[0] == line[0] && s[1..] == line[1..] + "\n" + rest;
      assert forall i :: 0 <= i < |line[1..]| ==> line[1..][i] == line[i + 1];
      ReadLine(line[1..], current + [line[0]], rest);
      assert current + [line[0]] + line[1..] == current + line;
    }
  }

  /** No field can forge, split or merge records on the stream. */
  lemma {:induction false} StreamRoundTrip(records: seq<string>)
    requires forall i :: 0 <= i < |records| ==> OneLine(records[i])
    ensures ReadStream(Stream(records), "") == records
  {
    if records != [] {
      ReadLine(records[0], "", Stream(records[1..]));
      StreamRoundTrip(records[1..]);
      assert "" + records[0] == records[0] && records == [records[0]] + records[1..];
    }
  }

  // ---- The order of the details -----------------------------------------------------------------------------

  lemma {:induction false} LeastIsFirst(a: seq<string>, b: seq<string>)
    requires a != [] && b != [] && a[0] in b && b[0] in a
    requires forall i, j :: 0 <= i < j < |a| ==> StrLess(a[i], a[j])
    requires forall i, j :: 0 <= i < j < |b| ==> StrLess(b[i], b[j])
    ensures a[0] == b[0]
  {
    var i :| 0 <= i < |a| && a[i] == b[0];
    var j :| 0 <= j < |b| && b[j] == a[0];
    if i > 0 && j > 0 {
      StrLessTransitive(a[0], b[0], a[0]);
      StrLessIrreflexive(a[0]);
    }
  }

  lemma {:induction false} TailKeys(a: seq<string>, k: string)
    requires a != [] && forall i, j :: 0 <= i < j < |a| ==> StrLess(a[i], a[j])
    ensures k in a[1..] <==> k in a && k != a[0]
  {
    StrLessIrreflexive(a[0]);
    if k in a[1..] {
      var i :| 0 <= i < |a[1..]| && a[1..][i] == k;
      assert StrLess(a[0], a[i + 1]);
    }
    if k in a && k != a[0] {
      var i :| 0 <= i < |a| && a[i] == k;
      assert a[1..][i - 1] == k;
    }
  }

  /** The keys have one ascending order, so equal events give equal records. */
  lemma {:induction false} SortedKeysUnique(a: seq<string>, b: seq<string>)
    requires forall k :: k in a <==> k in b
    requires forall i, j :: 0 <= i < j < |a| ==> StrLess(a[i], a[j])
    requires forall i, j :: 0 <= i < j < |b| ==> StrLess(b[i], b[j])
    ensures a == b
  {
    if b != [] {
      assert b[0] in a;
    }
    if a != [] {
      assert a[0] in b;
      LeastIsFirst(a, b);
      forall k
        ensures k in a[1..] <==> k in b[1..]
      {
        TailKeys(a, k);
        TailKeys(b, k);
      }
      SortedKeysUnique(a[1..], b[1..]);
      assert a == [a[0]] + a[1..] && b == [b[0]] + b[1..];
    }
  }
}
