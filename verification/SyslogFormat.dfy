/** The formatters that build the records. */
module SyslogFormat {
  import opened Common
  import opened Text
  import opened Syslog
  import opened SyslogRecords

  method LeastKey(keys: set<string>) returns (least: string)
    requires keys != {}
    ensures least in keys && forall k :: k in keys && k != least ==> StrLess(least, k)
  {
    least := Pick(keys);
    var todo := keys - {least};
    while todo != {}
      invariant todo <= keys && least in keys && least !in todo
      invariant forall k :: k in keys && k !in todo && k != least ==> StrLess(least, k)
      decreases |todo|
    {
      var k := Pick(todo);
      StrLessTotal(k, least);
      if StrLess(k, least) {
        forall x | x in keys && x !in todo && x != least
          ensures StrLess(k, x)
        {
          StrLessTransitive(k, least, x);
        }
        least := k;
      }
      todo := todo - {k};
    }
  }

  method SortKeys(detail: map<string, string>) returns (keys: seq<string>)
    ensures forall k :: k in keys <==> k in detail
    ensures forall i, j :: 0 <= i < j < |keys| ==> StrLess(keys[i], keys[j])
  {
    keys := [];
    var todo := detail.Keys;
    while todo != {}
      invariant todo <= detail.Keys
      invariant forall k :: k in keys <==> k in detail && k !in todo
      invariant forall i, j :: 0 <= i < j < |keys| ==> StrLess(keys[i], keys[j])
      invariant forall i, k :: 0 <= i < |keys| && k in todo ==> StrLess(keys[i], k)
      decreases |todo|
    {
      var least := LeastKey(todo);
      keys := keys + [least];
      todo := todo - {least};
    }
  }

  lemma {:induction false} FixedKeysArePlain()
    ensures Esc("rt", '=') == "rt" && Esc("msg", '=') == "msg" && Esc("cs1", '=') == "cs1"
    ensures Esc("cs1Label", '=') == "cs1Label" && Esc("tenant", '=') == "tenant"
  {
    ShortKeysArePlain();
    LongKeysArePlain();
  }

  lemma {:induction false} ShortKeysArePlain()
    ensures Esc("rt", '=') == "rt" && Esc("msg", '=') == "msg" && Esc("cs1", '=') == "cs1"
  {
    EscPlain("rt", '=');
    EscPlain("msg", '=');
    EscPlain("cs1", '=');
  }

  lemma {:induction false} LongKeysArePlain()
    ensures Esc("cs1Label", '=') == "cs1Label" && Esc("tenant", '=') == "tenant"
  {
    EscPlain("cs1Label", '=');
    EscPlain("tenant", '=');
  }

  function Texts(ps: seq<Pair>): seq<string> {
    seq(|ps|, i requires 0 <= i < |ps| => PairText(ps[i]))
  }

  /** A pair under a key that needs no escape. */
  method WritePair(key: string, escaped: string, ghost value: string) returns (text: string)
    requires Esc(key, '=') == key && escaped == Esc(value, '=')
    ensures text == PairText(Pair(key, value))
  {
    text := key + "=" + escaped;
  }

  lemma {:induction false} FourTexts(ps: seq<Pair>)
    requires |ps| == 4
    ensures Texts(ps) == [PairText(ps[0]), PairText(ps[1]), PairText(ps[2]), PairText(ps[3])]
  {
  }

  method BuildFixed(e: Event) returns (ext: seq<string>)
    ensures ext == Texts(FixedPairs(e))
  {
    FixedKeysArePlain();
    FourTexts(FixedPairs(e));
    var time := WritePair("rt", EscapeValue(e.at), Scrub(e.at));
    var body := WritePair("msg", EscapeValue(e.body), Scrub(e.body));
    var tenantLabel := WritePair("cs1Label", "tenant", "tenant");
    var tenant := WritePair("cs1", EscapeValue(e.tenant), Scrub(e.tenant));
    ext := [time, body, tenantLabel, tenant];
  }

  method BuildDetails(e: Event, keys: seq<string>) returns (ext: seq<string>)
    requires AreSortedKeys(keys, e)
    ensures ext == Texts(DetailPairs(e, keys))
  {
    ext := [];
    for i := 0 to |keys|
      invariant |ext| == i && forall j :: 0 <= j < i ==> ext[j] == PairText(DetailPairs(e, keys)[j])
    {
      ext := ext + [EscapeValue(keys[i]) + "=" + EscapeValue(e.detail[keys[i]])];
    }
  }

  lemma {:induction false} TextsConcat(ps: seq<Pair>, qs: seq<Pair>)
    ensures Texts(ps + qs) == Texts(ps) + Texts(qs)
  {
  }

  lemma {:induction false} JoinSnoc(ps: seq<Pair>, p: Pair)
    requires ps != []
    ensures JoinPairs(ps + [p]) == JoinPairs(ps) + " " + PairText(p)
  {
    var all := ps + [p];
    if |ps| == 1 {
      assert all[1..] == [p];
    } else {
      assert all[1..] == ps[1..] + [p];
      JoinSnoc(ps[1..], p);
      Associate(PairText(ps[0]), JoinPairs(ps[1..]), PairText(p));
    }
  }

  lemma {:induction false} Associate(a: string, b: string, c: string)
    ensures a + " " + (b + " " + c) == a + " " + b + " " + c
  {
  }

  /** Joins with blanks between. */
  method Join(ext: seq<string>, ghost ps: seq<Pair>) returns (text: string)
    requires ext == Texts(ps)
    ensures text == JoinPairs(ps)
  {
    text := "";
    for i := 0 to |ext|
      invariant text == JoinPairs(ps[..i])
    {
      assert ps[..i + 1] == ps[..i] + [ps[i]];
      if i > 0 {
        JoinSnoc(ps[..i], ps[i]);
        text := text + " " + ext[i];
      } else {
        text := ext[i];
      }
    }
    assert ps[..|ext|] == ps;
  }

  /** One CEF record for an event, the same for every visiting order of the details. */
  method FormatCEF(e: Event, hostname: string) returns (record: string)
    ensures exists keys :: AreSortedKeys(keys, e) && record == Cef(e, hostname, keys)
  {
    var sorted := SortKeys(e.detail);
    var fixed := BuildFixed(e);
    var details := BuildDetails(e, sorted);
    TextsConcat(FixedPairs(e), DetailPairs(e, sorted));
    var text := Join(fixed + details, Pairs(e, sorted));
    record := Priority(e) + e.at + " " + hostname + " " + APP_NAME + " " + (Header(e) + text);
    assert AreSortedKeys(sorted, e) && record == Cef(e, hostname, sorted);
  }

  datatype Format = Rfc | CefFormat | Unknown(name: string)

  function FormatOf(name: string): Format {
    if name == "" || name == "rfc5424" then Rfc else if name == "cef" then CefFormat else Unknown(name)
  }

  function HostField(hostname: string): string {
    Scrub(if hostname == "" then "-" else hostname)
  }

  /** The record for a channel; an unknown format is a permanent error. `format` is the query
      parameter in lower case and `hostname` as the system reports it. */
  method Record(format: string, e: Event, hostname: string, pid: nat, detail: string) returns (record: Option<string>)
    requires OneLine(e.at) && OneLine(e.tenant)
    ensures record == None <==> format != "" && format != "rfc5424" && format != "cef"
    ensures format == "" || format == "rfc5424" ==>
              record == Some(Rfc5424(e, if hostname == "" then "-" else Scrub(hostname), pid, detail))
    ensures format == "cef" ==>
              exists keys :: AreSortedKeys(keys, e) && record == Some(Cef(e, if hostname == "" then "-" else Scrub(hostname), keys))
    ensures record.Some? ==> OneLine(record.value)
  {
    var host := HostField(hostname);
    assert Scrub("-") == "-";
    match FormatOf(format)
    case Rfc =>
      Rfc5424OneLine(e, host, pid, detail);
      record := Some(Rfc5424(e, host, pid, detail));
    case CefFormat =>
      var text := FormatCEF(e, host);
      ghost var keys :| AreSortedKeys(keys, e) && text == Cef(e, host, keys);
      CefOneLine(e, host, keys);
      record := Some(text);
    case Unknown(_) =>
      record := None;
  }
}
