/** Approval requests over whole runs of reports, decisions and expiry sweeps. */
module ApprovalRuns {
  import opened Common
  import opened Approvals

  // ---- Status ---------------------------------------------------------------------------------------

  /** A report changes neither the status nor the decision of any row, and removes none. */
  lemma {:induction false} ReportKeepsStatus(t: Requests, policy: nat, device: nat, events: seq<BlockEvent>, now: Time, key: Key)
    requires key in t
    ensures var to := Ingest(t, policy, device, events, now);
      key in to && to[key].status == t[key].status && to[key].decided == t[key].decided
  {
    BatchIsFold(t, policy, device, events, now);
    EachAt(t, policy, device, events, now, key);
    assert Get(t, key) == Some(t[key]);
    assert Get(IngestEach(t, policy, device, events, now), key).Some?;
  }

  lemma {:induction false} StepKeepsRow(t: Requests, op: Op, key: Key)
    requires key in t
    ensures var to := Step(t, op);
      && key in to
      && (t[key].status != Pending ==> to[key].status == t[key].status && to[key].decided == t[key].decided)
  {
    if op.Report? {
      ReportKeepsStatus(t, op.policy, op.device, op.events, op.now, key);
    }
  }

  /** Whatever happens later, a row stays, and once not pending it keeps its status and decision. */
  lemma {:induction false} DecisionIsFinal(t: Requests, run: seq<Op>, key: Key)
    requires key in t
    ensures var to := Final(t, run);
      && key in to
      && (t[key].status != Pending ==> to[key].status == t[key].status && to[key].decided == t[key].decided)
  {
    if run != [] {
      DecisionIsFinal(t, run[..|run| - 1], key);
      StepKeepsRow(Final(t, run[..|run| - 1]), run[|run| - 1], key);
    }
  }

  // ---- Where a status comes from -----------------------------------------------------------------------

  ghost predicate IsPending(t: Requests, key: Key) {
    key in t && t[key].status == Pending
  }

  /** Operation `i` of the run decided the request, which was pending at that point. */
  ghost predicate DecidedAt(run: seq<Op>, i: int, key: Key, approve: bool) {
    && 0 <= i < |run| && run[i].Decide? && run[i].key == key && run[i].approve == approve
    && IsPending(Final(map[], run[..i]), key)
  }

  /** Operation `i` of the run swept the pending request, last seen before the given time. */
  ghost predicate ExpiredAt(run: seq<Op>, i: int, key: Key) {
    && 0 <= i < |run| && run[i].Expire?
    && IsPending(Final(map[], run[..i]), key) && Final(map[], run[..i])[key].facts.last < run[i].before
  }

  /** The status tells which operation of the run closed the request. */
  ghost predicate StatusFits(run: seq<Op>, key: Key, status: Status) {
    && (status == Approved <==> exists i :: DecidedAt(run, i, key, true))
    && (status == Denied <==> exists i :: DecidedAt(run, i, key, false))
    && (status == Expired <==> exists i :: ExpiredAt(run, i, key))
  }

  /** A decision is that of the operation that closed the request; otherwise there is none. */
  ghost predicate DecisionFits(run: seq<Op>, key: Key, row: Request) {
    && (forall i, approve :: DecidedAt(run, i, key, approve) ==> row.decided == Some(Decision(run[i].admin, run[i].at)))
    && (row.status == Pending || row.status == Expired ==> row.decided == None)
  }

  lemma {:induction false} PrefixDecides(run: seq<Op>, n: nat, key: Key)
    requires n <= |run|
    ensures forall i, approve :: i < n ==> (DecidedAt(run[..n], i, key, approve) <==> DecidedAt(run, i, key, approve))
    ensures forall i :: i < n ==> (ExpiredAt(run[..n], i, key) <==> ExpiredAt(run, i, key))
  {
    forall i | 0 <= i < n
      ensures run[..n][..i] == run[..i] && run[..n][i] == run[i]
    {
    }
  }

  lemma {:induction false} RowStays(run: seq<Op>, i: nat, key: Key)
    requires i <= |run| && key in Final(map[], run[..i])
    ensures key in Final(map[], run)
    decreases |run|
  {
    if i == |run| {
      assert run[..i] == run;
    } else {
      var n := |run| - 1;
      assert run[..n][..i] == run[..i];
      RowStays(run[..n], i, key);
      StepKeepsRow(Final(map[], run[..n]), run[n], key);
    }
  }

  lemma {:induction false} NewRowIsPending(t: Requests, op: Op, key: Key)
    requires key !in t && key in Step(t, op)
    ensures Step(t, op)[key].status == Pending && Step(t, op)[key].decided == None
  {
    BatchIsFold(t, op.policy, op.device, op.events, op.now);
    EachAt(t, op.policy, op.device, op.events, op.now, key);
    assert Get(t, key) == None && Get(Step(t, op), key) == Some(Step(t, op)[key]);
  }

  lemma {:induction false} NothingBefore(run: seq<Op>, key: Key)
    requires key !in Final(map[], run)
    ensures forall i, approve :: !DecidedAt(run, i, key, approve)
    ensures forall i :: !ExpiredAt(run, i, key)
  {
    forall i: nat | i < |run|
      ensures !IsPending(Final(map[], run[..i]), key)
    {
      if key in Final(map[], run[..i]) {
        RowStays(run, i, key);
      }
    }
  }

  /** What one more operation does to the status of an existing row. */
  lemma {:induction false} LastOp(run: seq<Op>, key: Key)
    requires run != [] && key in Final(map[], run[..|run| - 1])
    ensures key in Final(map[], run)
    ensures var n := |run| - 1;
      var op, was, row := run[n], Final(map[], run[..n])[key], Final(map[], run)[key];
      && (DecidedAt(run, n, key, true) ==> row.status == Approved && row.decided == Some(Decision(op.admin, op.at)))
      && (DecidedAt(run, n, key, false) ==> row.status == Denied && row.decided == Some(Decision(op.admin, op.at)))
      && (ExpiredAt(run, n, key) ==> row.status == Expired && row.decided == was.decided)
      && (!DecidedAt(run, n, key, true) && !DecidedAt(run, n, key, false) && !ExpiredAt(run, n, key) ==>
            row.status == was.status && row.decided == was.decided)
      && (was.status != Pending ==> !DecidedAt(run, n, key, true) && !DecidedAt(run, n, key, false) && !ExpiredAt(run, n, key))
  {
    var n := |run| - 1;
    var t := Final(map[], run[..n]);
    StepKeepsRow(t, run[n], key);
    if run[n].Report? {
      ReportKeepsStatus(t, run[n].policy, run[n].device, run[n].events, run[n].now, key);
    }
  }

  lemma {:induction false} StatusStep(run: seq<Op>, key: Key)
    requires run != [] && key in Final(map[], run[..|run| - 1])
    requires StatusFits(run[..|run| - 1], key, Final(map[], run[..|run| - 1])[key].status)
    ensures key in Final(map[], run) && StatusFits(run, key, Final(map[], run)[key].status)
  {
    LastOp(run, key);
    DecidedStep(run, key, true);
    DecidedStep(run, key, false);
    ExpiredStep(run, key);
  }

  lemma {:induction false} DecisionStep(run: seq<Op>, key: Key)
    requires run != [] && key in Final(map[], run[..|run| - 1])
    requires StatusFits(run[..|run| - 1], key, Final(map[], run[..|run| - 1])[key].status)
    requires DecisionFits(run[..|run| - 1], key, Final(map[], run[..|run| - 1])[key])
    ensures key in Final(map[], run) && DecisionFits(run, key, Final(map[], run)[key])
  {
    var n := |run| - 1;
    LastOp(run, key);
    PrefixDecides(run, n, key);
    var row := Final(map[], run)[key];
    forall i, approve | DecidedAt(run, i, key, approve)
      ensures row.decided == Some(Decision(run[i].admin, run[i].at))
    {
      if i < n {
        assert DecidedAt(run[..n], i, key, approve);
        assert run[..n][i] == run[i];
      }
    }
  }

  lemma {:induction false} DecidedStep(run: seq<Op>, key: Key, approve: bool)
    requires run != []
    ensures var n := |run| - 1;
      (exists i :: DecidedAt(run, i, key, approve)) <==>
        DecidedAt(run, n, key, approve) || exists i :: DecidedAt(run[..n], i, key, approve)
  {
    var n := |run| - 1;
    PrefixDecides(run, n, key);
    if i :| DecidedAt(run, i, key, approve) {
      assert i == n || DecidedAt(run[..n], i, key, approve);
    }
    if i :| DecidedAt(run[..n], i, key, approve) {
      assert DecidedAt(run, i, key, approve);
    }
  }

  lemma {:induction false} ExpiredStep(run: seq<Op>, key: Key)
    requires run != []
    ensures var n := |run| - 1;
      (exists i :: ExpiredAt(run, i, key)) <==> ExpiredAt(run, n, key) || exists i :: ExpiredAt(run[..n], i, key)
  {
    var n := |run| - 1;
    PrefixDecides(run, n, key);
    if i :| ExpiredAt(run, i, key) {
      assert i == n || ExpiredAt(run[..n], i, key);
    }
    if i :| ExpiredAt(run[..n], i, key) {
      assert ExpiredAt(run, i, key);
    }
  }

  /** In every run: a request is approved if and only if it was pending when somebody approved
      it, denied if and only if it was pending when somebody denied it, and then carries that
      admin and time; it is expired if and only if it was pending and without recent activity
      when a sweep came; and otherwise it is pending without a decision. */
  lemma {:induction false} StatusHistory(run: seq<Op>, key: Key)
    requires key in Final(map[], run)
    ensures StatusFits(run, key, Final(map[], run)[key].status)
    ensures DecisionFits(run, key, Final(map[], run)[key])
  {
    var n := |run| - 1;
    var front := run[..n];
    if key in Final(map[], front) {
      StatusHistory(front, key);
      StatusStep(run, key);
      DecisionStep(run, key);
    } else {
      NewRowIsPending(Final(map[], front), run[n], key);
      NothingBefore(front, key);
      DecidedStep(run, key, true);
      DecidedStep(run, key, false);
      ExpiredStep(run, key);
    }
  }

  // ---- New rows are reported once ----------------------------------------------------------------------

  lemma {:induction false} NewKeysMeaning(t: Requests, policy: nat, order: seq<string>, key: Key)
    requires forall i, j :: 0 <= i < j < |order| ==> order[i] != order[j]
    ensures multiset(NewKeys(t, policy, order))[key] ==
            if key.policy == policy && key.hash in order && key !in t then 1 else 0
  {
    if order != [] {
      NewKeysMeaning(t, policy, order[..|order| - 1], key);
      NewKeysStep(t, policy, order, key);
      InFront(order, key.hash);
    }
  }

  lemma {:induction false} NewKeysStep(t: Requests, policy: nat, order: seq<string>, key: Key)
    requires order != []
    ensures multiset(NewKeys(t, policy, order))[key] ==
            multiset(NewKeys(t, policy, order[..|order| - 1]))[key] +
            if key == Key(policy, order[|order| - 1]) && key !in t then 1 else 0
  {
    OneMore(NewKeys(t, policy, order[..|order| - 1]), Key(policy, order[|order| - 1]), key);
  }

  lemma {:induction false} OneMore(keys: seq<Key>, last: Key, key: Key)
    ensures multiset(keys + [last])[key] == multiset(keys)[key] + if key == last then 1 else 0
  {
  }

  lemma {:induction false} InFront(order: seq<string>, h: string)
    requires order != [] && forall i, j :: 0 <= i < j < |order| ==> order[i] != order[j]
    ensures h in order <==> h in order[..|order| - 1] || h == order[|order| - 1]
    ensures order[|order| - 1] !in order[..|order| - 1]
  {
    var n := |order| - 1;
    assert order == order[..n] + [order[n]];
  }

  lemma {:induction false} ReportedMeaning(t: Requests, op: Op, key: Key)
    ensures multiset(Reported(t, op))[key] == if key !in t && key in Step(t, op) then 1 else 0
  {
    if op.Report? {
      OrderMeaning(op.events, op.now);
      NewKeysMeaning(t, op.policy, Order(op.events), key);
      BatchAt(t, op.policy, op.device, Aggregate(op.events, op.now), Order(op.events), key);
    }
  }

  /** Over a run each row that exists at the end is reported as new exactly once, and no other. */
  lemma {:induction false} ReportedOnce(run: seq<Op>, key: Key)
    ensures multiset(AllReported(map[], run))[key] == if key in Final(map[], run) then 1 else 0
  {
    if run != [] {
      var n := |run| - 1;
      var before := Final(map[], run[..n]);
      ReportedOnce(run[..n], key);
      ReportedMeaning(before, run[n], key);
      if key in before {
        StepKeepsRow(before, run[n], key);
      }
    }
  }

  // ---- What a row says ------------------------------------------------------------------------------------

  /** An event on a device, at the time it counts for. */
  datatype Seen = Seen(device: nat, event: BlockEvent, at: Time)

  function SeenIn(device: nat, events: seq<BlockEvent>, now: Time, hash: string): seq<Seen> {
    if events == [] then []
    else
      var e := events[|events| - 1];
      SeenIn(device, events[..|events| - 1], now, hash) +
      if e.hash == hash && hash != "" then [Seen(device, e, TimeOf(e, now))] else []
  }

  function OpSeen(op: Op, key: Key): seq<Seen> {
    if op.Report? && op.policy == key.policy then SeenIn(op.device, op.events, op.now, key.hash) else []
  }

  /** Every event of the run that belongs to the key. */
  function AllSeen(run: seq<Op>, key: Key): seq<Seen> {
    if run == [] then [] else AllSeen(run[..|run| - 1], key) + OpSeen(run[|run| - 1], key)
  }

  /** The columns that decisions leave alone. */
  datatype Core = Core(facts: Facts, devices: set<nat>, deviceCount: nat)

  function CoreOf(r: Option<Request>): Option<Core> {
    if r.None? then None else Some(Core(r.value.facts, r.value.devices, r.value.deviceCount))
  }

  function Absorb(c: Option<Core>, s: Seen): Core {
    var facts := Facts(s.event.path, s.event.signer, s.event.signerTbs, s.event.verified, 1, s.at, s.at);
    if c.None? then Core(facts, {s.device}, 1)
    else
      Core(Merge(c.value.facts, facts), c.value.devices + {s.device},
           c.value.deviceCount + if s.device in c.value.devices then 0 else 1)
  }

  function AbsorbAll(c: Option<Core>, seen: seq<Seen>): Option<Core> {
    if seen == [] then c else Some(Absorb(AbsorbAll(c, seen[..|seen| - 1]), seen[|seen| - 1]))
  }

  lemma {:induction false} AbsorbConcat(c: Option<Core>, a: seq<Seen>, b: seq<Seen>)
    ensures AbsorbAll(c, a + b) == AbsorbAll(AbsorbAll(c, a), b)
    decreases |b|
  {
    if b == [] {
      assert a + b == a;
    } else {
      var n := |b| - 1;
      assert (a + b)[..|a| + n] == a + b[..n];
      AbsorbConcat(c, a, b[..n]);
    }
  }

  lemma {:induction false} TouchCore(r: Option<Request>, device: nat, e: BlockEvent, now: Time)
    ensures CoreOf(Some(Touch(r, device, Single(e, now)))) == Some(Absorb(CoreOf(r), Seen(device, e, TimeOf(e, now))))
  {
    var none: set<nat> := {};
    assert none + {device} == {device};
    if r.Some? && device in r.value.devices {
      assert r.value.devices + {device} == r.value.devices;
    }
  }

  lemma {:induction false} EachCore(t: Requests, policy: nat, device: nat, events: seq<BlockEvent>, now: Time, key: Key)
    ensures CoreOf(Get(IngestEach(t, policy, device, events, now), key)) ==
            if policy == key.policy then AbsorbAll(CoreOf(Get(t, key)), SeenIn(device, events, now, key.hash)) else CoreOf(Get(t, key))
  {
    if events != [] {
      var n := |events| - 1;
      var front, e := events[..n], events[n];
      EachCore(t, policy, device, front, now, key);
      if Key(policy, e.hash) == key && e.hash != "" {
        TouchCore(Get(IngestEach(t, policy, device, front, now), key), device, e, now);
        var seen, x := SeenIn(device, front, now, key.hash), Seen(device, e, TimeOf(e, now));
        assert (seen + [x])[..|seen|] == seen;
      } else if policy == key.policy {
        assert SeenIn(device, events, now, key.hash) == SeenIn(device, front, now, key.hash);
      }
    }
  }

  lemma {:induction false} StepCore(t: Requests, op: Op, key: Key)
    ensures CoreOf(Get(Step(t, op), key)) == AbsorbAll(CoreOf(Get(t, key)), OpSeen(op, key))
  {
    if op.Report? {
      BatchIsFold(t, op.policy, op.device, op.events, op.now);
      EachCore(t, op.policy, op.device, op.events, op.now, key);
    }
  }

  lemma {:induction false} RunCore(run: seq<Op>, key: Key)
    ensures CoreOf(Get(Final(map[], run), key)) == AbsorbAll(None, AllSeen(run, key))
  {
    if run != [] {
      var n := |run| - 1;
      RunCore(run[..n], key);
      StepCore(Final(map[], run[..n]), run[n], key);
      AbsorbConcat(None, AllSeen(run[..n], key), OpSeen(run[n], key));
    }
  }

  // ---- The meaning of the columns ----------------------------------------------------------------------------

  /** The first text that is not empty, if there is one. */
  ghost predicate FirstSaid(x: string, texts: seq<string>) {
    if x == "" then forall i :: 0 <= i < |texts| ==> texts[i] == ""
    else exists i :: 0 <= i < |texts| && texts[i] == x && forall j :: 0 <= j < i ==> texts[j] == ""
  }

  function Paths(seen: seq<Seen>): seq<string> {
    seq(|seen|, i requires 0 <= i < |seen| => seen[i].event.path)
  }

  function Signers(seen: seq<Seen>): seq<string> {
    seq(|seen|, i requires 0 <= i < |seen| => seen[i].event.signer)
  }

  function SignerHashes(seen: seq<Seen>): seq<string> {
    seq(|seen|, i requires 0 <= i < |seen| => seen[i].event.signerTbs)
  }

  ghost predicate TimesSpanned(first: Time, last: Time, seen: seq<Seen>) {
    && (forall i :: 0 <= i < |seen| ==> first <= seen[i].at <= last)
    && (exists i :: 0 <= i < |seen| && seen[i].at == first)
    && (exists i :: 0 <= i < |seen| && seen[i].at == last)
  }

  ghost predicate Summarises(f: Facts, seen: seq<Seen>) {
    && f.count == |seen|
    && (f.verified <==> exists i :: 0 <= i < |seen| && seen[i].event.verified)
    && TimesSpanned(f.first, f.last, seen)
    && FirstSaid(f.path, Paths(seen)) && FirstSaid(f.signer, Signers(seen)) && FirstSaid(f.signerTbs, SignerHashes(seen))
  }

  ghost predicate DevicesAre(devices: set<nat>, seen: seq<Seen>) {
    forall d: nat :: d in devices <==> exists i :: 0 <= i < |seen| && seen[i].device == d
  }

  lemma {:induction false} FirstSaidStep(x: string, texts: seq<string>, y: string)
    requires FirstSaid(x, texts)
    ensures FirstSaid(Or(x, y), texts + [y])
  {
    var all := texts + [y];
    assert forall i :: 0 <= i < |texts| ==> all[i] == texts[i];
    if x == "" {
      assert all[|texts|] == y;
    } else {
      var i :| 0 <= i < |texts| && texts[i] == x && forall j :: 0 <= j < i ==> texts[j] == "";
      assert all[i] == x;
    }
  }

  lemma {:induction false} TimesStep(first: Time, last: Time, seen: seq<Seen>, s: Seen)
    requires TimesSpanned(first, last, seen)
    ensures TimesSpanned(Min(first, s.at), Max(last, s.at), seen + [s])
  {
    var all := seen + [s];
    var i :| 0 <= i < |seen| && seen[i].at == first;
    var j :| 0 <= j < |seen| && seen[j].at == last;
    assert all[i] == seen[i] && all[j] == seen[j] && all[|seen|] == s;
  }

  lemma {:induction false} DevicesStep(devices: set<nat>, seen: seq<Seen>, s: Seen)
    requires DevicesAre(devices, seen)
    ensures DevicesAre(devices + {s.device}, seen + [s])
  {
    var all := seen + [s];
    assert forall i :: 0 <= i < |seen| ==> all[i] == seen[i];
    assert all[|seen|] == s;
  }

  lemma {:induction false} TextsStep(seen: seq<Seen>, s: Seen)
    ensures Paths(seen + [s]) == Paths(seen) + [s.event.path]
    ensures Signers(seen + [s]) == Signers(seen) + [s.event.signer]
    ensures SignerHashes(seen + [s]) == SignerHashes(seen) + [s.event.signerTbs]
  {
  }

  lemma {:induction false} FlagStep(flag: bool, seen: seq<Seen>, s: Seen)
    requires flag <==> exists i :: 0 <= i < |seen| && seen[i].event.verified
    ensures (flag || s.event.verified) <==> exists i :: 0 <= i < |seen + [s]| && (seen + [s])[i].event.verified
  {
    var all := seen + [s];
    assert forall i :: 0 <= i < |seen| ==> all[i] == seen[i];
    assert all[|seen|] == s;
  }

  lemma {:induction false} SummaryStep(f: Facts, seen: seq<Seen>, s: Seen)
    requires Summarises(f, seen)
    ensures Summarises(Merge(f, Facts(s.event.path, s.event.signer, s.event.signerTbs, s.event.verified, 1, s.at, s.at)), seen + [s])
  {
    TextsStep(seen, s);
    FirstSaidStep(f.path, Paths(seen), s.event.path);
    FirstSaidStep(f.signer, Signers(seen), s.event.signer);
    FirstSaidStep(f.signerTbs, SignerHashes(seen), s.event.signerTbs);
    TimesStep(f.first, f.last, seen, s);
    FlagStep(f.verified, seen, s);
  }

  lemma {:induction false} SummaryOfOne(s: Seen)
    ensures Summarises(Facts(s.event.path, s.event.signer, s.event.signerTbs, s.event.verified, 1, s.at, s.at), [s])
  {
    TextsStep([], s);
    assert [] + [s] == [s];
    FirstSaidStep("", [], s.event.path);
    FirstSaidStep("", [], s.event.signer);
    FirstSaidStep("", [], s.event.signerTbs);
    assert [s][0] == s;
  }

  lemma {:induction false} CoreMeaning(seen: seq<Seen>)
    requires seen != []
    ensures Describes(AbsorbAll(None, seen).value, seen)
  {
    var n := |seen| - 1;
    var front, s := seen[..n], seen[n];
    assert seen == front + [s];
    if n == 0 {
      assert front == [];
      FirstCore(s);
    } else {
      CoreMeaning(front);
      NextCore(AbsorbAll(None, front).value, front, s);
    }
  }

  ghost predicate Describes(c: Core, seen: seq<Seen>) {
    Summarises(c.facts, seen) && DevicesAre(c.devices, seen) && c.deviceCount == |c.devices|
  }

  lemma {:induction false} FirstCore(s: Seen)
    ensures Describes(Absorb(None, s), [s])
  {
    var none: set<nat> := {};
    SummaryOfOne(s);
    assert DevicesAre(none, []);
    DevicesStep(none, [], s);
    assert none + {s.device} == {s.device} && [] + [s] == [s];
  }

  lemma {:induction false} NextCore(c: Core, front: seq<Seen>, s: Seen)
    requires Describes(c, front)
    ensures Describes(Absorb(Some(c), s), front + [s])
  {
    SummaryStep(c.facts, front, s);
    DevicesStep(c.devices, front, s);
    if s.device in c.devices {
      assert c.devices + {s.device} == c.devices;
    }
  }

  /** After any run a row exists exactly for the keys with an event, and it holds their number,
      first and last time, first non-empty texts, whether any was verified and the number of
      distinct devices, however the events were batched and whatever was decided meanwhile. */
  lemma {:induction false} RowMeaning(run: seq<Op>, key: Key)
    ensures var rows, seen := Final(map[], run), AllSeen(run, key);
      && (key in rows <==> seen != [])
      && (key in rows ==>
            && Summarises(rows[key].facts, seen)
            && DevicesAre(rows[key].devices, seen) && rows[key].deviceCount == |rows[key].devices|)
  {
    var rows, seen := Final(map[], run), AllSeen(run, key);
    RunCore(run, key);
    if seen != [] {
      CoreMeaning(seen);
      assert Get(rows, key).Some?;
    }
  }
}
