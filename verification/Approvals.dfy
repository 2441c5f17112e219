/** Approval requests: one row per policy and hash, aggregated from block events. */
module Approvals {
  import opened Common

  /** An event without a time of its own carries the time at which it is stored. */
  datatype BlockEvent = BlockEvent(hash: string, path: string, signer: string, signerTbs: string, verified: bool, at: Option<Time>)

  datatype Facts = Facts(path: string, signer: string, signerTbs: string, verified: bool, count: nat, first: Time, last: Time)

  datatype Key = Key(policy: nat, hash: string)

  datatype Status = Pending | Approved | Denied | Expired

  datatype Decision = Decision(admin: nat, at: Time)

  /** A request with the devices recorded for it. */
  datatype Request = Request(facts: Facts, status: Status, devices: set<nat>, deviceCount: nat, decided: Option<Decision>)

  type Requests = map<Key, Request>

  function Min(a: Time, b: Time): Time { if b < a then b else a }

  function Max(a: Time, b: Time): Time { if b > a then b else a }

  function Or(a: string, b: string): string { if a == "" then b else a }

  /** The earlier facts win where they say something. */
  function Merge(a: Facts, b: Facts): Facts {
    Facts(Or(a.path, b.path), Or(a.signer, b.signer), Or(a.signerTbs, b.signerTbs), a.verified || b.verified,
          a.count + b.count, Min(a.first, b.first), Max(a.last, b.last))
  }

  function TimeOf(e: BlockEvent, now: Time): Time {
    if e.at.Some? then e.at.value else now
  }

  function Single(e: BlockEvent, now: Time): Facts {
    Facts(e.path, e.signer, e.signerTbs, e.verified, 1, TimeOf(e, now), TimeOf(e, now))
  }

  function Get<K, V>(m: map<K, V>, k: K): Option<V> {
    if k in m then Some(m[k]) else None
  }

  /** The row after facts seen on a device; a new row is pending. */
  function Touch(r: Option<Request>, device: nat, facts: Facts): Request {
    var base := if r.None? then Request(facts, Pending, {}, 0, None) else r.value.(facts := Merge(r.value.facts, facts));
    if device in base.devices then base else base.(devices := base.devices + {device}, deviceCount := base.deviceCount + 1)
  }

  function Upsert(t: Requests, key: Key, device: nat, facts: Facts): Requests {
    t[key := Touch(Get(t, key), device, facts)]
  }

  // ---- One batch ------------------------------------------------------------------------------------

  /** The batch's facts by hash. */
  function Aggregate(events: seq<BlockEvent>, now: Time): map<string, Facts> {
    if events == [] then map[]
    else
      var front, e := Aggregate(events[..|events| - 1], now), events[|events| - 1];
      if e.hash == "" then front
      else front[e.hash := if e.hash in front then Merge(front[e.hash], Single(e, now)) else Single(e, now)]
  }

  /** The hashes in the order of their first event. */
  function Order(events: seq<BlockEvent>): seq<string> {
    if events == [] then []
    else
      var front, e := Order(events[..|events| - 1]), events[|events| - 1];
      if e.hash == "" || e.hash in front then front else front + [e.hash]
  }

  lemma {:induction false} OrderMeaning(events: seq<BlockEvent>, now: Time)
    ensures forall h :: h in Order(events) <==> h in Aggregate(events, now)
    ensures forall i, j :: 0 <= i < j < |Order(events)| ==> Order(events)[i] != Order(events)[j]
  {
    if events != [] {
      OrderMeaning(events[..|events| - 1], now);
    }
  }

  /** The rows of the first hashes of the order are written, each with the facts of its hash. */
  function UpsertAll(t: Requests, policy: nat, device: nat, facts: map<string, Facts>, order: seq<string>): Requests
    requires forall h :: h in order ==> h in facts
  {
    if order == [] then t
    else
      var h := order[|order| - 1];
      Upsert(UpsertAll(t, policy, device, facts, order[..|order| - 1]), Key(policy, h), device, facts[h])
  }

  /** The keys of the order that had no row. */
  function NewKeys(t: Requests, policy: nat, order: seq<string>): seq<Key> {
    if order == [] then []
    else
      var front, key := NewKeys(t, policy, order[..|order| - 1]), Key(policy, order[|order| - 1]);
      if key in t then front else front + [key]
  }

  function Ingest(t: Requests, policy: nat, device: nat, events: seq<BlockEvent>, now: Time): Requests {
    OrderMeaning(events, now);
    UpsertAll(t, policy, device, Aggregate(events, now), Order(events))
  }

  // ---- One event at a time -----------------------------------------------------------------------------

  function IngestEach(t: Requests, policy: nat, device: nat, events: seq<BlockEvent>, now: Time): Requests {
    if events == [] then t
    else
      var front, e := IngestEach(t, policy, device, events[..|events| - 1], now), events[|events| - 1];
      if e.hash == "" then front else Upsert(front, Key(policy, e.hash), device, Single(e, now))
  }

  lemma {:induction false} MergeAssociative(a: Facts, b: Facts, c: Facts)
    ensures Merge(Merge(a, b), c) == Merge(a, Merge(b, c))
  {
  }

  /** Two writes for one device are one write of the merged facts. */
  lemma {:induction false} TouchTwice(r: Option<Request>, device: nat, a: Facts, b: Facts)
    ensures Touch(Some(Touch(r, device, a)), device, b) == Touch(r, device, Merge(a, b))
  {
    if r.Some? {
      MergeAssociative(r.value.facts, a, b);
    }
  }

  lemma {:induction false} BatchAt(t: Requests, policy: nat, device: nat, facts: map<string, Facts>, order: seq<string>, key: Key)
    requires forall h :: h in order ==> h in facts
    requires forall i, j :: 0 <= i < j < |order| ==> order[i] != order[j]
    ensures Get(UpsertAll(t, policy, device, facts, order), key) ==
            if key.policy == policy && key.hash in order then Some(Touch(Get(t, key), device, facts[key.hash])) else Get(t, key)
  {
    if order != [] {
      var n := |order| - 1;
      BatchAt(t, policy, device, facts, order[..n], key);
      assert order == order[..n] + [order[n]];
    }
  }

  lemma {:induction false} EachAt(t: Requests, policy: nat, device: nat, events: seq<BlockEvent>, now: Time, key: Key)
    ensures var facts := Aggregate(events, now);
      Get(IngestEach(t, policy, device, events, now), key) ==
      if key.policy == policy && key.hash in facts then Some(Touch(Get(t, key), device, facts[key.hash])) else Get(t, key)
  {
    if events != [] {
      var n := |events| - 1;
      var front, e := Aggregate(events[..n], now), events[n];
      EachAt(t, policy, device, events[..n], now, key);
      if key == Key(policy, e.hash) && e.hash in front {
        TouchTwice(Get(t, key), device, front[e.hash], Single(e, now));
      }
    }
  }

  lemma {:induction false} SameRows<K, V>(a: map<K, V>, b: map<K, V>)
    requires forall k :: Get(a, k) == Get(b, k)
    ensures a == b
  {
    forall k
      ensures k in a <==> k in b
      ensures k in a && k in b ==> a[k] == b[k]
    {
      assert Get(a, k) == Get(b, k);
    }
  }

  /** Aggregating a batch and writing each hash once is writing event by event. */
  lemma {:induction false} BatchIsFold(t: Requests, policy: nat, device: nat, events: seq<BlockEvent>, now: Time)
    ensures Ingest(t, policy, device, events, now) == IngestEach(t, policy, device, events, now)
  {
    OrderMeaning(events, now);
    forall key
      ensures Get(Ingest(t, policy, device, events, now), key) == Get(IngestEach(t, policy, device, events, now), key)
    {
      BatchAt(t, policy, device, Aggregate(events, now), Order(events), key);
      EachAt(t, policy, device, events, now, key);
    }
    SameRows(Ingest(t, policy, device, events, now), IngestEach(t, policy, device, events, now));
  }

  lemma {:induction false} EachConcat(t: Requests, policy: nat, device: nat, a: seq<BlockEvent>, b: seq<BlockEvent>, now: Time)
    ensures IngestEach(t, policy, device, a + b, now) == IngestEach(IngestEach(t, policy, device, a, now), policy, device, b, now)
    decreases |b|
  {
    if b == [] {
      assert a + b == a;
    } else {
      var n := |b| - 1;
      assert (a + b)[..|a| + n] == a + b[..n];
      EachConcat(t, policy, device, a, b[..n], now);
    }
  }

  ghost predicate Timed(events: seq<BlockEvent>) {
    forall i :: 0 <= i < |events| ==> events[i].at.Some?
  }

  lemma {:induction false} ClockUnused(t: Requests, policy: nat, device: nat, events: seq<BlockEvent>, now: Time, later: Time)
    requires Timed(events)
    ensures IngestEach(t, policy, device, events, now) == IngestEach(t, policy, device, events, later)
  {
    if events != [] {
      ClockUnused(t, policy, device, events[..|events| - 1], now, later);
    }
  }

  /** A batch with the time at which it is stored. */
  datatype Batch = Batch(events: seq<BlockEvent>, now: Time)

  function Flatten(batches: seq<Batch>): seq<BlockEvent> {
    if batches == [] then [] else Flatten(batches[..|batches| - 1]) + batches[|batches| - 1].events
  }

  function IngestBatches(t: Requests, policy: nat, device: nat, batches: seq<Batch>): Requests {
    if batches == [] then t
    else
      var b := batches[|batches| - 1];
      Ingest(IngestBatches(t, policy, device, batches[..|batches| - 1]), policy, device, b.events, b.now)
  }

  /** Timed events give the same rows however they are cut into consecutive batches. */
  lemma {:induction false} BatchIndependence(t: Requests, policy: nat, device: nat, batches: seq<Batch>, now: Time)
    requires Timed(Flatten(batches))
    ensures IngestBatches(t, policy, device, batches) == Ingest(t, policy, device, Flatten(batches), now)
  {
    BatchIsFold(t, policy, device, Flatten(batches), now);
    if batches != [] {
      var n := |batches| - 1;
      var front, b := batches[..n], batches[n];
      FlattenTimed(front, b);
      BatchIndependence(t, policy, device, front, now);
      BatchIsFold(t, policy, device, Flatten(front), now);
      var before := IngestBatches(t, policy, device, front);
      BatchIsFold(before, policy, device, b.events, b.now);
      ClockUnused(before, policy, device, b.events, b.now, now);
      EachConcat(t, policy, device, Flatten(front), b.events, now);
    }
  }

  lemma {:induction false} FlattenTimed(front: seq<Batch>, b: Batch)
    requires Timed(Flatten(front) + b.events)
    ensures Timed(Flatten(front)) && Timed(b.events)
  {
    var all := Flatten(front) + b.events;
    assert forall i :: 0 <= i < |Flatten(front)| ==> all[i] == Flatten(front)[i];
    assert forall i :: 0 <= i < |b.events| ==> all[|Flatten(front)| + i] == b.events[i];
  }

  // ---- Runs ------------------------------------------------------------------------------------------------

  datatype Op =
    | Report(policy: nat, device: nat, events: seq<BlockEvent>, now: Time)
    | Decide(key: Key, approve: bool, admin: nat, at: Time)
    | Expire(before: Time)

  function DecideRow(r: Request, approve: bool, admin: nat, at: Time): Request {
    if r.status == Pending then r.(status := if approve then Approved else Denied, decided := Some(Decision(admin, at))) else r
  }

  function ExpireRow(r: Request, before: Time): Request {
    if r.status == Pending && r.facts.last < before then r.(status := Expired) else r
  }

  function Step(t: Requests, op: Op): Requests {
    match op
    case Report(policy, device, events, now) => Ingest(t, policy, device, events, now)
    case Decide(key, approve, admin, at) => if key in t then t[key := DecideRow(t[key], approve, admin, at)] else t
    case Expire(before) => map k | k in t :: ExpireRow(t[k], before)
  }

  function Final(t: Requests, run: seq<Op>): Requests {
    if run == [] then t else Step(Final(t, run[..|run| - 1]), run[|run| - 1])
  }

  /** The rows one operation reports as new. */
  function Reported(t: Requests, op: Op): seq<Key> {
    if op.Report? then NewKeys(t, op.policy, Order(op.events)) else []
  }

  function AllReported(t: Requests, run: seq<Op>): seq<Key> {
    if run == [] then []
    else AllReported(t, run[..|run| - 1]) + Reported(Final(t, run[..|run| - 1]), run[|run| - 1])
  }
}
