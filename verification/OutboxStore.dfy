/** The delivery table and the dispatcher that works on it, one statement after
    the other, tied to the step functions of the concurrent model. */
module OutboxStore {
  import opened Common
  import opened Outbox

  ghost function PendingIds(rows: Rows): set<Id> {
    set id | id in rows && rows[id].state == Pending
  }

  function Ids(claims: seq<Claim>): seq<Id> {
    seq(|claims|, i requires 0 <= i < |claims| => claims[i].id)
  }

  /** How the next send of each row will end. */
  type Oracle = Id -> Outcome

  /** The table after the outcomes of a claimed batch have been recorded in turn. */
  function RecordAll(rows: Rows, claims: seq<Claim>, oracle: Oracle, now: Time): Rows {
    if claims == [] then rows
    else
      var c := claims[|claims| - 1];
      var before := RecordAll(rows, claims[..|claims| - 1], oracle, now);
      if c.id in before then before[c.id := Recorded(before[c.id], c.attempts, oracle(c.id), now)] else before
  }

  /** Each claimed row is recorded exactly once and no other row is touched. */
  lemma {:induction false} RecordAllRow(rows: Rows, claims: seq<Claim>, oracle: Oracle, now: Time, id: Id)
    requires id in rows
    requires forall i, j :: 0 <= i < j < |claims| ==> claims[i].id != claims[j].id
    ensures RecordAll(rows, claims, oracle, now).Keys == rows.Keys
    ensures forall i :: 0 <= i < |claims| && claims[i].id == id ==>
              RecordAll(rows, claims, oracle, now)[id] == Recorded(rows[id], claims[i].attempts, oracle(id), now)
    ensures id !in Ids(claims) ==> RecordAll(rows, claims, oracle, now)[id] == rows[id]
  {
    if claims != [] {
      var front := claims[..|claims| - 1];
      RecordAllRow(rows, front, oracle, now, id);
      assert forall i :: 0 <= i < |front| ==> Ids(claims)[i] == Ids(front)[i] == claims[i].id;
      assert Ids(claims)[|claims| - 1] == claims[|claims| - 1].id;
    }
  }

  /** A send that reached the receiver exactly when it was acknowledged. */
  function Told(w: WorkerId, outcome: Outcome): Step {
    Finish(w, outcome, outcome == Delivered)
  }

  /** The steps by which one worker sends its batch, each send taking no time. */
  ghost function FinishSteps(w: WorkerId, claims: seq<Claim>, oracle: Oracle): seq<Step> {
    if claims == [] then [] else FinishSteps(w, claims[..|claims| - 1], oracle) + [Told(w, oracle(claims[|claims| - 1].id))]
  }

  /** The state in which the worker has sent `n` rows of its batch and recorded exactly those. */
  ghost predicate HasSent(s: World, w: WorkerId, n: nat, oracle: Oracle, t: World)
    requires w in s.workers && s.workers[w].Sending? && n <= |s.workers[w].batch|
  {
    var k := s.workers[w];
    && t.rows == RecordAll(s.rows, k.batch[..n], oracle, k.now)
    && t.clock == s.clock
    && (n == 0 ==> t.workers == s.workers)
    && (0 < n < |k.batch| ==> t.workers == s.workers[w := k.(done := n, since := s.clock)])
    && (n == |k.batch| > 0 ==> t.workers == s.workers - {w})
  }

  lemma {:induction false} SendOneMore(b: Bounds, s: World, w: WorkerId, n: nat, oracle: Oracle, t: World)
    requires w in s.workers && s.workers[w].Sending? && s.workers[w].done == 0 && n < |s.workers[w].batch|
    requires HasSent(s, w, n, oracle, t)
    ensures var x := Told(w, oracle(s.workers[w].batch[n].id));
      Enabled(b, t, x) && HasSent(s, w, n + 1, oracle, Apply(b, t, x))
  {
    var k := s.workers[w];
    assert t.workers == s.workers[w := k.(done := n, since := if n == 0 then k.since else s.clock)];
    assert k.batch[..n + 1][..n] == k.batch[..n];
    FinishOne(b, s, t, w, n, oracle(k.batch[n].id));
  }

  /** A worker that has sent `n` rows of its batch has recorded exactly those. */
  lemma {:induction false} BatchIsARun(b: Bounds, s: World, w: WorkerId, n: nat, oracle: Oracle)
    requires w in s.workers && s.workers[w].Sending? && s.workers[w].done == 0
    requires n <= |s.workers[w].batch|
    ensures var steps := FinishSteps(w, s.workers[w].batch[..n], oracle);
      Run(b, s, steps) && HasSent(s, w, n, oracle, Final(b, s, steps))
  {
    var k := s.workers[w];
    if n == 0 {
      assert k.batch[..0] == [];
    } else {
      BatchIsARun(b, s, w, n - 1, oracle);
      var steps, x := FinishSteps(w, k.batch[..n - 1], oracle), Told(w, oracle(k.batch[n - 1].id));
      assert k.batch[..n][..n - 1] == k.batch[..n - 1];
      SendOneMore(b, s, w, n - 1, oracle, Final(b, s, steps));
      RunSnoc(b, s, steps, x);
    }
  }

  lemma {:induction false} FinishOne(b: Bounds, s: World, t: World, w: WorkerId, n: nat, outcome: Outcome)
    requires w in s.workers && s.workers[w].Sending? && n < |s.workers[w].batch|
    requires exists since :: t.workers == s.workers[w := s.workers[w].(done := n, since := since)]
    ensures Enabled(b, t, Told(w, outcome))
    ensures var k, u := s.workers[w], Apply(b, t, Told(w, outcome));
      && u.clock == t.clock
      && u.workers == (if n + 1 < |k.batch| then s.workers[w := k.(done := n + 1, since := t.clock)] else s.workers - {w})
      && u.rows == var c := k.batch[n];
                   if c.id in t.rows then t.rows[c.id := Recorded(t.rows[c.id], c.attempts, outcome, k.now)] else t.rows
  {
    assert t.workers[w].batch == s.workers[w].batch;
  }

  /** The due rows with the smallest ids, at most `limit` of them. */
  method SelectDue(rows: Rows, now: Time, limit: nat) returns (ids: seq<Id>)
    ensures Claimable(rows, now, limit, ids)
    ensures forall id :: Due(rows, now, id) && id !in ids ==> |ids| == limit && forall i :: 0 <= i < |ids| ==> ids[i] < id
  {
    var due := set id | id in rows && rows[id].state == Pending && rows[id].nextAttemptAt <= now;
    ids := [];
    while |ids| < limit && due != {}
      invariant Claimable(rows, now, limit, ids)
      invariant forall id :: Due(rows, now, id) <==> id in due || id in ids
      invariant forall id, i :: id in due && 0 <= i < |ids| ==> ids[i] < id
      decreases |due|
    {
      var least := Least(due);
      ids := ids + [least];
      due := due - {least};
    }
  }

  /** The `notification_deliveries` table. */
  class Store {
    var rows: Rows
    var nextId: Id

    ghost predicate Valid()
      reads this
    {
      forall id :: id in rows ==> id < nextId
    }

    constructor ()
      ensures Valid() && rows == map[]
    {
      rows, nextId := map[], 0;
    }

    /** One pending row per channel, due at once. */
    method EnqueueDeliveries(channels: nat, now: Time)
      requires Valid()
      modifies this
      ensures Valid()
      ensures forall id :: id in rows <==> id in old(rows) || old(nextId) <= id < nextId
      ensures nextId == old(nextId) + channels
      ensures forall id :: id in old(rows) ==> rows[id] == old(rows)[id]
      ensures forall id :: id in rows && id !in old(rows) ==> rows[id] == Row(Pending, 0, now, None)
    {
      for n := 0 to channels
        invariant Valid()
        invariant nextId == old(nextId) + n
        invariant forall id :: id in rows <==> id in old(rows) || old(nextId) <= id < nextId
        invariant forall id :: id in old(rows) ==> rows[id] == old(rows)[id]
        invariant forall id :: id in rows && id !in old(rows) ==> rows[id] == Row(Pending, 0, now, None)
      {
        rows := rows[nextId := Row(Pending, 0, now, None)];
        nextId := nextId + 1;
      }
    }

    /** Takes the due rows with the smallest ids, at most `limit` of them. */
    method ClaimDeliveries(now: Time, lease: Time, limit: nat) returns (claims: seq<Claim>)
      requires Valid()
      modifies this`rows
      ensures Valid()
      ensures Claimable(old(rows), now, limit, Ids(claims))
      ensures rows == Lease(old(rows), Ids(claims), now + lease)
      ensures claims == Claims(rows, Ids(claims))
      ensures forall i :: 0 <= i < |claims| ==>
                claims[i].id in old(rows) && old(rows)[claims[i].id].state == Pending && old(rows)[claims[i].id].nextAttemptAt <= now
      ensures forall id :: id in old(rows) && old(rows)[id].state == Pending && old(rows)[id].nextAttemptAt <= now && id !in Ids(claims) ==>
                |claims| == limit && forall i :: 0 <= i < |claims| ==> claims[i].id < id
    {
      var ids := SelectDue(rows, now, limit);
      rows := Lease(rows, ids, now + lease);
      claims := Claims(rows, ids);
      assert Ids(claims) == ids;
    }

    method FinishDelivery(id: Id, state: State, nextAttempt: Option<Time>, now: Time) returns (found: bool)
      requires Valid()
      modifies this`rows
      ensures Valid()
      ensures found <==> id in old(rows)
      ensures rows == if found then old(rows)[id := Finished(old(rows)[id], state, nextAttempt, now)] else old(rows)
    {
      found := id in rows;
      if found {
        rows := rows[id := Finished(rows[id], state, nextAttempt, now)];
      }
    }

    /** Records how the send of one claimed row ended. */
    method Settle(d: Claim, outcome: Outcome, now: Time) returns (sent: nat, failed: nat)
      requires Valid() && d.id in rows && rows[d.id].state == Pending
      modifies this`rows
      ensures Valid()
      ensures rows == old(rows)[d.id := Recorded(old(rows)[d.id], d.attempts, outcome, now)]
      ensures outcome == Delivered ==> rows[d.id].state == Sent && sent == 1 && failed == 0
      ensures outcome == Permanent || (outcome == Retryable && d.attempts >= 5) ==> rows[d.id].state == Failed && sent == 0 && failed == 1
      ensures outcome == Retryable && d.attempts < 5 ==>
                rows[d.id].state == Pending && sent == 0 && failed == 0 &&
                rows[d.id].nextAttemptAt == now + (if d.attempts == 1 then 60 else if d.attempts == 2 then 300 else 1800)
      ensures |PendingIds(rows)| + sent + failed == |PendingIds(old(rows))|
    {
      sent, failed := 0, 0;
      var found;
      match outcome {
        case Delivered =>
          sent := 1;
          found := FinishDelivery(d.id, Sent, None, now);
        case Permanent =>
          failed := 1;
          found := FinishDelivery(d.id, Failed, None, now);
        case Retryable =>
          match Backoff(d.attempts) {
            case GiveUp =>
              failed := 1;
              found := FinishDelivery(d.id, Failed, None, now);
            case RetryIn(delay) =>
              found := FinishDelivery(d.id, Pending, Some(now + delay), now);
          }
      }
      assert PendingIds(rows) == if sent + failed == 0 then PendingIds(old(rows)) else PendingIds(old(rows)) - {d.id};
    }

    /** Sends claimed rows one after the other. */
    method SendAll(claims: seq<Claim>, oracle: Oracle, now: Time) returns (sent: nat, failed: nat)
      requires Valid()
      requires forall i :: 0 <= i < |claims| ==> claims[i].id in rows && rows[claims[i].id].state == Pending
      requires forall i, j :: 0 <= i < j < |claims| ==> claims[i].id != claims[j].id
      modifies this`rows
      ensures Valid() && rows == RecordAll(old(rows), claims, oracle, now)
      ensures |PendingIds(rows)| + sent + failed == |PendingIds(old(rows))|
    {
      sent, failed := 0, 0;
      for n := 0 to |claims|
        invariant Valid()
        invariant rows == RecordAll(old(rows), claims[..n], oracle, now)
        invariant forall i :: n <= i < |claims| ==> claims[i].id in rows && rows[claims[i].id].state == Pending
        invariant |PendingIds(rows)| + sent + failed == |PendingIds(old(rows))|
      {
        assert claims[..n + 1][..n] == claims[..n];
        var s, f := Settle(claims[n], oracle(claims[n].id), now);
        sent, failed := sent + s, failed + f;
      }
      assert claims[..|claims|] == claims;
    }

    /** Claims one batch and sends it. `sent + failed` is exactly the number of rows
        that stopped being pending. */
    method Dispatch(now: Time, oracle: Oracle) returns (sent: nat, failed: nat)
      requires Valid()
      modifies this`rows
      ensures Valid()
      ensures exists ids :: Claimable(old(rows), now, CLAIM_BATCH, ids) &&
                rows == var leased := Lease(old(rows), ids, now + CLAIM_LEASE);
                        RecordAll(leased, Claims(leased, ids), oracle, now)
      ensures |PendingIds(rows)| + sent + failed == |PendingIds(old(rows))|
    {
      var claims := ClaimDeliveries(now, CLAIM_LEASE, CLAIM_BATCH);
      assert PendingIds(rows) == PendingIds(old(rows)) by {
        assert forall i :: 0 <= i < |claims| ==> Due(old(rows), now, Ids(claims)[i]);
      }
      assert forall i :: 0 <= i < |claims| ==> claims[i].id == Ids(claims)[i];
      sent, failed := SendAll(claims, oracle, now);
    }

    /** The dispatcher's inner loop: batches are dispatched until one finishes nothing.
        It ends after at most one more batch than there were pending rows. */
    method Drain(now: Time, oracle: Oracle) returns (batches: nat)
      requires Valid()
      modifies this`rows
      ensures Valid()
      ensures 1 <= batches <= |PendingIds(old(rows))| - |PendingIds(rows)| + 1
    {
      batches := 0;
      while true
        invariant Valid()
        invariant batches <= |PendingIds(old(rows))| - |PendingIds(rows)|
        decreases |PendingIds(rows)|
      {
        var sent, failed := Dispatch(now, oracle);
        batches := batches + 1;
        if sent + failed == 0 {
          break;
        }
      }
    }
  }
}
