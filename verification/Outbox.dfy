/** The notification outbox: delivery rows are leased to workers that send a
    batch one row after the other and record each outcome. */
module Outbox {
  import opened Common

  type Id = int
  type WorkerId = nat

  const CLAIM_LEASE: Time := 600
  const CLAIM_BATCH: nat := 10
  const MAX_ATTEMPTS: nat := 5

  datatype State = Pending | Sent | Failed

  datatype Row = Row(state: State, attempts: nat, nextAttemptAt: Time, sentAt: Option<Time>)

  type Rows = map<Id, Row>

  /** A claimed row as the dispatcher sees it: its id and its attempt number. */
  datatype Claim = Claim(id: Id, attempts: nat)

  /** How one send ended. */
  datatype Outcome = Delivered | Retryable | Permanent

  datatype Retry = GiveUp | RetryIn(delay: Time)

  function Backoff(attempt: int): (r: Retry)
    ensures r.GiveUp? <==> attempt >= MAX_ATTEMPTS
    ensures r.RetryIn? ==> 60 <= r.delay <= 1800
    ensures forall earlier: int :: 1 <= earlier <= attempt && r.RetryIn? ==> DelayOf(earlier) <= r.delay
  {
    if attempt >= MAX_ATTEMPTS then GiveUp else RetryIn(DelayOf(attempt))
  }

  function DelayOf(attempt: int): Time {
    if attempt == 1 then 60 else if attempt == 2 then 300 else 1800
  }

  // ---- The store's statements -------------------------------------------------

  predicate Due(rows: Rows, now: Time, id: Id) {
    id in rows && rows[id].state == Pending && rows[id].nextAttemptAt <= now
  }

  ghost predicate Increasing(ids: seq<Id>) {
    forall i, j :: 0 <= i < j < |ids| ==> ids[i] < ids[j]
  }

  /** A claim takes at most `limit` due rows in id order. Rows another statement
      has locked are skipped, so any such list is possible. */
  ghost predicate Claimable(rows: Rows, now: Time, limit: nat, ids: seq<Id>) {
    && |ids| <= limit
    && Increasing(ids)
    && forall i :: 0 <= i < |ids| ==> Due(rows, now, ids[i])
  }

  function Lease(rows: Rows, ids: seq<Id>, until: Time): Rows {
    map id | id in rows ::
      if id in ids then rows[id].(attempts := rows[id].attempts + 1, nextAttemptAt := until) else rows[id]
  }

  function Claims(rows: Rows, ids: seq<Id>): seq<Claim>
    requires forall i :: 0 <= i < |ids| ==> ids[i] in rows
  {
    seq(|ids|, i requires 0 <= i < |ids| => Claim(ids[i], rows[ids[i]].attempts))
  }

  /** The row written by `FinishDelivery`; neither the old state nor the lease is consulted. */
  function Finished(row: Row, state: State, nextAttempt: Option<Time>, now: Time): Row {
    row.(state := state,
         nextAttemptAt := if nextAttempt.Some? then nextAttempt.value else now,
         sentAt := if state == Sent then Some(now) else None)
  }

  /** What `Dispatch` writes after one send of a claimed row. */
  function Recorded(row: Row, attempts: nat, outcome: Outcome, now: Time): Row {
    match outcome
    case Delivered => Finished(row, Sent, None, now)
    case Permanent => Finished(row, Failed, None, now)
    case Retryable =>
      match Backoff(attempts)
      case GiveUp => Finished(row, Failed, None, now)
      case RetryIn(delay) => Finished(row, Pending, Some(now + delay), now)
  }

  // ---- Workers on a shared clock ----------------------------------------------

  /** `Reading`: the dispatcher has read its clock and its claim has not committed.
      `Sending`: rows `batch[done..]` are held and `batch[done]` is being sent since `since`. */
  datatype Worker =
    | Reading(now: Time)
    | Sending(now: Time, batch: seq<Claim>, done: nat, since: Time)

  /** `workers` holds the busy workers only. Per row: `losses` counts claims whose outcome
      was never recorded (a crash, or a failed finish), `received` what the receivers got, and
      `unacknowledged` sends that reached the receiver and were recorded as an error. Of the
      recorded outcomes, `delivered` counts the good ones, `permanent` the permanent errors
      and `exhausted` the retryable errors at the fifth attempt or later. */
  datatype World = World(clock: Time, rows: Rows, workers: map<WorkerId, Worker>,
                         losses: multiset<Id>, received: multiset<Id>, unacknowledged: multiset<Id>,
                         delivered: multiset<Id>, permanent: multiset<Id>, exhausted: multiset<Id>)

  /** Environment bounds: a claim commits within `claim` of reading the clock and
      one send, including its finish, takes at most `send`. */
  datatype Bounds = Bounds(claim: nat, send: nat)

  datatype Step =
    | Advance(to: Time)
    | Enqueue(added: set<Id>)
    | Begin(w: WorkerId)
    | Commit(w: WorkerId, ids: seq<Id>)
    | Finish(w: WorkerId, outcome: Outcome, reached: bool)
    | LoseFinish(w: WorkerId, reached: bool)
    | Crash(w: WorkerId, reached: bool)

  function Deadline(b: Bounds, w: Worker): Time {
    match w
    case Reading(now) => now + b.claim
    case Sending(_, _, _, since) => since + b.send
  }

  ghost predicate Busy(s: World, w: WorkerId) {
    w in s.workers && s.workers[w].Sending? && s.workers[w].done < |s.workers[w].batch|
  }

  ghost predicate Enabled(b: Bounds, s: World, step: Step) {
    match step
    case Advance(to) => s.clock <= to && forall w :: w in s.workers ==> to <= Deadline(b, s.workers[w])
    case Enqueue(ids) => forall id :: id in ids ==> id !in s.rows && id !in s.received
    case Begin(w) => w !in s.workers
    case Commit(w, ids) =>
      w in s.workers && s.workers[w].Reading? && Claimable(s.rows, s.workers[w].now, CLAIM_BATCH, ids)
    case Finish(w, outcome, reached) => Busy(s, w) && (outcome == Delivered ==> reached)
    case LoseFinish(w, _) => Busy(s, w)
    case Crash(w, _) => Busy(s, w)
  }

  function Next(s: World, w: WorkerId): World
    requires w in s.workers && s.workers[w].Sending?
  {
    var k := s.workers[w];
    if k.done + 1 < |k.batch|
    then s.(workers := s.workers[w := k.(done := k.done + 1, since := s.clock)])
    else s.(workers := s.workers - {w})
  }

  /** One more of `id` if `reached`. */
  function Counted(m: multiset<Id>, id: Id, reached: bool): multiset<Id> {
    if reached then m + multiset{id} else m
  }

  ghost function Apply(b: Bounds, s: World, step: Step): World
    requires Enabled(b, s, step)
  {
    match step
    case Advance(to) => s.(clock := to)
    case Enqueue(ids) => s.(rows := s.rows + map id | id in ids :: Row(Pending, 0, s.clock, None))
    case Begin(w) => s.(workers := s.workers[w := Reading(s.clock)])
    case Commit(w, ids) =>
      var now := s.workers[w].now;
      var rows := Lease(s.rows, ids, now + CLAIM_LEASE);
      s.(rows := rows,
         workers := if ids == [] then s.workers - {w}
                    else s.workers[w := Sending(now, Claims(rows, ids), 0, s.clock)])
    case Finish(w, outcome, reached) =>
      var k := s.workers[w];
      var c := k.batch[k.done];
      var r := Next(s, w).(received := Counted(s.received, c.id, reached),
                           unacknowledged := Counted(s.unacknowledged, c.id, reached && outcome != Delivered),
                           delivered := Counted(s.delivered, c.id, outcome == Delivered),
                           permanent := Counted(s.permanent, c.id, outcome == Permanent),
                           exhausted := Counted(s.exhausted, c.id, outcome == Retryable && c.attempts >= 5));
      if c.id in s.rows then r.(rows := s.rows[c.id := Recorded(s.rows[c.id], c.attempts, outcome, k.now)]) else r
    case LoseFinish(w, reached) =>
      var c := s.workers[w].batch[s.workers[w].done];
      Next(s, w).(losses := s.losses + multiset{c.id}, received := Counted(s.received, c.id, reached))
    case Crash(w, reached) =>
      var c := s.workers[w].batch[s.workers[w].done];
      s.(workers := s.workers - {w}, losses := s.losses + multiset(Held(s.workers[w])),
         received := Counted(s.received, c.id, reached))
  }

  ghost predicate Run(b: Bounds, s: World, steps: seq<Step>)
    decreases |steps|
  {
    steps == [] || (Enabled(b, s, steps[0]) && Run(b, Apply(b, s, steps[0]), steps[1..]))
  }

  ghost function Final(b: Bounds, s: World, steps: seq<Step>): World
    requires Run(b, s, steps)
    decreases |steps|
  {
    if steps == [] then s else Final(b, Apply(b, s, steps[0]), steps[1..])
  }

  const START := World(0, map[], map[], multiset{}, multiset{}, multiset{}, multiset{}, multiset{}, multiset{})

  // ---- Lease exclusivity --------------------------------------------------------

  /** The rows a worker has claimed and not finished. */
  ghost function Held(k: Worker): set<Id> {
    match k
    case Reading(_) => {}
    case Sending(_, batch, done, _) => set i | done <= i < |batch| :: batch[i].id
  }

  ghost predicate Holds(s: World, w: WorkerId, id: Id) {
    w in s.workers && id in Held(s.workers[w])
  }

  /** No row has two holders. */
  ghost predicate Exclusive(s: World) {
    forall v, w, id :: Holds(s, v, id) && Holds(s, w, id) ==> v == w
  }

  /** The lease outlasts the slowest batch. */
  predicate LeaseCoversBatch(b: Bounds) {
    b.claim + CLAIM_BATCH * b.send < CLAIM_LEASE
  }

  /** A held row is pending under the holder's own lease and attempt number, and this
      attempt has not reached the receiver yet. */
  ghost predicate Leased(s: World, now: Time, c: Claim) {
    && c.id in s.rows
    && s.rows[c.id].state == Pending
    && s.rows[c.id].nextAttemptAt == now + CLAIM_LEASE
    && s.rows[c.id].attempts == c.attempts
    && s.received[c.id] < c.attempts <= MAX_ATTEMPTS + s.losses[c.id]
  }

  ghost predicate WorkerInv(b: Bounds, s: World, k: Worker) {
    && s.clock <= Deadline(b, k)
    && k.now <= s.clock
    && (k.Sending? ==>
          && k.done < |k.batch| <= CLAIM_BATCH
          && k.since <= k.now + b.claim + k.done * b.send
          && (forall i :: k.done <= i < |k.batch| ==> Leased(s, k.now, k.batch[i]))
          && (forall i, j :: 0 <= i < j < |k.batch| ==> k.batch[i].id != k.batch[j].id))
  }

  ghost predicate RowInv(s: World, id: Id)
    requires id in s.rows
  {
    && s.received[id] <= s.rows[id].attempts <= MAX_ATTEMPTS + s.losses[id]
    && (s.rows[id].state == Pending && (forall w :: !Holds(s, w, id)) ==> s.rows[id].attempts < MAX_ATTEMPTS + s.losses[id])
    && s.received[id] <= s.losses[id] + s.unacknowledged[id] + (if s.rows[id].state == Sent then 1 else 0)
    && (s.rows[id].state == Sent ==> id in s.received)
    && EndedBy(s, id)
  }

  /** A row is sent exactly by a good outcome, and failed exactly by a permanent error or an
      error at the fifth attempt or later. */
  ghost predicate EndedBy(s: World, id: Id)
    requires id in s.rows
  {
    && (s.rows[id].state == Sent <==> id in s.delivered)
    && (s.rows[id].state == Failed <==> id in s.permanent || id in s.exhausted)
  }

  ghost predicate Inv(b: Bounds, s: World) {
    && (forall w :: w in s.workers ==> WorkerInv(b, s, s.workers[w]))
    && Exclusive(s)
    && (forall id :: id in s.rows ==> RowInv(s, id))
    && (forall id :: id in s.received || id in s.delivered || id in s.permanent || id in s.exhausted ==> id in s.rows)
  }

  lemma {:induction false} SlackGrows(done: nat, size: nat, send: nat)
    requires done < size
    ensures done * send + send <= size * send
    decreases size
  {
    if done + 1 < size {
      SlackGrows(done, size - 1, send);
      assert size * send == (size - 1) * send + send;
    }
  }

  /** A held row is not due on any clock reading taken so far. */
  lemma {:induction false} HeldIsNotDue(b: Bounds, s: World, w: WorkerId, id: Id, now: Time)
    requires Inv(b, s) && LeaseCoversBatch(b) && Holds(s, w, id) && now <= s.clock
    ensures !Due(s.rows, now, id)
  {
    var k := s.workers[w];
    assert WorkerInv(b, s, k);
    SlackGrows(k.done, CLAIM_BATCH, b.send);
  }

  lemma {:induction false} AdvanceKeepsInv(b: Bounds, s: World, to: Time)
    requires Inv(b, s) && Enabled(b, s, Advance(to))
    ensures Inv(b, Apply(b, s, Advance(to)))
  {
    var t := Apply(b, s, Advance(to));
    assert forall w, id :: Holds(t, w, id) <==> Holds(s, w, id);
    forall w | w in t.workers
      ensures WorkerInv(b, t, t.workers[w])
    {
      assert WorkerInv(b, s, s.workers[w]);
    }
    forall id | id in t.rows
      ensures RowInv(t, id)
    {
      assert RowInv(s, id);
    }
  }

  lemma {:induction false} EnqueueKeepsInv(b: Bounds, s: World, added: set<Id>)
    requires Inv(b, s) && Enabled(b, s, Enqueue(added))
    ensures Inv(b, Apply(b, s, Enqueue(added)))
  {
    var t := Apply(b, s, Enqueue(added));
    assert forall w, id :: Holds(t, w, id) <==> Holds(s, w, id);
    forall w | w in t.workers
      ensures WorkerInv(b, t, t.workers[w])
    {
      assert WorkerInv(b, s, s.workers[w]);
    }
    forall id | id in t.rows
      ensures RowInv(t, id)
    {
      assert id !in added ==> RowInv(s, id);
    }
  }

  lemma {:induction false} BeginKeepsInv(b: Bounds, s: World, w: WorkerId)
    requires Inv(b, s) && Enabled(b, s, Begin(w))
    ensures Inv(b, Apply(b, s, Begin(w)))
  {
    var t := Apply(b, s, Begin(w));
    assert forall v, id :: Holds(t, v, id) <==> Holds(s, v, id);
    forall v | v in t.workers
      ensures WorkerInv(b, t, t.workers[v])
    {
      assert v != w ==> WorkerInv(b, s, s.workers[v]);
    }
    forall id | id in t.rows
      ensures RowInv(t, id)
    {
      assert RowInv(s, id);
    }
  }

  /** A committed claim gives its worker exactly the listed rows, and nobody held them. */
  lemma {:induction false} CommitHolds(b: Bounds, s: World, w: WorkerId, ids: seq<Id>)
    requires Inv(b, s) && LeaseCoversBatch(b) && Enabled(b, s, Commit(w, ids))
    ensures var t := Apply(b, s, Commit(w, ids));
      && (forall v, id :: v != w ==> (Holds(t, v, id) <==> Holds(s, v, id)))
      && (forall id :: Holds(t, w, id) <==> id in ids)
      && (forall v, id :: Holds(s, v, id) ==> id !in ids)
  {
    var t := Apply(b, s, Commit(w, ids));
    forall v, id | Holds(s, v, id)
      ensures id !in ids
    {
      HeldIsNotDue(b, s, v, id, s.workers[w].now);
    }
    forall id
      ensures Holds(t, w, id) <==> id in ids
    {
      if id in ids {
        var i :| 0 <= i < |ids| && ids[i] == id;
        assert t.workers[w].batch[i].id == id;
      }
    }
  }

  lemma {:induction false} CommitKeepsOther(b: Bounds, s: World, w: WorkerId, ids: seq<Id>, v: WorkerId)
    requires Inv(b, s) && LeaseCoversBatch(b) && Enabled(b, s, Commit(w, ids)) && v in s.workers && v != w
    ensures WorkerInv(b, Apply(b, s, Commit(w, ids)), s.workers[v])
  {
    var t, k := Apply(b, s, Commit(w, ids)), s.workers[v];
    CommitHolds(b, s, w, ids);
    assert WorkerInv(b, s, k);
    if k.Sending? {
      forall i | k.done <= i < |k.batch|
        ensures Leased(t, k.now, k.batch[i])
      {
        assert Leased(s, k.now, k.batch[i]);
        assert Holds(s, v, k.batch[i].id);
      }
    }
  }

  lemma {:induction false} CommitStarts(b: Bounds, s: World, w: WorkerId, ids: seq<Id>)
    requires Inv(b, s) && LeaseCoversBatch(b) && Enabled(b, s, Commit(w, ids)) && ids != []
    ensures WorkerInv(b, Apply(b, s, Commit(w, ids)), Apply(b, s, Commit(w, ids)).workers[w])
  {
    var t := Apply(b, s, Commit(w, ids));
    var k := t.workers[w];
    CommitHolds(b, s, w, ids);
    assert WorkerInv(b, s, s.workers[w]);
    forall i | 0 <= i < |k.batch|
      ensures Leased(t, k.now, k.batch[i])
    {
      assert Due(s.rows, k.now, ids[i]);
      assert RowInv(s, ids[i]);
      assert forall v :: !Holds(s, v, ids[i]);
    }
  }

  lemma {:induction false} CommitKeepsInv(b: Bounds, s: World, w: WorkerId, ids: seq<Id>)
    requires Inv(b, s) && LeaseCoversBatch(b) && Enabled(b, s, Commit(w, ids))
    ensures Inv(b, Apply(b, s, Commit(w, ids)))
  {
    var t := Apply(b, s, Commit(w, ids));
    CommitHolds(b, s, w, ids);
    forall v | v in t.workers
      ensures WorkerInv(b, t, t.workers[v])
    {
      if v != w {
        CommitKeepsOther(b, s, w, ids, v);
      } else {
        CommitStarts(b, s, w, ids);
      }
    }
    forall id | id in t.rows
      ensures RowInv(t, id)
    {
      CommitKeepsRow(b, s, w, ids, id);
    }
  }

  lemma {:induction false} CommitKeepsRow(b: Bounds, s: World, w: WorkerId, ids: seq<Id>, id: Id)
    requires Inv(b, s) && LeaseCoversBatch(b) && Enabled(b, s, Commit(w, ids)) && id in s.rows
    ensures RowInv(Apply(b, s, Commit(w, ids)), id)
  {
    var t := Apply(b, s, Commit(w, ids));
    CommitHolds(b, s, w, ids);
    assert RowInv(s, id);
    if id in ids {
      var i :| 0 <= i < |ids| && ids[i] == id;
      assert Due(s.rows, s.workers[w].now, ids[i]);
      assert Holds(t, w, id);
      assert forall v :: !Holds(s, v, id);
    } else {
      assert forall v :: Holds(t, v, id) <==> Holds(s, v, id) || (v == w && id in ids);
    }
  }

  /** Moving to the next row of a batch gives up exactly the row at its head. */
  lemma {:induction false} NextReleases(b: Bounds, s: World, w: WorkerId)
    requires Inv(b, s) && Busy(s, w)
    ensures var id := s.workers[w].batch[s.workers[w].done].id;
      && Holds(s, w, id)
      && (forall v, x :: Holds(Next(s, w), v, x) <==> Holds(s, v, x) && x != id)
  {
    var k := s.workers[w];
    var id := k.batch[k.done].id;
    assert WorkerInv(b, s, k);
    assert Holds(s, w, id);
    forall v, x
      ensures Holds(Next(s, w), v, x) <==> Holds(s, v, x) && x != id
    {
      if v != w && Holds(s, v, x) {
        assert x != id;
      }
      if v == w && Holds(s, w, x) && x != id {
        var i :| k.done <= i < |k.batch| && k.batch[i].id == x;
        assert Next(s, w).workers[w].batch[i].id == x;
      }
    }
  }

  lemma {:induction false} FinishKeepsInv(b: Bounds, s: World, w: WorkerId, outcome: Outcome, reached: bool)
    requires Inv(b, s) && Enabled(b, s, Finish(w, outcome, reached))
    ensures Inv(b, Apply(b, s, Finish(w, outcome, reached)))
  {
    var t := Apply(b, s, Finish(w, outcome, reached));
    NextReleases(b, s, w);
    assert t.workers == Next(s, w).workers;
    assert forall v, x :: Holds(t, v, x) <==> Holds(Next(s, w), v, x);
    NextKeepsWorkers(b, s, w, t);
    forall x | x in t.rows
      ensures RowInv(t, x)
    {
      FinishKeepsRow(b, s, w, outcome, reached, x);
    }
    assert Leased(s, s.workers[w].now, s.workers[w].batch[s.workers[w].done]);
  }

  lemma {:induction false} FinishKeepsRow(b: Bounds, s: World, w: WorkerId, outcome: Outcome, reached: bool, x: Id)
    requires Inv(b, s) && Enabled(b, s, Finish(w, outcome, reached)) && x in s.rows
    ensures RowInv(Apply(b, s, Finish(w, outcome, reached)), x)
  {
    var t, k := Apply(b, s, Finish(w, outcome, reached)), s.workers[w];
    if x == k.batch[k.done].id {
      FinishedRow(b, s, w, outcome, reached);
    } else {
      NextReleases(b, s, w);
      assert forall v :: Holds(t, v, x) <==> Holds(Next(s, w), v, x);
      assert forall v :: Holds(t, v, x) <==> Holds(s, v, x);
      assert RowInv(s, x);
    }
  }

  lemma {:induction false} FinishedRow(b: Bounds, s: World, w: WorkerId, outcome: Outcome, reached: bool)
    requires Inv(b, s) && Enabled(b, s, Finish(w, outcome, reached))
    requires s.workers[w].batch[s.workers[w].done].id in s.rows
    ensures RowInv(Apply(b, s, Finish(w, outcome, reached)), s.workers[w].batch[s.workers[w].done].id)
  {
    var k := s.workers[w];
    assert RowInv(s, k.batch[k.done].id) && WorkerInv(b, s, k);
    assert Leased(s, k.now, k.batch[k.done]);
  }

  /** A lease on a row other than the finished one is untouched. */
  lemma {:induction false} LeaseSurvives(b: Bounds, s: World, w: WorkerId, t: World, v: WorkerId, i: nat)
    requires Inv(b, s) && Busy(s, w) && v in t.workers
    requires t.workers == Next(s, w).workers && t.clock == s.clock && s.losses <= t.losses
    requires forall x :: x != s.workers[w].batch[s.workers[w].done].id ==> t.received[x] == s.received[x]
    requires var id := s.workers[w].batch[s.workers[w].done].id;
      forall x :: x in s.rows && x != id ==> x in t.rows && t.rows[x] == s.rows[x]
    requires s.workers[v].Sending? && t.workers[v].done <= i < |s.workers[v].batch|
    ensures Leased(t, s.workers[v].now, s.workers[v].batch[i])
  {
    var k := s.workers[v];
    NextReleases(b, s, w);
    assert WorkerInv(b, s, k);
    assert Leased(s, k.now, k.batch[i]);
    assert Holds(Next(s, w), v, t.workers[v].batch[i].id);
  }

  lemma {:induction false} OneMore(done: nat, send: nat)
    ensures (done + 1) * send == done * send + send
  {
  }

  /** Time left to a worker after one more send. */
  lemma {:induction false} SlackAfterSend(b: Bounds, s: World, k: Worker)
    requires WorkerInv(b, s, k) && k.Sending?
    ensures s.clock <= k.now + b.claim + (k.done + 1) * b.send
  {
    OneMore(k.done, b.send);
  }

  /** The worker part of the invariant survives finishing one row, whatever is
      written to that row. */
  lemma {:induction false} NextKeepsWorkers(b: Bounds, s: World, w: WorkerId, t: World)
    requires Inv(b, s) && Busy(s, w)
    requires t.workers == Next(s, w).workers && t.clock == s.clock && s.losses <= t.losses
    requires forall x :: x != s.workers[w].batch[s.workers[w].done].id ==> t.received[x] == s.received[x]
    requires var id := s.workers[w].batch[s.workers[w].done].id;
      forall x :: x in s.rows && x != id ==> x in t.rows && t.rows[x] == s.rows[x]
    ensures forall v :: v in t.workers ==> WorkerInv(b, t, t.workers[v])
  {
    forall v | v in t.workers
      ensures WorkerInv(b, t, t.workers[v])
    {
      WorkerAfterNext(b, s, w, t, v);
    }
  }

  lemma {:induction false} WorkerAfterNext(b: Bounds, s: World, w: WorkerId, t: World, v: WorkerId)
    requires Inv(b, s) && Busy(s, w) && v in t.workers
    requires t.workers == Next(s, w).workers && t.clock == s.clock && s.losses <= t.losses
    requires forall x :: x != s.workers[w].batch[s.workers[w].done].id ==> t.received[x] == s.received[x]
    requires var id := s.workers[w].batch[s.workers[w].done].id;
      forall x :: x in s.rows && x != id ==> x in t.rows && t.rows[x] == s.rows[x]
    ensures WorkerInv(b, t, t.workers[v])
  {
    var k, k' := s.workers[v], t.workers[v];
    assert WorkerInv(b, s, k);
    if k.Sending? {
      forall i | k'.done <= i < |k.batch|
        ensures Leased(t, k.now, k.batch[i])
      {
        LeaseSurvives(b, s, w, t, v, i);
      }
    }
    if v == w {
      SlackAfterSend(b, s, k);
      assert k'.done == k.done + 1 && k'.batch == k.batch && k'.since == s.clock;
    } else {
      assert k' == k;
    }
  }

  lemma {:induction false} LoseFinishKeepsInv(b: Bounds, s: World, w: WorkerId, reached: bool)
    requires Inv(b, s) && Enabled(b, s, LoseFinish(w, reached))
    ensures Inv(b, Apply(b, s, LoseFinish(w, reached)))
  {
    var t := Apply(b, s, LoseFinish(w, reached));
    NextReleases(b, s, w);
    assert forall v, x :: Holds(t, v, x) <==> Holds(Next(s, w), v, x);
    NextKeepsWorkers(b, s, w, t);
    assert Leased(s, s.workers[w].now, s.workers[w].batch[s.workers[w].done]);
    forall x | x in t.rows
      ensures RowInv(t, x)
    {
      assert RowInv(s, x);
    }
  }

  lemma {:induction false} CrashKeepsWorker(b: Bounds, s: World, w: WorkerId, reached: bool, v: WorkerId)
    requires Inv(b, s) && Enabled(b, s, Crash(w, reached)) && v in s.workers && v != w
    ensures WorkerInv(b, Apply(b, s, Crash(w, reached)), s.workers[v])
  {
    var t, k := Apply(b, s, Crash(w, reached)), s.workers[v];
    assert WorkerInv(b, s, k);
    if k.Sending? {
      forall i | k.done <= i < |k.batch|
        ensures Leased(t, k.now, k.batch[i])
      {
        assert Leased(s, k.now, k.batch[i]);
        assert Holds(s, v, k.batch[i].id) && !Holds(s, w, k.batch[i].id);
        assert Holds(s, w, s.workers[w].batch[s.workers[w].done].id);
      }
    }
  }

  lemma {:induction false} CrashKeepsInv(b: Bounds, s: World, w: WorkerId, reached: bool)
    requires Inv(b, s) && Enabled(b, s, Crash(w, reached))
    ensures Inv(b, Apply(b, s, Crash(w, reached)))
  {
    var t := Apply(b, s, Crash(w, reached));
    assert forall v, x :: Holds(t, v, x) <==> Holds(s, v, x) && v != w;
    forall v | v in t.workers
      ensures WorkerInv(b, t, t.workers[v])
    {
      CrashKeepsWorker(b, s, w, reached, v);
    }
    forall x | x in t.rows
      ensures RowInv(t, x)
    {
      CrashKeepsRow(b, s, w, reached, x);
    }
    assert Leased(s, s.workers[w].now, s.workers[w].batch[s.workers[w].done]);
  }

  lemma {:induction false} CrashKeepsRow(b: Bounds, s: World, w: WorkerId, reached: bool, x: Id)
    requires Inv(b, s) && Enabled(b, s, Crash(w, reached)) && x in s.rows
    ensures RowInv(Apply(b, s, Crash(w, reached)), x)
  {
    var t, k := Apply(b, s, Crash(w, reached)), s.workers[w];
    assert RowInv(s, x) && WorkerInv(b, s, k);
    assert Leased(s, k.now, k.batch[k.done]) && Holds(s, w, k.batch[k.done].id);
    assert forall v :: Holds(t, v, x) <==> Holds(s, v, x) && v != w;
    if Holds(s, w, x) {
      var i :| k.done <= i < |k.batch| && k.batch[i].id == x;
      assert Leased(s, k.now, k.batch[i]);
    }
  }

  lemma {:induction false} StepKeepsInv(b: Bounds, s: World, step: Step)
    requires Inv(b, s) && LeaseCoversBatch(b) && Enabled(b, s, step)
    ensures Inv(b, Apply(b, s, step))
  {
    match step
    case Advance(to) => AdvanceKeepsInv(b, s, to);
    case Enqueue(added) => EnqueueKeepsInv(b, s, added);
    case Begin(w) => BeginKeepsInv(b, s, w);
    case Commit(w, ids) => CommitKeepsInv(b, s, w, ids);
    case Finish(w, outcome, reached) => FinishKeepsInv(b, s, w, outcome, reached);
    case LoseFinish(w, reached) => LoseFinishKeepsInv(b, s, w, reached);
    case Crash(w, reached) => CrashKeepsInv(b, s, w, reached);
  }

  // ---- Whole runs ---------------------------------------------------------------

  lemma {:induction false} RunKeepsInv(b: Bounds, s: World, steps: seq<Step>)
    requires Inv(b, s) && LeaseCoversBatch(b) && Run(b, s, steps)
    ensures Inv(b, Final(b, s, steps))
    decreases |steps|
  {
    if steps != [] {
      StepKeepsInv(b, s, steps[0]);
      RunKeepsInv(b, Apply(b, s, steps[0]), steps[1..]);
    }
  }

  /** In every run, with any number of workers: no row has two holders; a row is claimed at
      most MAX_ATTEMPTS times plus once per lost outcome of its own; and it reaches its
      receiver at most once per claim, and at most once plus once per lost outcome and per
      send that the receiver got but did not acknowledge. */
  lemma {:induction false} LeaseExclusivity(b: Bounds, steps: seq<Step>)
    requires LeaseCoversBatch(b) && Run(b, START, steps)
    ensures var s := Final(b, START, steps);
      && Exclusive(s)
      && (forall id :: id in s.rows ==>
            && s.received[id] <= s.rows[id].attempts <= MAX_ATTEMPTS + s.losses[id]
            && s.received[id] <= 1 + s.losses[id] + s.unacknowledged[id]
            && (s.rows[id].state == Sent ==> id in s.received))
  {
    RunKeepsInv(b, START, steps);
    var s := Final(b, START, steps);
    forall id | id in s.rows
      ensures s.received[id] <= s.rows[id].attempts <= MAX_ATTEMPTS + s.losses[id]
      ensures s.received[id] <= 1 + s.losses[id] + s.unacknowledged[id]
      ensures s.rows[id].state == Sent ==> id in s.received
    {
      assert RowInv(s, id);
    }
  }

  /** In every run a row is sent if and only if a send of it ended well, failed if and only if
      one ended in a permanent error or in any error at the fifth attempt or later, and pending
      otherwise. */
  lemma {:induction false} StateIsOutcome(b: Bounds, steps: seq<Step>, id: Id)
    requires LeaseCoversBatch(b) && Run(b, START, steps) && id in Final(b, START, steps).rows
    ensures var s := Final(b, START, steps);
      && (s.rows[id].state == Sent <==> id in s.delivered)
      && (s.rows[id].state == Failed <==> id in s.permanent || id in s.exhausted)
      && (s.rows[id].state == Pending <==> id !in s.delivered && id !in s.permanent && id !in s.exhausted)
  {
    RunKeepsInv(b, START, steps);
    assert RowInv(Final(b, START, steps), id);
  }

  /** What one recorded outcome writes: a good one ends the row as sent, a permanent error as
      failed at once, and any other error puts it back for a minute after the first attempt,
      five after the second, half an hour after the third and fourth, and fails it after that. */
  lemma {:induction false} FinishWrites(b: Bounds, s: World, w: WorkerId, outcome: Outcome, reached: bool)
    requires Enabled(b, s, Finish(w, outcome, reached)) && s.workers[w].batch[s.workers[w].done].id in s.rows
    ensures var k := s.workers[w];
      var c := k.batch[k.done];
      var row, was := Apply(b, s, Finish(w, outcome, reached)).rows[c.id], s.rows[c.id];
      && row.attempts == was.attempts
      && (outcome == Delivered ==> row.state == Sent && row.sentAt == Some(k.now))
      && (outcome != Delivered ==> row.sentAt == None)
      && (outcome == Permanent ==> row.state == Failed)
      && (outcome == Retryable && c.attempts >= 5 ==> row.state == Failed)
      && (outcome == Retryable && c.attempts < 5 ==>
            row.state == Pending &&
            row.nextAttemptAt == k.now + (if c.attempts == 1 then 60 else if c.attempts == 2 then 300 else 1800))
  {
  }

  /** The limits the source states for its transports meet the lease condition. */
  lemma {:induction false} SourceLimitsCovered(b: Bounds)
    requires b.send <= 10 + 30 && b.claim < 200
    ensures LeaseCoversBatch(b)
  {
  }

  lemma {:induction false} StepKeepsFinished(b: Bounds, s: World, step: Step, id: Id)
    requires Inv(b, s) && LeaseCoversBatch(b) && Enabled(b, s, step)
    requires id in s.rows && s.rows[id].state != Pending
    ensures id in Apply(b, s, step).rows && Apply(b, s, step).rows[id] == s.rows[id]
  {
    match step
    case Commit(w, ids) =>
      assert forall i :: 0 <= i < |ids| ==> Due(s.rows, s.workers[w].now, ids[i]);
    case Finish(w, _, _) =>
      assert WorkerInv(b, s, s.workers[w]);
      assert Leased(s, s.workers[w].now, s.workers[w].batch[s.workers[w].done]);
    case _ =>
  }

  lemma {:induction false} RunKeepsFinished(b: Bounds, s: World, steps: seq<Step>, id: Id)
    requires Inv(b, s) && LeaseCoversBatch(b) && Run(b, s, steps)
    requires id in s.rows && s.rows[id].state != Pending
    ensures id in Final(b, s, steps).rows && Final(b, s, steps).rows[id] == s.rows[id]
    decreases |steps|
  {
    if steps != [] {
      StepKeepsFinished(b, s, steps[0], id);
      StepKeepsInv(b, s, steps[0]);
      RunKeepsFinished(b, Apply(b, s, steps[0]), steps[1..], id);
    }
  }

  lemma {:induction false} RunConcat(b: Bounds, s: World, first: seq<Step>, second: seq<Step>)
    requires Run(b, s, first)
    ensures Run(b, s, first + second) <==> Run(b, Final(b, s, first), second)
    ensures Run(b, s, first + second) ==>
              Final(b, s, first + second) == Final(b, Final(b, s, first), second)
    decreases |first|
  {
    if first == [] {
      assert first + second == second;
    } else {
      assert (first + second)[1..] == first[1..] + second;
      RunConcat(b, Apply(b, s, first[0]), first[1..], second);
    }
  }

  /** `sent` and `failed` are absorbing: once a run has finished a row, no later
      step changes any column of it, although the finishing update is unguarded. */
  lemma {:induction false} FinishedIsAbsorbing(b: Bounds, first: seq<Step>, second: seq<Step>, id: Id)
    requires LeaseCoversBatch(b) && Run(b, START, first) && Run(b, START, first + second)
    requires id in Final(b, START, first).rows && Final(b, START, first).rows[id].state != Pending
    ensures id in Final(b, START, first + second).rows
    ensures Final(b, START, first + second).rows[id] == Final(b, START, first).rows[id]
  {
    RunConcat(b, START, first, second);
    RunKeepsInv(b, START, first);
    RunKeepsFinished(b, Final(b, START, first), second, id);
  }

  // ---- The lease condition is exact ----------------------------------------------

  lemma {:induction false} RunSnoc(b: Bounds, s: World, steps: seq<Step>, x: Step)
    requires Run(b, s, steps) && Enabled(b, Final(b, s, steps), x)
    ensures Run(b, s, steps + [x]) && Final(b, s, steps + [x]) == Apply(b, Final(b, s, steps), x)
  {
    RunOne(b, Final(b, s, steps), x);
    RunConcat(b, s, steps, [x]);
  }

  lemma {:induction false} RunOne(b: Bounds, s: World, x: Step)
    requires Enabled(b, s, x)
    ensures Run(b, s, [x]) && Final(b, s, [x]) == Apply(b, s, x)
  {
    var t, rest := Apply(b, s, x), [x][1..];
    assert rest == [];
    assert Run(b, t, rest) && Final(b, t, rest) == t;
    assert Run(b, s, [x]) && Final(b, s, [x]) == Final(b, t, rest);
  }

  predicate Below(id: Id, n: nat) {
    0 <= id < n
  }

  ghost function SlowRows(done: nat): Rows {
    map id: Id | 0 <= id < 10 && Below(id, 10) ::
      if id < done then Row(Sent, 1, 0, Some(0)) else Row(Pending, 1, CLAIM_LEASE, None)
  }

  /** Worker 0 has claimed rows 0 to 9 as late, and sent `done` of them as slowly, as allowed. */
  ghost function SlowState(b: Bounds, done: nat, received: multiset<Id>): World {
    World(b.claim + done * b.send, SlowRows(done),
          map[0 := Sending(0, seq(10, i => Claim(i, 1)), done, b.claim + done * b.send)],
          multiset{}, received, multiset{}, received, multiset{}, multiset{})
  }

  ghost function TenIds(): set<Id> {
    set id: Id | 0 <= id < 10 && Below(id, 10)
  }

  /** Ten rows are queued and worker 0 read its clock as long ago as allowed. */
  ghost function QueuedState(b: Bounds): World {
    World(b.claim, map id | id in TenIds() :: Row(Pending, 0, 0, None), map[0 := Reading(0)],
          multiset{}, multiset{}, multiset{}, multiset{}, multiset{}, multiset{})
  }

  lemma {:induction false} QueuedRun(b: Bounds) returns (steps: seq<Step>)
    ensures Run(b, START, steps) && Final(b, START, steps) == QueuedState(b)
  {
    var x, y, z := Enqueue(TenIds()), Begin(0), Advance(b.claim);
    var s := Apply(b, START, x);
    assert s.rows == QueuedState(b).rows;
    assert Apply(b, Apply(b, s, y), z) == QueuedState(b);
    RunSnoc(b, START, [], x);
    RunSnoc(b, START, [] + [x], y);
    RunSnoc(b, START, [] + [x] + [y], z);
    steps := [] + [x] + [y] + [z];
  }

  lemma {:induction false} SlowCommit(b: Bounds, ids: seq<Id>)
    requires |ids| == 10 && forall i :: 0 <= i < 10 ==> ids[i] == i
    ensures Enabled(b, QueuedState(b), Commit(0, ids))
    ensures Apply(b, QueuedState(b), Commit(0, ids)) == SlowState(b, 0, multiset{})
  {
    var s := QueuedState(b);
    assert forall id :: id in TenIds() <==> id in ids by {
      assert forall id :: id in TenIds() ==> ids[id] == id;
    }
    assert Claimable(s.rows, 0, CLAIM_BATCH, ids);
    var t := Apply(b, s, Commit(0, ids));
    assert t.rows == SlowRows(0);
    assert t.workers[0].batch == SlowState(b, 0, multiset{}).workers[0].batch;
    assert t.workers == SlowState(b, 0, multiset{}).workers;
  }

  lemma {:induction false} SlowClaim(b: Bounds) returns (steps: seq<Step>)
    ensures Run(b, START, steps) && Final(b, START, steps) == SlowState(b, 0, multiset{})
  {
    var ids: seq<Id> := seq(10, i => i);
    SlowCommit(b, ids);
    steps := QueuedRun(b);
    RunSnoc(b, START, steps, Commit(0, ids));
    steps := steps + [Commit(0, ids)];
  }

  /** One more send that takes as long as it may. */
  lemma {:induction false} SlowSend(b: Bounds, done: nat, received: multiset<Id>)
    requires done < 9
    ensures var s, x := SlowState(b, done, received), Advance(b.claim + (done + 1) * b.send);
      && Enabled(b, s, x) && Enabled(b, Apply(b, s, x), Finish(0, Delivered, true))
      && Apply(b, Apply(b, s, x), Finish(0, Delivered, true)) == SlowState(b, done + 1, received + multiset{done})
  {
    var s, x := SlowState(b, done, received), Advance(b.claim + (done + 1) * b.send);
    OneMore(done, b.send);
    assert s.workers[0].batch[done] == Claim(done, 1);
    var t := Apply(b, Apply(b, s, x), Finish(0, Delivered, true));
    SlowRowsNext(done, t.rows);
    assert t.workers == SlowState(b, done + 1, t.received).workers;
  }

  lemma {:induction false} SlowRowsNext(done: nat, rows: Rows)
    requires done < 9 && rows == SlowRows(done)[done := Row(Sent, 1, 0, Some(0))]
    ensures rows == SlowRows(done + 1)
  {
    assert Below(done, 10);
  }

  lemma {:induction false} SlowRun(b: Bounds, done: nat) returns (steps: seq<Step>, received: multiset<Id>)
    requires done <= 9
    ensures Run(b, START, steps) && Final(b, START, steps) == SlowState(b, done, received)
  {
    if done == 0 {
      steps := SlowClaim(b);
      received := multiset{};
    } else {
      steps, received := SlowRun(b, done - 1);
      SlowSend(b, done - 1, received);
      var x := Advance(b.claim + done * b.send);
      RunSnoc(b, START, steps, x);
      RunSnoc(b, START, steps + [x], Finish(0, Delivered, true));
      steps, received := steps + [x] + [Finish(0, Delivered, true)], received + multiset{done - 1};
    }
  }

  /** The state in which two workers send row 9 at once. */
  ghost function OverlapState(b: Bounds, received: multiset<Id>): World {
    var s := SlowState(b, 9, received);
    var clock := b.claim + 10 * b.send;
    World(clock, s.rows[9 := Row(Pending, 2, clock + CLAIM_LEASE, None)],
          s.workers[1 := Sending(clock, [Claim(9, 2)], 0, clock)],
          multiset{}, received, multiset{}, received, multiset{}, multiset{})
  }

  /** Worker 1 reads its clock when the lease on row 9 has run out. */
  ghost function LateState(b: Bounds, received: multiset<Id>): World {
    var s, clock := SlowState(b, 9, received), b.claim + 10 * b.send;
    s.(clock := clock, workers := s.workers[1 := Reading(clock)])
  }

  lemma {:induction false} LateRun(b: Bounds) returns (steps: seq<Step>, received: multiset<Id>)
    ensures Run(b, START, steps) && Final(b, START, steps) == LateState(b, received)
  {
    steps, received := SlowRun(b, 9);
    var s := SlowState(b, 9, received);
    var x, y := Advance(b.claim + 10 * b.send), Begin(1);
    assert Apply(b, Apply(b, s, x), y) == LateState(b, received);
    RunSnoc(b, START, steps, x);
    RunSnoc(b, START, steps + [x], y);
    steps := steps + [x] + [y];
  }

  lemma {:induction false} LateClaim(b: Bounds, received: multiset<Id>)
    requires !LeaseCoversBatch(b)
    ensures Enabled(b, LateState(b, received), Commit(1, [9]))
    ensures Apply(b, LateState(b, received), Commit(1, [9])) == OverlapState(b, received)
  {
    var t, clock := LateState(b, received), b.claim + 10 * b.send;
    assert Below(9, 10) && t.rows[9] == Row(Pending, 1, CLAIM_LEASE, None);
    assert Due(t.rows, clock, 9);
    assert Claimable(t.rows, clock, CLAIM_BATCH, [9]);
    var u := Apply(b, t, Commit(1, [9]));
    assert u.rows == OverlapState(b, received).rows;
    assert u.workers[1].batch == [Claim(9, 2)];
    assert u.workers == OverlapState(b, received).workers;
  }

  lemma {:induction false} OverlapHolds(b: Bounds, received: multiset<Id>)
    ensures Holds(OverlapState(b, received), 0, 9) && Holds(OverlapState(b, received), 1, 9)
  {
    var u := OverlapState(b, received);
    assert u.workers[0].batch[9].id == 9 && u.workers[1].batch[0].id == 9;
  }

  lemma {:induction false} SlowBatchOverlaps(b: Bounds) returns (steps: seq<Step>, received: multiset<Id>)
    requires !LeaseCoversBatch(b)
    ensures Run(b, START, steps) && Final(b, START, steps) == OverlapState(b, received)
    ensures Holds(OverlapState(b, received), 0, 9) && Holds(OverlapState(b, received), 1, 9)
  {
    steps, received := LateRun(b);
    LateClaim(b, received);
    RunSnoc(b, START, steps, Commit(1, [9]));
    steps := steps + [Commit(1, [9])];
    OverlapHolds(b, received);
  }

  /** The condition stated beside the constants is exactly what exclusivity needs. */
  lemma {:induction false} ExclusiveIff(b: Bounds)
    ensures LeaseCoversBatch(b) <==>
            (forall steps :: Run(b, START, steps) ==> Exclusive(Final(b, START, steps)))
  {
    if LeaseCoversBatch(b) {
      forall steps | Run(b, START, steps)
        ensures Exclusive(Final(b, START, steps))
      {
        LeaseExclusivity(b, steps);
      }
    } else {
      var steps, received := SlowBatchOverlaps(b);
      assert !Exclusive(Final(b, START, steps));
    }
  }

  ghost predicate SentStays(b: Bounds) {
    forall first, second, id ::
      Run(b, START, first) && Run(b, START, first + second) && id in Final(b, START, first).rows &&
      Final(b, START, first).rows[id].state == Sent ==>
        id in Final(b, START, first + second).rows && Final(b, START, first + second).rows[id].state == Sent
  }

  /** The first worker's send is recorded and then undone by the second one's. */
  lemma {:induction false} OverlapUndoesSent(b: Bounds, received: multiset<Id>)
    ensures var s, x, y := OverlapState(b, received), Finish(0, Delivered, true), Finish(1, Retryable, false);
      && Enabled(b, s, x) && Enabled(b, Apply(b, s, x), y)
      && 9 in Apply(b, s, x).rows && Apply(b, s, x).rows[9].state == Sent
      && 9 in Apply(b, Apply(b, s, x), y).rows && Apply(b, Apply(b, s, x), y).rows[9].state == Pending
  {
    var s := OverlapState(b, received);
    assert s.workers[0].batch[9] == Claim(9, 1) && s.workers[1].batch[0] == Claim(9, 2);
  }

  lemma {:induction false} SentIsUndone(b: Bounds) returns (first: seq<Step>, second: seq<Step>)
    requires !LeaseCoversBatch(b)
    ensures Run(b, START, first) && Run(b, START, first + second)
    ensures 9 in Final(b, START, first).rows && Final(b, START, first).rows[9].state == Sent
    ensures 9 in Final(b, START, first + second).rows && Final(b, START, first + second).rows[9].state != Sent
  {
    var steps, received := SlowBatchOverlaps(b);
    var x, y := Finish(0, Delivered, true), Finish(1, Retryable, false);
    OverlapUndoesSent(b, received);
    RunSnoc(b, START, steps, x);
    RunSnoc(b, START, steps + [x], y);
    first, second := steps + [x], [y];
  }

  /** It is also exactly what keeps a sent row sent. */
  lemma {:induction false} SentStaysIff(b: Bounds)
    ensures LeaseCoversBatch(b) <==> SentStays(b)
  {
    if LeaseCoversBatch(b) {
      forall first, second, id | Run(b, START, first) && Run(b, START, first + second) &&
          id in Final(b, START, first).rows && Final(b, START, first).rows[id].state == Sent
        ensures id in Final(b, START, first + second).rows && Final(b, START, first + second).rows[id].state == Sent
      {
        FinishedIsAbsorbing(b, first, second, id);
      }
    } else {
      var first, second := SentIsUndone(b);
    }
  }

  // ---- A send that is not acknowledged ----------------------------------------------

  /** The state in which row 0 was received once, reported as an error, and is due again. */
  ghost function UnheardState(): World {
    World(60, map[0 := Row(Pending, 1, 60, None)], map[],
          multiset{}, multiset{0}, multiset{0}, multiset{}, multiset{}, multiset{})
  }

  /** Worker 0 has claimed row 0. */
  ghost function OneClaimed(): World {
    World(0, map[0 := Row(Pending, 1, CLAIM_LEASE, None)], map[0 := Sending(0, [Claim(0, 1)], 0, 0)],
          multiset{}, multiset{}, multiset{}, multiset{}, multiset{}, multiset{})
  }

  lemma {:induction false} OneClaimedRun(b: Bounds) returns (steps: seq<Step>)
    ensures Run(b, START, steps) && Final(b, START, steps) == OneClaimed()
  {
    var one: set<Id> := {0};
    var enqueue, begin, commit := Enqueue(one), Begin(0), Commit(0, [0]);
    var r := Apply(b, START, enqueue);
    assert r.rows == map[0 := Row(Pending, 0, 0, None)];
    var s := Apply(b, r, begin);
    assert Claimable(s.rows, 0, CLAIM_BATCH, [0]);
    var t := Apply(b, s, commit);
    assert t.rows == OneClaimed().rows && t.workers[0].batch == [Claim(0, 1)];
    assert t.workers == OneClaimed().workers;
    RunSnoc(b, START, [], enqueue);
    RunSnoc(b, START, [] + [enqueue], begin);
    RunSnoc(b, START, [] + [enqueue] + [begin], commit);
    steps := [] + [enqueue] + [begin] + [commit];
  }

  lemma {:induction false} UnheardRun(b: Bounds) returns (steps: seq<Step>)
    ensures Run(b, START, steps) && Final(b, START, steps) == UnheardState()
  {
    steps := OneClaimedRun(b);
    var finish, wait := Finish(0, Retryable, true), Advance(60);
    var u := Apply(b, OneClaimed(), finish);
    assert u.rows == UnheardState().rows && u.workers == map[];
    assert Apply(b, u, wait) == UnheardState();
    RunSnoc(b, START, steps, finish);
    RunSnoc(b, START, steps + [finish], wait);
    steps := steps + [finish] + [wait];
  }

  /** Whatever the bounds: a receiver whose answer is lost gets the notification again, though
      no outcome was lost. The count of unacknowledged sends cannot be left out of the bound. */
  lemma {:induction false} ReceivedTwice(b: Bounds) returns (steps: seq<Step>)
    ensures Run(b, START, steps)
    ensures var s := Final(b, START, steps);
      0 in s.rows && s.received[0] == 2 && s.losses[0] == 0 && s.unacknowledged[0] == 1 && s.rows[0].state == Sent
  {
    steps := UnheardRun(b);
    var s := UnheardState();
    var begin, commit, finish := Begin(0), Commit(0, [0]), Finish(0, Delivered, true);
    var t := Apply(b, s, begin);
    assert Claimable(t.rows, 60, CLAIM_BATCH, [0]);
    var u := Apply(b, t, commit);
    assert u.workers[0].batch == [Claim(0, 2)];
    RunSnoc(b, START, steps, begin);
    RunSnoc(b, START, steps + [begin], commit);
    RunSnoc(b, START, steps + [begin] + [commit], finish);
    steps := steps + [begin] + [commit] + [finish];
  }
}
