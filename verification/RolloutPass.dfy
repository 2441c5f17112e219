/** What the queries count and what one reconciliation pass does to the tables. */
module RolloutPass {
  import opened Common
  import opened Rollouts

  /** What every table state reached by the server satisfies: rows refer to known
      rollouts, devices and commands, and only a revoked device's row is cancelled. */
  ghost predicate RowOk(db: Db, d: DeviceId, row: Row) {
    && d in db.devices
    && row.command in db.commands
    && (row.state == RowCancelled ==> db.devices[d].revoked)
  }

  ghost predicate WellFormed(db: Db) {
    && db.progress.Keys == db.rollouts.Keys
    && forall id, d :: id in db.progress && d in db.progress[id] ==> RowOk(db, d, db.progress[id][d])
  }

  // ---- Summary conservation ----------------------------------------------------------

  /** `x` is in one of `t` and `m` exactly when it is in one of the other five, and
      then in one of each only. */
  predicate CountedOnce(x: DeviceId, t: set<DeviceId>, m: set<DeviceId>, a: set<DeviceId>, b: set<DeviceId>,
                        c: set<DeviceId>, d: set<DeviceId>, e: set<DeviceId>)
  {
    && !(x in t && x in m)
    && (x in t || x in m <==> x in a || x in b || x in c || x in d || x in e)
    && (x in a ==> x !in b && x !in c && x !in d && x !in e)
    && (x in b ==> x !in c && x !in d && x !in e)
    && (x in c ==> x !in d && x !in e)
    && (x in d ==> x !in e)
  }

  lemma {:induction false} CountedOnceSizes(t: set<DeviceId>, m: set<DeviceId>, a: set<DeviceId>, b: set<DeviceId>,
                         c: set<DeviceId>, d: set<DeviceId>, e: set<DeviceId>)
    requires forall x :: CountedOnce(x, t, m, a, b, c, d, e)
    ensures |t| + |m| == |a| + |b| + |c| + |d| + |e|
  {
    forall x
      ensures CountedOnce(x, t, m, a, b, c, d, e)
      ensures x in t + m <==> x in a + b + c + d + e
    {
    }
    assert t + m == a + b + c + d + e;
    CardinalityUnion(t, m);
    CardinalityUnion(a, b);
    CardinalityUnion(a + b, c);
    CardinalityUnion(a + b + c, d);
    CardinalityUnion(a + b + c + d, e);
  }

  lemma {:induction false} DeviceCountedOnce(db: Db, id: RolloutId, x: DeviceId)
    requires WellFormed(db) && id in db.rollouts
    ensures var r := db.rollouts[id];
      CountedOnce(x, Targeted(db, r), MovedOut(db, id, r), AlreadyCurrent(db, id, r), Remaining(db, id, r),
                  Live(db, id, RowIssued), Live(db, id, RowUpdated), Live(db, id, RowFailed))
  {
    if x in RowsOf(db, id) {
      assert RowOk(db, x, db.progress[id][x]);
    }
  }

  /** Every targeted device, and every device that left the groups with a row, is in
      exactly one of the five reported counts. */
  lemma {:induction false} SummaryConservation(db: Db, id: RolloutId)
    requires WellFormed(db) && id in db.rollouts
    ensures var sum := Summarize(db, id);
      sum.targeted + |MovedOut(db, id, db.rollouts[id])| ==
      sum.alreadyCurrent + sum.remaining + sum.issued + sum.updated + sum.failed
  {
    var r := db.rollouts[id];
    forall x {
      DeviceCountedOnce(db, id, x);
    }
    CountedOnceSizes(Targeted(db, r), MovedOut(db, id, r), AlreadyCurrent(db, id, r), Remaining(db, id, r),
                     Live(db, id, RowIssued), Live(db, id, RowUpdated), Live(db, id, RowFailed));
  }

  lemma {:induction false} CandidateIsRemaining(db: Db, id: RolloutId, d: DeviceId)
    requires id in db.rollouts
    ensures IsCandidate(db, id, d) <==> d in Remaining(db, id, db.rollouts[id])
  {
    if d in Remaining(db, id, db.rollouts[id]) && db.rollouts[id].groups != {} {
      assert db.devices[d].group == Some(db.devices[d].group.value);
    }
  }

  ghost function Elements(s: seq<DeviceId>): set<DeviceId> {
    set d | d in s
  }

  lemma {:induction false} DistinctSize(s: seq<DeviceId>)
    requires forall i, j :: 0 <= i < j < |s| ==> s[i] != s[j]
    ensures |Elements(s)| == |s|
  {
    if s != [] {
      var front := s[..|s| - 1];
      DistinctSize(front);
      assert s == front + [s[|s| - 1]];
      assert Elements(s) == Elements(front) + {s[|s| - 1]};
      assert s[|s| - 1] !in front;
    }
  }

  /** The candidate query returns exactly the devices the summary counts as remaining. */
  lemma {:induction false} CandidatesAreRemaining(db: Db, id: RolloutId, cands: seq<DeviceId>)
    requires id in db.rollouts && IsCandidateList(db, id, cands)
    ensures Elements(cands) == Remaining(db, id, db.rollouts[id])
    ensures |cands| == Summarize(db, id).remaining
  {
    forall d
      ensures d in Elements(cands) <==> d in Remaining(db, id, db.rollouts[id])
    {
      CandidateIsRemaining(db, id, d);
    }
    DistinctSize(cands);
  }

  /** The order leaves no choice: a pass depends only on the tables and its environment. */
  lemma {:induction false} CandidateListUnique(db: Db, id: RolloutId, a: seq<DeviceId>, b: seq<DeviceId>)
    requires id in db.rollouts && IsCandidateList(db, id, a) && IsCandidateList(db, id, b)
    ensures a == b
  {
    assert forall d :: d in a <==> d in b;
    assert forall i :: 0 <= i < |a| ==> a[i] in a && IsCandidate(db, id, a[i]);
    assert forall i :: 0 <= i < |b| ==> b[i] in b && IsCandidate(db, id, b[i]);
    OrderedUnique(db, a, b);
  }

  ghost predicate Ordered(db: Db, s: seq<DeviceId>) {
    && (forall i :: 0 <= i < |s| ==> s[i] in db.devices)
    && (forall i, j :: 0 <= i < j < |s| ==> Before(db, s[i], s[j]))
  }

  lemma {:induction false} OrderedUnique(db: Db, a: seq<DeviceId>, b: seq<DeviceId>)
    requires forall d :: d in a <==> d in b
    requires forall i :: 0 <= i < |a| ==> a[i] in db.devices
    requires forall i :: 0 <= i < |b| ==> b[i] in db.devices
    requires Ordered(db, a) && Ordered(db, b)
    ensures a == b
  {
    if b != [] {
      assert b[0] in b;
    }
    if a != [] {
      assert a[0] in b;
      assert b != [] && b[0] in a;
      var i :| 0 <= i < |b| && b[i] == a[0];
      var j :| 0 <= j < |a| && a[j] == b[0];
      assert i == 0 && j == 0;
      forall d
        ensures d in a[1..] <==> d in b[1..]
      {
        if d in a[1..] {
          var k :| 0 <= k < |a[1..]| && a[1..][k] == d;
          assert a[k + 1] == d && d != a[0] && d in b;
        }
        if d in b[1..] {
          var k :| 0 <= k < |b[1..]| && b[1..][k] == d;
          assert b[k + 1] == d && d != b[0] && d in a;
        }
      }
      OrderedUnique(db, a[1..], b[1..]);
    }
  }

  // ---- Resolution ---------------------------------------------------------------------

  lemma {:induction false} ResolveWellFormed(db: Db, id: RolloutId, now: Time, confirm: Time)
    requires WellFormed(db) && id in db.rollouts
    ensures WellFormed(Resolve(db, id, now, confirm))
  {
    var after := Resolve(db, id, now, confirm);
    forall i, d | i in after.progress && d in after.progress[i]
      ensures RowOk(after, d, after.progress[i][d])
    {
      assert RowOk(db, d, db.progress[i][d]);
    }
  }

  /** Where one device is counted before and after resolution. */
  lemma {:induction false} ResolveDevice(db: Db, id: RolloutId, now: Time, confirm: Time, d: DeviceId)
    requires WellFormed(db) && id in db.rollouts
    ensures var after := Resolve(db, id, now, confirm);
      && (d in RowsOf(after, id) <==> d in RowsOf(db, id))
      && (d in Live(after, id, RowIssued) ==> d in Live(db, id, RowIssued))
      && (d in Newly(db, id, RowFailed, now, confirm) ==> d in Live(db, id, RowIssued))
      && (d in Live(after, id, RowFailed) <==> d in Live(db, id, RowFailed) || d in Newly(db, id, RowFailed, now, confirm))
  {
    if d in RowsOf(db, id) {
      assert RowOk(db, d, db.progress[id][d]);
    }
  }

  /** Resolution moves live issued rows to updated or failed and changes nothing else
      that the summary counts. */
  lemma {:induction false} ResolveCounts(db: Db, id: RolloutId, now: Time, confirm: Time)
    requires WellFormed(db) && id in db.rollouts
    ensures var after := Resolve(db, id, now, confirm);
      && Remaining(after, id, db.rollouts[id]) == Remaining(db, id, db.rollouts[id])
      && |Live(after, id, RowIssued)| <= |Live(db, id, RowIssued)|
      && |Live(after, id, RowFailed)| == |Live(db, id, RowFailed)| + |Newly(db, id, RowFailed, now, confirm)|
      && |Newly(db, id, RowFailed, now, confirm)| <= |Live(db, id, RowIssued)|
  {
    var after := Resolve(db, id, now, confirm);
    forall d
      ensures d in RowsOf(after, id) <==> d in RowsOf(db, id)
      ensures d in Live(after, id, RowIssued) ==> d in Live(db, id, RowIssued)
      ensures d in Newly(db, id, RowFailed, now, confirm) ==> d in Live(db, id, RowIssued)
      ensures d in Live(after, id, RowFailed) <==> d in Live(db, id, RowFailed) || d in Newly(db, id, RowFailed, now, confirm)
    {
      ResolveDevice(db, id, now, confirm, d);
    }
    var failed, newly := Live(db, id, RowFailed), Newly(db, id, RowFailed, now, confirm);
    assert Live(after, id, RowFailed) == failed + newly;
    CardinalityUnion(failed, newly);
    CardinalityMonotone(newly, Live(db, id, RowIssued));
    CardinalityMonotone(Live(after, id, RowIssued), Live(db, id, RowIssued));
  }

  // ---- Issuing --------------------------------------------------------------------------

  lemma {:induction false} TakenBounds(cands: seq<DeviceId>, slots: nat, env: Env)
    ensures Taken(cands, slots, env) <= Elements(cands)
    ensures |Taken(cands, slots, env)| <= slots
  {
    if cands != [] && slots > 0 {
      assert cands == [cands[0]] + cands[1..];
      TakenBounds(cands[1..], slots, env);
      TakenBounds(cands[1..], slots - 1, env);
      var rest := Taken(cands[1..], slots - 1, env);
      assert |{cands[0]} + rest| <= 1 + |rest|;
    }
  }

  /** A reachable candidate is left out only when every slot went to one listed before it. */
  lemma {:induction false} TakenIsGreedy(cands: seq<DeviceId>, slots: nat, env: Env, k: nat)
    requires forall i, j :: 0 <= i < j < |cands| ==> cands[i] != cands[j]
    requires k < |cands| && cands[k] in env.online - env.refused - env.unrecorded
    requires cands[k] !in Taken(cands, slots, env)
    ensures |Taken(cands, slots, env)| == slots
    ensures Taken(cands, slots, env) <= Elements(cands[..k])
  {
    if slots > 0 && k > 0 {
      var rest := cands[1..];
      assert cands[0] !in rest;
      assert cands[k] == rest[k - 1];
      assert cands[..k] == [cands[0]] + rest[..k - 1];
      if cands[0] in env.online - env.refused - env.unrecorded {
        TakenBounds(rest, slots - 1, env);
        TakenIsGreedy(rest, slots - 1, env, k - 1);
        assert cands[0] !in Taken(rest, slots - 1, env);
      } else {
        TakenIsGreedy(rest, slots, env, k - 1);
      }
    }
  }

  ghost function NewRows(taken: set<DeviceId>, env: Env): Rows {
    map d | d in taken :: NewRow(env, d)
  }

  ghost function NewCommands(ids: set<CommandId>, env: Env): map<CommandId, Command> {
    map c | c in ids :: NewCommand(env, c.device)
  }

  lemma {:induction false} NewRowsExtend(progress: map<RolloutId, Rows>, id: RolloutId, d: DeviceId, taken: set<DeviceId>, env: Env)
    requires id in progress
    ensures var rows: Rows := progress[id][d := NewRow(env, d)];
      var next := progress[id := rows];
      next[id := next[id] + NewRows(taken, env)] == progress[id := progress[id] + NewRows({d} + taken, env)]
  {
    var rows: Rows := progress[id][d := NewRow(env, d)];
    assert rows + NewRows(taken, env) == progress[id] + NewRows({d} + taken, env);
  }

  lemma {:induction false} NewCommandsExtend(commands: map<CommandId, Command>, c: CommandId, ids: set<CommandId>, env: Env)
    ensures commands[c := NewCommand(env, c.device)] + NewCommands(ids, env) == commands + NewCommands({c} + ids, env)
  {
  }

  lemma {:induction false} NothingNew(db: Db, id: RolloutId, env: Env)
    requires id in db.progress
    ensures db.progress[id := db.progress[id] + NewRows({}, env)] == db.progress
    ensures db.commands + NewCommands({}, env) == db.commands
  {
    assert db.progress[id] + NewRows({}, env) == db.progress[id];
  }

  /** Issuing adds one issued row per taken candidate and one open command per
      candidate that was sent one, and changes nothing else. */
  lemma {:induction false} IssueEffect(db: Db, id: RolloutId, cands: seq<DeviceId>, slots: nat, env: Env)
    requires id in db.progress
    ensures Issue(db, id, cands, slots, env) ==
            db.(progress := db.progress[id := db.progress[id] + NewRows(Taken(cands, slots, env), env)],
                commands := db.commands + NewCommands(Commanded(cands, slots, env), env))
    decreases |cands|
  {
    if cands == [] || slots == 0 {
      NothingNew(db, id, env);
    } else {
      var c, rest := cands[0], cands[1..];
      if c !in env.online || c in env.refused {
        IssueEffect(db, id, rest, slots, env);
      } else if c in env.unrecorded {
        IssueEffect(IssueCommand(db, c, env), id, rest, slots, env);
        NewCommandsExtend(db.commands, CommandId(env.serial, c), Commanded(rest, slots, env), env);
      } else {
        IssueEffect(AddRow(IssueCommand(db, c, env), id, c, env), id, rest, slots - 1, env);
        NewCommandsExtend(db.commands, CommandId(env.serial, c), Commanded(rest, slots - 1, env), env);
        NewRowsExtend(db.progress, id, c, Taken(rest, slots - 1, env), env);
      }
    }
  }

  /** Every taken candidate was sent a command, and every new command belongs to this pass. */
  lemma {:induction false} CommandedBounds(cands: seq<DeviceId>, slots: nat, env: Env)
    ensures forall d :: d in Taken(cands, slots, env) ==> CommandId(env.serial, d) in Commanded(cands, slots, env)
    ensures forall c :: c in Commanded(cands, slots, env) ==> c.pass == env.serial && c.device in Elements(cands)
  {
    if cands != [] && slots > 0 {
      assert cands == [cands[0]] + cands[1..];
      CommandedBounds(cands[1..], slots, env);
      CommandedBounds(cands[1..], slots - 1, env);
    }
  }

  /** Where one device is counted before and after the new rows are added. */
  lemma {:induction false} NewRowsDevice(db: Db, id: RolloutId, taken: set<DeviceId>, env: Env, after: Db, d: DeviceId)
    requires id in db.rollouts && id in db.progress && taken <= Remaining(db, id, db.rollouts[id])
    requires after.progress == db.progress[id := db.progress[id] + NewRows(taken, env)] && after.devices == db.devices
    ensures d in Live(after, id, RowIssued) <==> d in Live(db, id, RowIssued) + taken
    ensures d in Live(after, id, RowFailed) <==> d in Live(db, id, RowFailed)
    ensures d in Remaining(db, id, db.rollouts[id]) <==> d in Remaining(after, id, db.rollouts[id]) + taken
    ensures d in taken ==> d !in Live(db, id, RowIssued) && d !in Remaining(after, id, db.rollouts[id])
  {
    if d in taken {
      assert d in Remaining(db, id, db.rollouts[id]);
      assert RowsOf(after, id)[d] == NewRow(env, d);
    } else {
      assert d in RowsOf(after, id) <==> d in RowsOf(db, id);
    }
  }

  /** Taken candidates move from the remaining count to the issued count. */
  lemma {:induction false} IssueCounts(db: Db, id: RolloutId, cands: seq<DeviceId>, slots: nat, env: Env)
    requires WellFormed(db) && id in db.rollouts && IsCandidateList(db, id, cands)
    ensures var after, taken, r := Issue(db, id, cands, slots, env), Taken(cands, slots, env), db.rollouts[id];
      && WellFormed(after)
      && |Live(after, id, RowIssued)| == |Live(db, id, RowIssued)| + |taken|
      && |Live(after, id, RowFailed)| == |Live(db, id, RowFailed)|
      && |Remaining(after, id, r)| == |Remaining(db, id, r)| - |taken|
  {
    var after, taken, r := Issue(db, id, cands, slots, env), Taken(cands, slots, env), db.rollouts[id];
    IssueEffect(db, id, cands, slots, env);
    TakenBounds(cands, slots, env);
    CommandedBounds(cands, slots, env);
    CandidatesAreRemaining(db, id, cands);
    IssueWellFormed(db, id, taken, Commanded(cands, slots, env), env);
    NewRowsCounts(db, id, taken, env, after);
  }

  lemma {:induction false} NewRowsCounts(db: Db, id: RolloutId, taken: set<DeviceId>, env: Env, after: Db)
    requires id in db.rollouts && id in db.progress && taken <= Remaining(db, id, db.rollouts[id])
    requires after.progress == db.progress[id := db.progress[id] + NewRows(taken, env)] && after.devices == db.devices
    ensures |Live(after, id, RowIssued)| == |Live(db, id, RowIssued)| + |taken|
    ensures |Live(after, id, RowFailed)| == |Live(db, id, RowFailed)|
    ensures |Remaining(after, id, db.rollouts[id])| == |Remaining(db, id, db.rollouts[id])| - |taken|
  {
    var r := db.rollouts[id];
    forall d
      ensures d in Live(after, id, RowIssued) <==> d in Live(db, id, RowIssued) + taken
      ensures d in Live(after, id, RowFailed) <==> d in Live(db, id, RowFailed)
      ensures d in Remaining(db, id, r) <==> d in Remaining(after, id, r) + taken
      ensures d in taken ==> d !in Live(db, id, RowIssued) && d !in Remaining(after, id, r)
    {
      NewRowsDevice(db, id, taken, env, after, d);
    }
    assert Live(after, id, RowIssued) == Live(db, id, RowIssued) + taken;
    assert Live(after, id, RowFailed) == Live(db, id, RowFailed);
    assert Remaining(db, id, r) == Remaining(after, id, r) + taken;
    CardinalityUnion(Live(db, id, RowIssued), taken);
    CardinalityUnion(Remaining(after, id, r), taken);
  }

  lemma {:induction false} IssueWellFormed(db: Db, id: RolloutId, taken: set<DeviceId>, ids: set<CommandId>, env: Env)
    requires WellFormed(db) && id in db.rollouts && taken <= Remaining(db, id, db.rollouts[id])
    requires forall d :: d in taken ==> CommandId(env.serial, d) in ids
    ensures WellFormed(db.(progress := db.progress[id := db.progress[id] + NewRows(taken, env)],
                           commands := db.commands + NewCommands(ids, env)))
  {
    var after := db.(progress := db.progress[id := db.progress[id] + NewRows(taken, env)],
                     commands := db.commands + NewCommands(ids, env));
    forall i, d | i in after.progress && d in after.progress[i]
      ensures RowOk(after, d, after.progress[i][d])
    {
      if i == id && d in taken {
        assert after.progress[i][d] == NewRow(env, d);
      } else {
        assert RowOk(db, d, db.progress[i][d]);
      }
    }
  }

  lemma {:induction false} PhaseKeepsCounts(db: Db, id: RolloutId, to: Phase, now: Time, r: Rollout)
    requires id in db.rollouts
    ensures var after := WithPhase(db, id, to, now);
      && (forall state :: Live(after, id, state) == Live(db, id, state))
      && Remaining(after, id, r) == Remaining(db, id, r)
      && (WellFormed(db) ==> WellFormed(after))
  {
    var after := WithPhase(db, id, to, now);
    if WellFormed(db) {
      forall i, d | i in after.progress && d in after.progress[i]
        ensures RowOk(after, d, after.progress[i][d])
      {
        assert RowOk(db, d, db.progress[i][d]);
      }
    }
  }

  lemma {:induction false} RemainingIgnoresPhase(db: Db, id: RolloutId, r: Rollout, to: Phase, at: Option<Time>)
    ensures Remaining(db, id, r.(phase := to, finishedAt := at)) == Remaining(db, id, r)
  {
  }

  /** The progress measure: an issue takes a device from remaining to issued, a
      resolution takes it out of issued. */
  function Outstanding(db: Db, id: RolloutId): nat
    requires id in db.rollouts
  {
    2 * |Remaining(db, id, db.rollouts[id])| + |Live(db, id, RowIssued)|
  }

  /** Live rows a pass takes out of the issued state. */
  function PassResolved(db: Db, id: RolloutId, env: Env): int
    requires id in db.rollouts
  {
    |Live(db, id, RowIssued)| - |Live(Resolve(db, id, env.now, env.confirm), id, RowIssued)|
  }

  /** The counts after a pass in terms of those before it and of the rows it took. */
  ghost predicate Counted(db: Db, id: RolloutId, env: Env, after: Db, taken: set<DeviceId>)
    requires id in db.rollouts
  {
    && WellFormed(after)
    && |Live(after, id, RowFailed)| == |Live(db, id, RowFailed)| + |Newly(db, id, RowFailed, env.now, env.confirm)|
    && |Live(after, id, RowIssued)| == |Live(db, id, RowIssued)| - PassResolved(db, id, env) + |taken|
    && |Remaining(after, id, db.rollouts[id])| == |Remaining(db, id, db.rollouts[id])| - |taken|
    && PassResolved(db, id, env) >= 0
    && (|taken| > 0 ==> |Live(after, id, RowIssued)| <= db.rollouts[id].batchSize)
  }

  lemma {:induction false} ResolvedCounts(db: Db, id: RolloutId, env: Env)
    requires WellFormed(db) && id in db.rollouts
    ensures Counted(db, id, env, Resolve(db, id, env.now, env.confirm), {})
  {
    ResolveWellFormed(db, id, env.now, env.confirm);
    ResolveCounts(db, id, env.now, env.confirm);
  }

  /** A change of phase changes no count. */
  lemma {:induction false} PhaseCounts(db: Db, id: RolloutId, env: Env, before: Db, to: Phase, taken: set<DeviceId>)
    requires id in db.rollouts && id in before.rollouts && Counted(db, id, env, before, taken)
    ensures Counted(db, id, env, WithPhase(before, id, to, env.now), taken)
  {
    PhaseKeepsCounts(before, id, to, env.now, db.rollouts[id]);
  }

  lemma {:induction false} IssuedCounts(db: Db, id: RolloutId, env: Env, cands: seq<DeviceId>, slots: nat)
    requires WellFormed(db) && id in db.rollouts && slots == Slots(Resolve(db, id, env.now, env.confirm), id)
    requires IsCandidateList(Resolve(db, id, env.now, env.confirm), id, cands)
    ensures Counted(db, id, env, Issue(Resolve(db, id, env.now, env.confirm), id, cands, slots, env), Taken(cands, slots, env))
  {
    ResolvedCounts(db, id, env);
    IssueCounts(Resolve(db, id, env.now, env.confirm), id, cands, slots, env);
    TakenBounds(cands, slots, env);
  }

  /** The counts after a pass over an active rollout. */
  lemma {:induction false} PassCounts(db: Db, id: RolloutId, env: Env, cands: seq<DeviceId>)
    requires WellFormed(db) && id in db.rollouts && db.rollouts[id].phase == Active
    requires IsCandidateList(Resolve(db, id, env.now, env.confirm), id, cands)
    ensures Counted(db, id, env, Pass(db, id, env, cands), PassTaken(db, id, env, cands))
  {
    var resolved := Resolve(db, id, env.now, env.confirm);
    ResolvedCounts(db, id, env);
    if MustPause(db, id, env) {
      PhaseCounts(db, id, env, resolved, Paused, {});
    } else {
      var slots := Slots(resolved, id);
      if slots == 0 || env.released {
        IssuedCounts(db, id, env, cands, slots);
        PhaseCounts(db, id, env, Issue(resolved, id, cands, slots, env), Completed, Taken(cands, slots, env));
      }
    }
  }

  /** What a pass has to do with pausing. */
  ghost predicate PausesRightly(db: Db, id: RolloutId, after: Db)
    requires id in db.rollouts
  {
    && id in after.rollouts
    && (after.rollouts[id].phase == Paused <==>
          && 0 < db.rollouts[id].maxFailures <= |Live(after, id, RowFailed)|
          && |Live(after, id, RowFailed)| > |Live(db, id, RowFailed)|)
    && (after.rollouts[id].phase == Paused ==> RowsOf(after, id).Keys == RowsOf(db, id).Keys && after.commands == db.commands)
  }

  lemma {:induction false} PausingPass(db: Db, id: RolloutId, env: Env)
    requires WellFormed(db) && id in db.rollouts && MustPause(db, id, env)
    ensures PausesRightly(db, id, WithPhase(Resolve(db, id, env.now, env.confirm), id, Paused, env.now))
  {
    ResolveCounts(db, id, env.now, env.confirm);
    PhaseKeepsCounts(Resolve(db, id, env.now, env.confirm), id, Paused, env.now, db.rollouts[id]);
  }

  lemma {:induction false} OtherPass(db: Db, id: RolloutId, env: Env, after: Db)
    requires WellFormed(db) && id in db.rollouts && !MustPause(db, id, env)
    requires id in after.rollouts && after.rollouts[id].phase != Paused
    requires |Live(after, id, RowFailed)| <= |Live(Resolve(db, id, env.now, env.confirm), id, RowFailed)|
    ensures PausesRightly(db, id, after)
  {
    ResolveCounts(db, id, env.now, env.confirm);
  }

  /** A pass pauses exactly when it finds a new failure that brings the total to the
      threshold, and then issues nothing; a pass without a new failure never pauses. */
  lemma {:induction false} PassPauses(db: Db, id: RolloutId, env: Env, cands: seq<DeviceId>)
    requires WellFormed(db) && id in db.rollouts && db.rollouts[id].phase == Active
    ensures PausesRightly(db, id, Pass(db, id, env, cands))
  {
    var resolved := Resolve(db, id, env.now, env.confirm);
    if MustPause(db, id, env) {
      PausingPass(db, id, env);
    } else {
      var slots := Slots(resolved, id);
      if slots == 0 || env.released {
        PassKeepsFailed(resolved, id, cands, slots, env);
      }
      OtherPass(db, id, env, Pass(db, id, env, cands));
    }
  }

  lemma {:induction false} PassKeepsFailed(db: Db, id: RolloutId, cands: seq<DeviceId>, slots: nat, env: Env)
    requires id in db.rollouts && id in db.progress
    ensures var after := Issue(db, id, cands, slots, env);
      && |Live(after, id, RowFailed)| <= |Live(db, id, RowFailed)|
      && |Live(WithPhase(after, id, Completed, env.now), id, RowFailed)| <= |Live(db, id, RowFailed)|
  {
    var after := Issue(db, id, cands, slots, env);
    IssueEffect(db, id, cands, slots, env);
    forall d | d in Live(after, id, RowFailed)
      ensures d in Live(db, id, RowFailed)
    {
      if d in Taken(cands, slots, env) {
        assert RowsOf(after, id)[d] == NewRow(env, d);
      }
    }
    CardinalityMonotone(Live(after, id, RowFailed), Live(db, id, RowFailed));
    PhaseKeepsCounts(after, id, Completed, env.now, db.rollouts[id]);
  }

  /** A device still needs the rollout: it is targeted, reports another version and has
      no finished row; or it was sent the update and is not resolved. */
  ghost predicate Needs(db: Db, id: RolloutId, r: Rollout, d: DeviceId) {
    && d in db.devices
    && !db.devices[d].revoked
    && ((InGroups(r, db.devices[d]) && db.devices[d].version != r.version && d !in RowsOf(db, id)) ||
        (d in RowsOf(db, id) && RowsOf(db, id)[d].state == RowIssued))
  }

  lemma {:induction false} NobodyNeeds(db: Db, id: RolloutId, r: Rollout)
    ensures (forall d :: !Needs(db, id, r, d)) <==> |Live(db, id, RowIssued)| == 0 && |Remaining(db, id, r)| == 0
  {
    var live, rest := Live(db, id, RowIssued), Remaining(db, id, r);
    assert forall d :: Needs(db, id, r, d) <==> d in live + rest;
    if |live| == 0 && |rest| == 0 {
      assert live + rest == {};
    } else {
      assert live + rest != {};
      assert exists d :: d in live + rest;
    }
  }

  /** A pass that neither pauses nor misses its release completes the rollout exactly
      when, after it, no device needs the rollout any more. */
  lemma {:induction false} PassCompletes(db: Db, id: RolloutId, env: Env, cands: seq<DeviceId>)
    requires WellFormed(db) && id in db.rollouts && db.rollouts[id].phase == Active
    requires IsCandidateList(Resolve(db, id, env.now, env.confirm), id, cands)
    ensures var r, after := db.rollouts[id], Pass(db, id, env, cands);
      after.rollouts[id].phase == Completed <==>
      && after.rollouts[id].phase != Paused
      && (env.released || Slots(Resolve(db, id, env.now, env.confirm), id) == 0)
      && (forall d :: !Needs(after, id, r, d))
  {
    PassCounts(db, id, env, cands);
    ResolveCounts(db, id, env.now, env.confirm);
    NobodyNeeds(Pass(db, id, env, cands), id, db.rollouts[id]);
  }

  /** With a fixed fleet, each issue and each resolution lowers the measure by one. */
  lemma {:induction false} PassProgress(db: Db, id: RolloutId, env: Env, cands: seq<DeviceId>)
    requires WellFormed(db) && id in db.rollouts && db.rollouts[id].phase == Active
    requires IsCandidateList(Resolve(db, id, env.now, env.confirm), id, cands)
    ensures Outstanding(Pass(db, id, env, cands), id) ==
            Outstanding(db, id) - PassResolved(db, id, env) - |PassTaken(db, id, env, cands)|
  {
    PassCounts(db, id, env, cands);
    var after := Pass(db, id, env, cands);
    RemainingIgnoresPhase(after, id, db.rollouts[id], after.rollouts[id].phase, after.rollouts[id].finishedAt);
  }
}
