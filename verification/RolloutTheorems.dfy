/** The rollout engine's guarantees over every run. */
module RolloutTheorems {
  import opened Common
  import opened Rollouts
  import opened RolloutPass
  import opened RolloutRuns

  // ---- Rows -------------------------------------------------------------------------------

  /** Each old row is resolved by the rules and each new row is fresh. */
  ghost predicate RowsMoved(db: Db, id: RolloutId, env: Env, after: Db)
    requires id in db.rollouts
  {
    && (forall d :: d in RowsOf(db, id) ==>
          d in RowsOf(after, id) &&
          RowsOf(after, id)[d] == ResolvedRow(db, db.rollouts[id], d, RowsOf(db, id)[d], env.now, env.confirm))
    && (forall d :: d in RowsOf(after, id) && d !in RowsOf(db, id) ==>
          RowsOf(after, id)[d] == NewRow(env, d) && CommandId(env.serial, d) in after.commands)
  }

  lemma {:induction false} IssuedRows(db: Db, id: RolloutId, env: Env, cands: seq<DeviceId>, slots: nat)
    requires WellFormed(db) && id in db.rollouts
    requires IsCandidateList(Resolve(db, id, env.now, env.confirm), id, cands)
    ensures RowsMoved(db, id, env, Issue(Resolve(db, id, env.now, env.confirm), id, cands, slots, env))
  {
    var resolved, taken := Resolve(db, id, env.now, env.confirm), Taken(cands, slots, env);
    IssueEffect(resolved, id, cands, slots, env);
    TakenBounds(cands, slots, env);
    CommandedBounds(cands, slots, env);
    CandidatesAreRemaining(resolved, id, cands);
    assert forall d :: d in taken ==> d !in RowsOf(db, id);
    assert RowsOf(Issue(resolved, id, cands, slots, env), id) == RowsOf(resolved, id) + NewRows(taken, env);
  }

  /** What a pass does to the rows of an active rollout. */
  lemma {:induction false} PassRows(db: Db, id: RolloutId, env: Env, cands: seq<DeviceId>)
    requires WellFormed(db) && id in db.rollouts && db.rollouts[id].phase == Active
    requires IsCandidateList(Resolve(db, id, env.now, env.confirm), id, cands)
    ensures RowsMoved(db, id, env, Pass(db, id, env, cands))
  {
    var resolved := Resolve(db, id, env.now, env.confirm);
    var slots := Slots(resolved, id);
    if !MustPause(db, id, env) && (slots == 0 || env.released) {
      IssuedRows(db, id, env, cands, slots);
    }
  }

  /** A row is never replaced, and a resolved row never changes. */
  ghost predicate RowsKept(a: Db, b: Db) {
    forall id, d :: id in a.progress && d in a.progress[id] ==>
      && id in b.progress && d in b.progress[id]
      && b.progress[id][d].command == a.progress[id][d].command
      && b.progress[id][d].issuedAt == a.progress[id][d].issuedAt
      && (a.progress[id][d].state != RowIssued ==> b.progress[id][d] == a.progress[id][d])
  }

  lemma {:induction false} StepKeepsRows(w: World, step: Step)
    requires WellFormed(w.db) && Enabled(w, step)
    ensures RowsKept(w.db, Apply(w, step).db)
  {
    if step.RunPass? {
      PassIsConfined(w.db, step.id, step.env, step.cands);
      if w.db.rollouts[step.id].phase == Active {
        PassRows(w.db, step.id, step.env, step.cands);
      }
    } else {
      StepIsQuiet(w, step);
      forall id | id in w.db.progress
        ensures id in Apply(w, step).db.progress && Apply(w, step).db.progress[id] == w.db.progress[id]
      {
        assert RowsOf(Apply(w, step).db, id) == RowsOf(w.db, id);
      }
    }
  }

  lemma {:induction false} RunKeepsRows(w: World, steps: seq<Step>)
    requires WellFormed(w.db) && Run(w, steps)
    ensures RowsKept(w.db, Final(w, steps).db)
    decreases |steps|
  {
    if steps != [] {
      StepKeepsRows(w, steps[0]);
      StepWellFormed(w, steps[0]);
      RunKeepsRows(Apply(w, steps[0]), steps[1..]);
    }
  }

  // ---- Rollout life cycle --------------------------------------------------------------------

  ghost predicate OneOpen(db: Db) {
    forall i, j :: i in db.rollouts && j in db.rollouts && IsOpen(db.rollouts[i].phase) && IsOpen(db.rollouts[j].phase) ==> i == j
  }

  lemma {:induction false} PassPhase(db: Db, id: RolloutId, env: Env, cands: seq<DeviceId>)
    requires WellFormed(db) && id in db.rollouts
    ensures var after := Pass(db, id, env, cands);
      && id in after.rollouts
      && (!IsOpen(db.rollouts[id].phase) ==> after.rollouts[id] == db.rollouts[id])
  {
    PassIsConfined(db, id, env, cands);
  }

  /** Rollouts that are not open are as before. */
  ghost predicate ClosedKept(a: Db, b: Db) {
    forall id :: id in a.rollouts && !IsOpen(a.rollouts[id].phase) ==> id in b.rollouts && b.rollouts[id] == a.rollouts[id]
  }

  lemma {:induction false} SetStateKeepsOneOpen(db: Db, id: RolloutId, from: set<Phase>, to: Phase, now: Time)
    requires OneOpen(db) && from <= {Active, Paused}
    ensures OneOpen(SetState(db, id, from, to, now).0) && ClosedKept(db, SetState(db, id, from, to, now).0)
  {
  }

  lemma {:induction false} PassKeepsOneOpen(db: Db, id: RolloutId, env: Env, cands: seq<DeviceId>)
    requires WellFormed(db) && OneOpen(db) && id in db.rollouts
    ensures OneOpen(Pass(db, id, env, cands)) && ClosedKept(db, Pass(db, id, env, cands))
  {
    PassIsConfined(db, id, env, cands);
    PassPhase(db, id, env, cands);
  }

  /** At most one rollout is open, and a completed or cancelled one never changes. */
  lemma {:induction false} StepKeepsOneOpen(w: World, step: Step)
    requires WellFormed(w.db) && OneOpen(w.db) && Enabled(w, step)
    ensures OneOpen(Apply(w, step).db) && ClosedKept(w.db, Apply(w, step).db)
  {
    if step.RunPass? {
      PassKeepsOneOpen(w.db, step.id, step.env, step.cands);
    } else if step.Rollback? {
      RollbackKeepsOneOpen(w.db, step.open, step.id, step.r, step.released, w.clock);
    } else if step.Pause? {
      SetStateKeepsOneOpen(w.db, step.id, {Active}, Paused, w.clock);
    } else if step.Resume? {
      SetStateKeepsOneOpen(w.db, step.id, {Paused}, Active, w.clock);
    } else if step.Cancel? {
      SetStateKeepsOneOpen(w.db, step.id, {Active, Paused}, Cancelled, w.clock);
    } else if !step.Create? {
      OthersKeepRollouts(w, step);
    }
  }

  /** A rollback either changes nothing or closes the old rollout and opens the new one. */
  lemma {:induction false} RollbackKeepsOneOpen(db: Db, open: RolloutId, id: RolloutId, r: Rollout, released: bool, now: Time)
    requires WellFormed(db) && OneOpen(db)
    ensures var (after, outcome) := Replace(db, open, id, r, released, now);
      && OneOpen(after)
      && (outcome != Done ==> after == db)
      && (outcome == Done ==> open in after.rollouts && !IsOpen(after.rollouts[open].phase) && after.rollouts[id] == r)
      && (outcome == Done <==>
            && open in db.rollouts && released && id !in db.rollouts
            && (IsOpen(r.phase) && HasOpen(db) ==> IsOpen(db.rollouts[open].phase)))
      && (forall i :: i in db.rollouts && !IsOpen(db.rollouts[i].phase) ==> i in after.rollouts && after.rollouts[i] == db.rollouts[i])
  {
    if open in db.rollouts {
      var mid := if IsOpen(db.rollouts[open].phase) then WithPhase(db, open, Cancelled, now) else db;
      assert IsOpen(db.rollouts[open].phase) ==> !HasOpen(mid);
    }
  }

  // ---- Command times -----------------------------------------------------------------------------

  /** A sweep leaves no open command past its expiry, and no later result. */
  ghost predicate CommandTimed(w: World, c: Command) {
    && (c.state == Succeeded ==> c.completedAt.Some? && c.completedAt.value <= w.clock)
    && (forall i :: 0 <= i < |w.sweeps| && c.expiresAt <= w.sweeps[i] ==>
          !CommandOpen(c) && (c.state == Succeeded ==> c.completedAt.value <= w.sweeps[i]))
  }

  ghost predicate Timed(w: World) {
    && (forall i :: 0 <= i < |w.sweeps| ==> w.sweeps[i] <= w.clock)
    && (forall c :: c in w.db.commands ==> CommandTimed(w, w.db.commands[c]))
    && (forall id, d :: id in w.db.progress && d in w.db.progress[id] ==> RowTimed(w, w.db.progress[id][d]))
  }

  ghost predicate RowTimed(w: World, row: Row) {
    && row.command in w.db.commands && w.db.commands[row.command].expiresAt == row.issuedAt + DEFAULT_TTL
    && row.issuedAt <= w.clock
  }

  lemma {:induction false} PassCommandTimed(w: World, id: RolloutId, env: Env, cands: seq<DeviceId>, c: CommandId)
    requires WellFormed(w.db) && Timed(w) && Enabled(w, RunPass(id, env, cands)) && c in Pass(w.db, id, env, cands).commands
    ensures CommandTimed(w.(db := Pass(w.db, id, env, cands)), Pass(w.db, id, env, cands).commands[c])
  {
    PassIsConfined(w.db, id, env, cands);
    assert c in w.db.commands ==> CommandTimed(w, w.db.commands[c]);
  }

  lemma {:induction false} PassRowTimed(w: World, id: RolloutId, env: Env, cands: seq<DeviceId>, i: RolloutId, d: DeviceId)
    requires WellFormed(w.db) && Timed(w) && Enabled(w, RunPass(id, env, cands))
    requires i in Pass(w.db, id, env, cands).progress && d in Pass(w.db, id, env, cands).progress[i]
    ensures RowTimed(w.(db := Pass(w.db, id, env, cands)), Pass(w.db, id, env, cands).progress[i][d])
  {
    var after := Pass(w.db, id, env, cands);
    PassIsConfined(w.db, id, env, cands);
    if w.db.rollouts[id].phase == Active {
      PassRows(w.db, id, env, cands);
      MovedRowTimed(w, id, env, after, i, d);
    } else {
      assert RowTimed(w, w.db.progress[i][d]);
    }
  }

  lemma {:induction false} MovedRowTimed(w: World, id: RolloutId, env: Env, after: Db, i: RolloutId, d: DeviceId)
    requires Timed(w) && id in w.db.rollouts && id in w.db.progress && env.now == w.clock && Confined(w.db, after, id, env)
    requires RowsMoved(w.db, id, env, after) && i in after.progress && d in after.progress[i]
    requires forall c :: c in w.db.commands ==> c.pass != env.serial
    ensures RowTimed(w.(db := after), after.progress[i][d])
  {
    assert i in w.db.progress;
    var c := after.progress[i][d].command;
    if d in w.db.progress[i] {
      assert RowTimed(w, w.db.progress[i][d]);
      assert i == id ==> after.progress[i][d] == RowsOf(after, id)[d] && w.db.progress[i][d] == RowsOf(w.db, id)[d];
      assert c == w.db.progress[i][d].command && c in w.db.commands && c.pass != env.serial;
    } else {
      assert i == id && d in RowsOf(after, id) && d !in RowsOf(w.db, id);
      assert c == CommandId(env.serial, d) && c !in w.db.commands;
    }
  }

  lemma {:induction false} PassKeepsTimed(w: World, id: RolloutId, env: Env, cands: seq<DeviceId>)
    requires WellFormed(w.db) && Timed(w) && Enabled(w, RunPass(id, env, cands))
    ensures Timed(w.(db := Pass(w.db, id, env, cands)))
  {
    var v := w.(db := Pass(w.db, id, env, cands));
    forall c | c in v.db.commands
      ensures CommandTimed(v, v.db.commands[c])
    {
      PassCommandTimed(w, id, env, cands, c);
    }
    forall i, d | i in v.db.progress && d in v.db.progress[i]
      ensures RowTimed(v, v.db.progress[i][d])
    {
      PassRowTimed(w, id, env, cands, i, d);
    }
  }

  /** A change of one command that keeps its expiry and its closed state. */
  lemma {:induction false} CommandsKeepTimed(w: World, v: World)
    requires WellFormed(w.db) && Timed(w)
    requires v.db.progress == w.db.progress && v.clock == w.clock
    requires w.sweeps <= v.sweeps && (forall i :: 0 <= i < |v.sweeps| ==> v.sweeps[i] <= v.clock)
    requires v.db.commands.Keys == w.db.commands.Keys
    requires forall c :: c in v.db.commands ==>
               v.db.commands[c].expiresAt == w.db.commands[c].expiresAt && CommandTimed(v, v.db.commands[c])
    ensures Timed(v)
  {
    forall id, d | id in v.db.progress && d in v.db.progress[id]
      ensures RowTimed(v, v.db.progress[id][d])
    {
      assert RowTimed(w, w.db.progress[id][d]);
    }
  }

  lemma {:induction false} CommandStepKeepsTimed(w: World, step: Step)
    requires WellFormed(w.db) && Timed(w) && Enabled(w, step)
    requires step.MarkSent? || step.Report? || step.Sweep?
    ensures Timed(Apply(w, step))
  {
    var v := Apply(w, step);
    forall c | c in v.db.commands
      ensures v.db.commands[c].expiresAt == w.db.commands[c].expiresAt && CommandTimed(v, v.db.commands[c])
    {
      assert CommandTimed(w, w.db.commands[c]);
    }
    CommandsKeepTimed(w, v);
  }

  lemma {:induction false} OthersKeepCommands(w: World, step: Step)
    requires Enabled(w, step) && !step.RunPass? && !step.MarkSent? && !step.Report? && !step.Sweep?
    ensures var v := Apply(w, step);
      v.db.commands == w.db.commands && v.sweeps == w.sweeps && v.clock >= w.clock
  {
  }

  lemma {:induction false} QuietKeepsTimed(w: World, v: World)
    requires WellFormed(w.db) && Timed(w) && Quiet(w.db, v.db)
    requires v.db.commands == w.db.commands && v.sweeps == w.sweeps && v.clock >= w.clock
    ensures Timed(v)
  {
    forall c | c in v.db.commands
      ensures CommandTimed(v, v.db.commands[c])
    {
      assert CommandTimed(w, w.db.commands[c]);
    }
    forall id, d | id in v.db.progress && d in v.db.progress[id]
      ensures RowTimed(v, v.db.progress[id][d])
    {
      assert RowsOf(v.db, id) == RowsOf(w.db, id);
      assert RowTimed(w, w.db.progress[id][d]);
    }
  }

  lemma {:induction false} StepKeepsTimed(w: World, step: Step)
    requires WellFormed(w.db) && Timed(w) && Enabled(w, step)
    ensures Timed(Apply(w, step))
  {
    if step.RunPass? {
      PassKeepsTimed(w, step.id, step.env, step.cands);
    } else if step.MarkSent? || step.Report? || step.Sweep? {
      CommandStepKeepsTimed(w, step);
    } else {
      StepIsQuiet(w, step);
      OthersKeepCommands(w, step);
      QuietKeepsTimed(w, Apply(w, step));
    }
  }

  // ---- Whole runs -------------------------------------------------------------------------------------

  ghost predicate Inv(w: World) {
    WellFormed(w.db) && BatchOk(w.db) && AllFailuresOk(w) && OneOpen(w.db) && Timed(w)
  }

  lemma {:induction false} StepKeepsInv(w: World, step: Step)
    requires Inv(w) && Enabled(w, step)
    ensures Inv(Apply(w, step))
  {
    StepWellFormed(w, step);
    StepKeepsBatch(w, step);
    StepKeepsFailures(w, step);
    StepKeepsOneOpen(w, step);
    StepKeepsTimed(w, step);
  }

  lemma {:induction false} RunKeepsInv(w: World, steps: seq<Step>)
    requires Inv(w) && Run(w, steps)
    ensures Inv(Final(w, steps))
    decreases |steps|
  {
    if steps != [] {
      StepKeepsInv(w, steps[0]);
      RunKeepsInv(Apply(w, steps[0]), steps[1..]);
    }
  }

  /** In every reachable state no rollout has more devices in flight than its batch size. */
  lemma {:induction false} BatchBound(steps: seq<Step>, id: RolloutId)
    requires Run(START, steps) && id in Final(START, steps).db.rollouts
    ensures var db := Final(START, steps).db;
      Summarize(db, id).issued <= db.rollouts[id].batchSize
  {
    RunKeepsInv(START, steps);
  }

  /** In every reachable state the failures stay below the threshold plus one batch per
      activation of the rollout. */
  lemma {:induction false} FailureOvershootBound(steps: seq<Step>, id: RolloutId)
    requires Run(START, steps) && id in Final(START, steps).db.rollouts
    requires Final(START, steps).db.rollouts[id].maxFailures > 0
    ensures var w := Final(START, steps);
      var r := w.db.rollouts[id];
      Summarize(w.db, id).failed <= r.maxFailures - 1 + r.batchSize * (1 + Resumes(w, id))
  {
    RunKeepsInv(START, steps);
    FailuresBounded(Final(START, steps), id);
  }

  lemma {:induction false} FailuresBounded(w: World, id: RolloutId)
    requires AllFailuresOk(w) && id in w.db.rollouts && w.db.rollouts[id].maxFailures > 0
    ensures var r := w.db.rollouts[id];
      Summarize(w.db, id).failed <= r.maxFailures - 1 + r.batchSize * (1 + Resumes(w, id))
  {
    assert FailuresOk(w, id);
  }

  /** In every reachable state the counts of the summary add up, the tenant has one open
      rollout at most, and the candidate query lists exactly the remaining devices. */
  lemma {:induction false} ReachableSummary(steps: seq<Step>, id: RolloutId)
    requires Run(START, steps) && id in Final(START, steps).db.rollouts
    ensures var db := Final(START, steps).db;
      var sum := Summarize(db, id);
      && sum.targeted + |MovedOut(db, id, db.rollouts[id])| ==
         sum.alreadyCurrent + sum.remaining + sum.issued + sum.updated + sum.failed
      && OneOpen(db)
      && (forall cands :: IsCandidateList(db, id, cands) ==>
            Elements(cands) == Remaining(db, id, db.rollouts[id]) && |cands| == sum.remaining)
  {
    RunKeepsInv(START, steps);
    var db := Final(START, steps).db;
    SummaryConservation(db, id);
    forall cands | IsCandidateList(db, id, cands)
      ensures Elements(cands) == Remaining(db, id, db.rollouts[id]) && |cands| == Summarize(db, id).remaining
    {
      CandidatesAreRemaining(db, id, cands);
    }
  }

  /** A row whose command a sweep has closed, a confirmation period ago, does not stay issued. */
  lemma {:induction false} OldRowResolves(w: World, id: RolloutId, env: Env, d: DeviceId, i: nat)
    requires WellFormed(w.db) && Timed(w) && id in w.db.rollouts && d in RowsOf(w.db, id) && i < |w.sweeps|
    requires RowsOf(w.db, id)[d].issuedAt + DEFAULT_TTL <= w.sweeps[i] <= env.now - env.confirm
    ensures ResolvedState(w.db, w.db.rollouts[id], d, RowsOf(w.db, id)[d], env.now, env.confirm) != RowIssued
  {
    var row := w.db.progress[id][d];
    assert RowOk(w.db, d, row);
    assert RowTimed(w, row);
    assert CommandTimed(w, w.db.commands[row.command]);
  }

  /** Whatever results arrived and when: once a sweep has run after a row's command
      expired, any pass over the active rollout a confirmation period later resolves it. */
  lemma {:induction false} BoundedResolution(steps: seq<Step>, id: RolloutId, env: Env, cands: seq<DeviceId>, d: DeviceId, i: nat)
    requires Run(START, steps) && Enabled(Final(START, steps), RunPass(id, env, cands))
    requires var w := Final(START, steps);
      && w.db.rollouts[id].phase == Active
      && d in RowsOf(w.db, id)
      && i < |w.sweeps|
      && RowsOf(w.db, id)[d].issuedAt + DEFAULT_TTL <= w.sweeps[i] <= env.now - env.confirm
    ensures var db := Pass(Final(START, steps).db, id, env, cands);
      d in RowsOf(db, id) && RowsOf(db, id)[d].state != RowIssued
  {
    RunKeepsInv(START, steps);
    PassResolvesOldRow(Final(START, steps), id, env, cands, d, i);
  }

  lemma {:induction false} PassResolvesOldRow(w: World, id: RolloutId, env: Env, cands: seq<DeviceId>, d: DeviceId, i: nat)
    requires WellFormed(w.db) && Timed(w) && id in w.db.rollouts && w.db.rollouts[id].phase == Active
    requires IsCandidateList(Resolve(w.db, id, env.now, env.confirm), id, cands) && d in RowsOf(w.db, id) && i < |w.sweeps|
    requires RowsOf(w.db, id)[d].issuedAt + DEFAULT_TTL <= w.sweeps[i] <= env.now - env.confirm
    ensures var db := Pass(w.db, id, env, cands); d in RowsOf(db, id) && RowsOf(db, id)[d].state != RowIssued
  {
    OldRowResolves(w, id, env, d, i);
    PassRows(w.db, id, env, cands);
  }

  lemma {:induction false} NoNeedMeansFinished(db: Db, id: RolloutId, r: Rollout, d: DeviceId)
    requires WellFormed(db) && id in db.progress && d in Targeted(db, r) && !Needs(db, id, r, d)
    ensures || db.devices[d].version == r.version
            || (d in RowsOf(db, id) && (RowsOf(db, id)[d].state == RowUpdated || RowsOf(db, id)[d].state == RowFailed))
  {
    if d in RowsOf(db, id) {
      assert RowOk(db, d, db.progress[id][d]);
    }
  }

  lemma {:induction false} CompletedMeansFinished(db: Db, id: RolloutId, env: Env, cands: seq<DeviceId>, d: DeviceId)
    requires WellFormed(db) && id in db.rollouts && db.rollouts[id].phase == Active
    requires IsCandidateList(Resolve(db, id, env.now, env.confirm), id, cands)
    requires var after := Pass(db, id, env, cands);
      after.rollouts[id].phase == Completed && d in Targeted(after, db.rollouts[id])
    ensures var r, after := db.rollouts[id], Pass(db, id, env, cands);
      || after.devices[d].version == r.version
      || (d in RowsOf(after, id) && (RowsOf(after, id)[d].state == RowUpdated || RowsOf(after, id)[d].state == RowFailed))
  {
    PassCounts(db, id, env, cands);
    PassCompletes(db, id, env, cands);
    var after := Pass(db, id, env, cands);
    assert !Needs(after, id, db.rollouts[id], d);
    NoNeedMeansFinished(after, id, db.rollouts[id], d);
  }

  /** A rollout completes only when every targeted device that is not revoked reports the
      version or has a finished row. */
  lemma {:induction false} CompletionIsTotal(steps: seq<Step>, id: RolloutId, env: Env, cands: seq<DeviceId>, d: DeviceId)
    requires Run(START, steps) && Enabled(Final(START, steps), RunPass(id, env, cands))
    requires Final(START, steps).db.rollouts[id].phase == Active
    requires Pass(Final(START, steps).db, id, env, cands).rollouts[id].phase == Completed
    requires d in Targeted(Pass(Final(START, steps).db, id, env, cands), Final(START, steps).db.rollouts[id])
    ensures var r, db := Final(START, steps).db.rollouts[id], Pass(Final(START, steps).db, id, env, cands);
      || db.devices[d].version == r.version
      || (d in RowsOf(db, id) && (RowsOf(db, id)[d].state == RowUpdated || RowsOf(db, id)[d].state == RowFailed))
  {
    RunKeepsInv(START, steps);
    CompletedMeansFinished(Final(START, steps).db, id, env, cands, d);
  }

  // ---- Progress with a fixed fleet -----------------------------------------------------------------------

  /** Devices neither arrive nor move, and report their old version or the target. */
  ghost predicate FixedFleet(w: World, id: RolloutId, step: Step)
    requires id in w.db.rollouts
  {
    match step
    case Enroll(_, _) => false
    case Move(_, _) => false
    case Heartbeat(d, _, version) =>
      d in w.db.devices ==> version == w.db.devices[d].version || version == w.db.rollouts[id].version
    case _ => true
  }

  ghost predicate FixedRun(w: World, id: RolloutId, steps: seq<Step>)
    decreases |steps|
  {
    id in w.db.rollouts &&
    (steps == [] || (Enabled(w, steps[0]) && FixedFleet(w, id, steps[0]) && FixedRun(Apply(w, steps[0]), id, steps[1..])))
  }

  /** Issues and resolutions of live rows of rollout `id` along a run. */
  ghost function Work(w: World, id: RolloutId, steps: seq<Step>): int
    requires FixedRun(w, id, steps)
    decreases |steps|
  {
    if steps == [] then 0
    else
      (if steps[0].RunPass? && steps[0].id == id && w.db.rollouts[id].phase == Active
       then PassResolved(w.db, id, steps[0].env) + |PassTaken(w.db, id, steps[0].env, steps[0].cands)| else 0)
      + Work(Apply(w, steps[0]), id, steps[1..])
  }

  lemma {:induction false} QuietOutstanding(w: World, id: RolloutId, step: Step)
    requires WellFormed(w.db) && id in w.db.rollouts && Enabled(w, step) && FixedFleet(w, id, step) && !step.RunPass?
    ensures id in Apply(w, step).db.rollouts && Outstanding(Apply(w, step).db, id) <= Outstanding(w.db, id)
  {
    var a, b := w.db, Apply(w, step).db;
    StepIsQuiet(w, step);
    QuietShrinks(a, b, id, RowIssued);
    DevicesFixed(w, id, step);
    var x, y := Remaining(a, id, a.rollouts[id]), Remaining(b, id, b.rollouts[id]);
    forall d | d in y
      ensures d in x
    {
      assert RowsOf(b, id) == RowsOf(a, id);
      assert SameTerms(a.rollouts[id], b.rollouts[id]);
    }
    CardinalityMonotone(y, x);
  }

  lemma {:induction false} DevicesFixed(w: World, id: RolloutId, step: Step)
    requires id in w.db.rollouts && Enabled(w, step) && FixedFleet(w, id, step) && !step.RunPass?
    ensures forall d :: d in Apply(w, step).db.devices ==>
              && d in w.db.devices
              && Apply(w, step).db.devices[d].group == w.db.devices[d].group
              && (Apply(w, step).db.devices[d].version == w.db.devices[d].version ||
                  Apply(w, step).db.devices[d].version == w.db.rollouts[id].version)
              && (w.db.devices[d].revoked ==> Apply(w, step).db.devices[d].revoked)
  {
  }

  lemma {:induction false} OtherPassOutstanding(db: Db, id: RolloutId, env: Env, cands: seq<DeviceId>, other: RolloutId)
    requires WellFormed(db) && id in db.rollouts && other in db.rollouts
    requires other != id || db.rollouts[id].phase != Active
    ensures other in Pass(db, id, env, cands).rollouts
    ensures Outstanding(Pass(db, id, env, cands), other) == Outstanding(db, other)
  {
    if other != id {
      PassIsConfined(db, id, env, cands);
      OtherRollout(db, id, env, cands, other, RowIssued);
      var r := db.rollouts[other];
      assert RowsOf(Pass(db, id, env, cands), other) == RowsOf(db, other);
      assert Remaining(Pass(db, id, env, cands), other, r) == Remaining(db, other, r);
    }
  }

  lemma {:induction false} PassResolvedNonNegative(db: Db, id: RolloutId, env: Env)
    requires WellFormed(db) && id in db.rollouts
    ensures PassResolved(db, id, env) >= 0
  {
    ResolveCounts(db, id, env.now, env.confirm);
  }

  /** With a fixed fleet the measure never rises and falls by one with every issue and
      every resolution, so a rollout's total work is bounded by where it started. */
  lemma {:induction false} RolloutProgress(w: World, id: RolloutId, steps: seq<Step>)
    requires Inv(w) && FixedRun(w, id, steps)
    ensures Run(w, steps) && id in Final(w, steps).db.rollouts
    ensures 0 <= Work(w, id, steps) <= Outstanding(w.db, id) - Outstanding(Final(w, steps).db, id)
    decreases |steps|
  {
    if steps != [] {
      var step, v := steps[0], Apply(w, steps[0]);
      StepKeepsInv(w, step);
      RolloutProgress(v, id, steps[1..]);
      if !step.RunPass? {
        QuietOutstanding(w, id, step);
      } else if step.id != id || w.db.rollouts[id].phase != Active {
        OtherPassOutstanding(w.db, step.id, step.env, step.cands, id);
      } else {
        PassProgress(w.db, id, step.env, step.cands);
        PassResolvedNonNegative(w.db, id, step.env);
      }
    }
  }
}
