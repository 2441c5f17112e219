/** Rollouts come to an end: enough passes over a fixed, reachable fleet complete one. */
module RolloutTermination {
  import opened Common
  import opened Rollouts
  import opened RolloutPass
  import opened RolloutRuns
  import opened RolloutTheorems

  // ---- One pass that gets somewhere ---------------------------------------------------------------

  /** Every row in flight was swept after its command's time to live, a confirmation period ago. */
  ghost predicate Settled(w: World, id: RolloutId, env: Env) {
    forall d :: d in RowsOf(w.db, id) && RowsOf(w.db, id)[d].state == RowIssued ==> SweptInTime(w, RowsOf(w.db, id)[d], env)
  }

  ghost predicate SweptInTime(w: World, row: Row, env: Env) {
    exists i :: 0 <= i < |w.sweeps| && row.issuedAt + DEFAULT_TTL <= w.sweeps[i] <= env.now - env.confirm
  }

  /** The release can be read and every device still to be updated is online and takes commands. */
  ghost predicate Reachable(db: Db, id: RolloutId, env: Env)
    requires id in db.rollouts
  {
    env.released && forall d :: d in Remaining(db, id, db.rollouts[id]) ==> d in env.online - env.refused - env.unrecorded
  }

  /** A rollout that issues at least one device at a time and never pauses itself. */
  ghost predicate Unlimited(db: Db, id: RolloutId) {
    id in db.rollouts && db.rollouts[id].maxFailures == 0 && db.rollouts[id].batchSize > 0
  }

  lemma {:induction false} NothingStaysIssued(w: World, id: RolloutId, env: Env)
    requires WellFormed(w.db) && Timed(w) && id in w.db.rollouts && Settled(w, id, env)
    ensures Live(Resolve(w.db, id, env.now, env.confirm), id, RowIssued) == {}
  {
    var resolved := Resolve(w.db, id, env.now, env.confirm);
    forall d
      ensures d !in Live(resolved, id, RowIssued)
    {
      if d in RowsOf(w.db, id) {
        RowDoesNotStay(w, id, env, d);
      }
    }
  }

  lemma {:induction false} RowDoesNotStay(w: World, id: RolloutId, env: Env, d: DeviceId)
    requires WellFormed(w.db) && Timed(w) && id in w.db.rollouts && Settled(w, id, env) && d in RowsOf(w.db, id)
    ensures ResolvedState(w.db, w.db.rollouts[id], d, RowsOf(w.db, id)[d], env.now, env.confirm) != RowIssued
  {
    var row := RowsOf(w.db, id)[d];
    if row.state == RowIssued {
      assert SweptInTime(w, row, env);
      var i :| 0 <= i < |w.sweeps| && row.issuedAt + DEFAULT_TTL <= w.sweeps[i] <= env.now - env.confirm;
      OldRowResolves(w, id, env, d, i);
    }
  }

  lemma {:induction false} FirstIsTaken(cands: seq<DeviceId>, slots: nat, env: Env)
    requires cands != [] && slots > 0 && cands[0] in env.online - env.refused - env.unrecorded
    ensures |Taken(cands, slots, env)| > 0
  {
    assert cands[0] in Taken(cands, slots, env);
  }

  /** If anything remains, such a pass issues at least one device. */
  lemma {:induction false} GoodPassTakes(w: World, id: RolloutId, env: Env, cands: seq<DeviceId>)
    requires WellFormed(w.db) && Timed(w) && Unlimited(w.db, id) && w.db.rollouts[id].phase == Active
    requires IsCandidateList(Resolve(w.db, id, env.now, env.confirm), id, cands)
    requires Settled(w, id, env) && Reachable(w.db, id, env)
    ensures Remaining(w.db, id, w.db.rollouts[id]) != {} ==> |PassTaken(w.db, id, env, cands)| > 0
    ensures PassResolved(w.db, id, env) == |Live(w.db, id, RowIssued)|
  {
    var resolved := Resolve(w.db, id, env.now, env.confirm);
    NothingStaysIssued(w, id, env);
    ResolveCounts(w.db, id, env.now, env.confirm);
    CandidatesAreRemaining(resolved, id, cands);
    if Remaining(w.db, id, w.db.rollouts[id]) != {} {
      assert cands != [];
      assert cands[0] in Elements(cands);
      FirstIsTaken(cands, Slots(resolved, id), env);
    }
  }

  /** Such a pass completes the rollout, or lowers what is outstanding and leaves some. */
  lemma {:induction false} GoodPassEffect(w: World, id: RolloutId, env: Env, cands: seq<DeviceId>)
    requires WellFormed(w.db) && Timed(w) && Unlimited(w.db, id) && w.db.rollouts[id].phase == Active
    requires IsCandidateList(Resolve(w.db, id, env.now, env.confirm), id, cands)
    requires Settled(w, id, env) && Reachable(w.db, id, env)
    ensures var after := Pass(w.db, id, env, cands);
      id in after.rollouts &&
      (after.rollouts[id].phase == Completed || 1 <= Outstanding(after, id) < Outstanding(w.db, id))
  {
    var r, after := w.db.rollouts[id], Pass(w.db, id, env, cands);
    PassIsConfined(w.db, id, env, cands);
    GoodPassTakes(w, id, env, cands);
    PassCounts(w.db, id, env, cands);
    PassProgress(w.db, id, env, cands);
    if Remaining(w.db, id, r) == {} {
      PassPauses(w.db, id, env, cands);
      PassCompletes(w.db, id, env, cands);
      NobodyNeeds(after, id, r);
      assert |PassTaken(w.db, id, env, cands)| == 0;
    }
  }

  // ---- Runs with enough such passes ---------------------------------------------------------------

  ghost predicate GoodPass(w: World, id: RolloutId, step: Step)
    requires id in w.db.rollouts
  {
    step.RunPass? && step.id == id && Settled(w, id, step.env) && Reachable(w.db, id, step.env)
  }

  /** No operator stops the rollout. */
  ghost predicate Undisturbed(id: RolloutId, step: Step) {
    !(step.Pause? && step.id == id) && !(step.Cancel? && step.id == id) && !(step.Rollback? && step.open == id)
  }

  ghost function GoodPasses(w: World, id: RolloutId, steps: seq<Step>): nat
    requires FixedRun(w, id, steps)
    decreases |steps|
  {
    if steps == [] then 0
    else (if GoodPass(w, id, steps[0]) then 1 else 0) + GoodPasses(Apply(w, steps[0]), id, steps[1..])
  }

  ghost predicate Going(db: Db, id: RolloutId) {
    id in db.rollouts && (db.rollouts[id].phase == Active || db.rollouts[id].phase == Completed)
  }

  lemma {:induction false} PassKeepsGoing(db: Db, id: RolloutId, env: Env, cands: seq<DeviceId>, other: RolloutId)
    requires WellFormed(db) && other in db.rollouts && Unlimited(db, id) && Going(db, id)
    requires IsCandidateList(Resolve(db, other, env.now, env.confirm), other, cands)
    ensures Going(Pass(db, other, env, cands), id) && Unlimited(Pass(db, other, env, cands), id)
  {
    PassIsConfined(db, other, env, cands);
    assert SameTerms(db.rollouts[id], Pass(db, other, env, cands).rollouts[id]);
    if other == id && db.rollouts[id].phase == Active {
      PassPauses(db, id, env, cands);
    }
  }

  lemma {:induction false} RollbackKeepsGoing(db: Db, id: RolloutId, open: RolloutId, next: RolloutId, r: Rollout, released: bool, now: Time)
    requires WellFormed(db) && OneOpen(db) && Going(db, id) && open != id
    ensures id in Replace(db, open, next, r, released, now).0.rollouts
    ensures Replace(db, open, next, r, released, now).0.rollouts[id] == db.rollouts[id]
  {
    RollbackKeepsOneOpen(db, open, next, r, released, now);
  }

  lemma {:induction false} SetStateKeepsOther(db: Db, id: RolloutId, other: RolloutId, from: set<Phase>, to: Phase, now: Time)
    requires id in db.rollouts && (other != id || db.rollouts[id].phase !in from)
    ensures id in SetState(db, other, from, to, now).0.rollouts
    ensures SetState(db, other, from, to, now).0.rollouts[id] == db.rollouts[id]
  {
  }

  lemma {:induction false} InsertKeepsOther(db: Db, id: RolloutId, next: RolloutId, r: Rollout, released: bool)
    requires id in db.rollouts
    ensures id in Insert(db, next, r, released).0.rollouts && Insert(db, next, r, released).0.rollouts[id] == db.rollouts[id]
  {
  }

  /** Only passes and steps against it change a going rollout. */
  lemma {:induction false} OthersKeepRollout(w: World, id: RolloutId, step: Step)
    requires WellFormed(w.db) && OneOpen(w.db) && Enabled(w, step) && Going(w.db, id) && Undisturbed(id, step) && !step.RunPass?
    ensures id in Apply(w, step).db.rollouts && Apply(w, step).db.rollouts[id] == w.db.rollouts[id]
  {
    if step.Rollback? {
      RollbackKeepsGoing(w.db, id, step.open, step.id, step.r, step.released, w.clock);
    } else if step.Pause? {
      SetStateKeepsOther(w.db, id, step.id, {Active}, Paused, w.clock);
    } else if step.Resume? {
      SetStateKeepsOther(w.db, id, step.id, {Paused}, Active, w.clock);
    } else if step.Cancel? {
      SetStateKeepsOther(w.db, id, step.id, {Active, Paused}, Cancelled, w.clock);
    } else if step.Create? {
      InsertKeepsOther(w.db, id, step.id, step.r, step.released);
    } else {
      OthersKeepRollouts(w, step);
    }
  }

  /** Without operator steps against it, a going rollout keeps going. */
  lemma {:induction false} StepKeepsGoing(w: World, id: RolloutId, step: Step)
    requires Inv(w) && Enabled(w, step) && Unlimited(w.db, id) && Going(w.db, id) && Undisturbed(id, step)
    ensures Going(Apply(w, step).db, id) && Unlimited(Apply(w, step).db, id)
  {
    if step.RunPass? {
      PassKeepsGoing(w.db, id, step.env, step.cands, step.id);
    } else {
      OthersKeepRollout(w, id, step);
    }
  }

  lemma {:induction false} CompletedStays(w: World, id: RolloutId, steps: seq<Step>)
    requires Inv(w) && Run(w, steps) && id in w.db.rollouts && w.db.rollouts[id].phase == Completed
    ensures id in Final(w, steps).db.rollouts && Final(w, steps).db.rollouts[id].phase == Completed
    decreases |steps|
  {
    if steps != [] {
      StepKeepsInv(w, steps[0]);
      StepKeepsOneOpen(w, steps[0]);
      CompletedStays(Apply(w, steps[0]), id, steps[1..]);
    }
  }

  /** With a fixed fleet no step raises what is outstanding. */
  lemma {:induction false} StepNeverRaises(w: World, id: RolloutId, step: Step)
    requires Inv(w) && id in w.db.rollouts && Enabled(w, step) && FixedFleet(w, id, step)
    ensures id in Apply(w, step).db.rollouts && Outstanding(Apply(w, step).db, id) <= Outstanding(w.db, id)
  {
    if !step.RunPass? {
      QuietOutstanding(w, id, step);
    } else if step.id != id || w.db.rollouts[id].phase != Active {
      OtherPassOutstanding(w.db, step.id, step.env, step.cands, id);
    } else {
      PassIsConfined(w.db, id, step.env, step.cands);
      PassProgress(w.db, id, step.env, step.cands);
      PassResolvedNonNegative(w.db, id, step.env);
    }
  }

  /** In any run over a fixed fleet in which no operator stops it, a rollout that never pauses
      itself is completed after as many good passes as were outstanding (one, if none was),
      whatever else happens in between. */
  lemma {:induction false} RolloutCompletes(w: World, id: RolloutId, steps: seq<Step>)
    requires Inv(w) && FixedRun(w, id, steps) && Unlimited(w.db, id) && Going(w.db, id)
    requires AllUndisturbed(id, steps)
    requires GoodPasses(w, id, steps) > 0 && GoodPasses(w, id, steps) >= Outstanding(w.db, id)
    ensures Run(w, steps) && id in Final(w, steps).db.rollouts && Final(w, steps).db.rollouts[id].phase == Completed
  {
    FixedRunIsRun(w, id, steps);
    FewGoodPasses(w, id, steps);
  }

  lemma {:induction false} FixedRunIsRun(w: World, id: RolloutId, steps: seq<Step>)
    requires FixedRun(w, id, steps)
    ensures Run(w, steps)
    decreases |steps|
  {
    if steps != [] {
      FixedRunIsRun(Apply(w, steps[0]), id, steps[1..]);
    }
  }

  /** What one step does to the argument's measure. */
  ghost predicate Counts(w: World, id: RolloutId, step: Step, v: World) {
    && Inv(v) && Unlimited(v.db, id) && Going(v.db, id) && id in w.db.rollouts
    && Outstanding(v.db, id) <= Outstanding(w.db, id)
    && (GoodPass(w, id, step) ==> v.db.rollouts[id].phase == Completed || 1 <= Outstanding(v.db, id) < Outstanding(w.db, id))
  }

  lemma {:induction false} StepCounts(w: World, id: RolloutId, step: Step)
    requires Inv(w) && Unlimited(w.db, id) && w.db.rollouts[id].phase == Active
    requires Enabled(w, step) && FixedFleet(w, id, step) && Undisturbed(id, step)
    ensures Counts(w, id, step, Apply(w, step))
  {
    StepKeepsInv(w, step);
    StepKeepsGoing(w, id, step);
    StepNeverRaises(w, id, step);
    if GoodPass(w, id, step) {
      GoodPassEffect(w, id, step.env, step.cands);
    }
  }

  /** The head and the tail of a run over a fixed fleet. */
  lemma {:induction false} FixedTail(w: World, id: RolloutId, steps: seq<Step>)
    requires steps != [] && FixedRun(w, id, steps) && Run(w, steps)
    ensures Enabled(w, steps[0]) && FixedFleet(w, id, steps[0])
    ensures FixedRun(Apply(w, steps[0]), id, steps[1..]) && Run(Apply(w, steps[0]), steps[1..])
    ensures Final(w, steps) == Final(Apply(w, steps[0]), steps[1..])
    ensures GoodPasses(w, id, steps) ==
            (if GoodPass(w, id, steps[0]) then 1 else 0) + GoodPasses(Apply(w, steps[0]), id, steps[1..])
  {
  }

  /** Either completed, or fewer good passes than were outstanding. */
  predicate Few(completed: bool, passes: nat, outstanding: nat) {
    completed || passes == 0 || passes < outstanding
  }

  ghost predicate IsCompleted(w: World, id: RolloutId) {
    id in w.db.rollouts && w.db.rollouts[id].phase == Completed
  }

  lemma {:induction false} FewStep(w: World, id: RolloutId, step: Step, v: World, completed: bool, passes: nat)
    requires Counts(w, id, step, v) && Few(completed, passes, Outstanding(v.db, id)) && (IsCompleted(v, id) ==> completed)
    ensures Few(completed, (if GoodPass(w, id, step) then 1 else 0) + passes, Outstanding(w.db, id))
  {
  }

  ghost predicate AllUndisturbed(id: RolloutId, steps: seq<Step>) {
    forall i :: 0 <= i < |steps| ==> Undisturbed(id, steps[i])
  }

  lemma {:induction false} UndisturbedTail(id: RolloutId, steps: seq<Step>)
    requires steps != [] && AllUndisturbed(id, steps)
    ensures Undisturbed(id, steps[0]) && AllUndisturbed(id, steps[1..])
  {
  }

  /** A rollout that is not completed has had fewer good passes than were outstanding. */
  lemma {:induction false} FewGoodPasses(w: World, id: RolloutId, steps: seq<Step>)
    requires Inv(w) && FixedRun(w, id, steps) && Run(w, steps) && Unlimited(w.db, id) && Going(w.db, id)
    requires AllUndisturbed(id, steps)
    ensures Few(IsCompleted(Final(w, steps), id), GoodPasses(w, id, steps), Outstanding(w.db, id))
    decreases |steps|, 0
  {
    if w.db.rollouts[id].phase == Completed {
      CompletedStays(w, id, steps);
    } else if steps != [] {
      FixedTail(w, id, steps);
      UndisturbedTail(id, steps);
      StepCounts(w, id, steps[0]);
      FewFrom(w, id, steps, Apply(w, steps[0]));
    }
  }

  lemma {:induction false} FewFrom(w: World, id: RolloutId, steps: seq<Step>, v: World)
    requires steps != [] && Counts(w, id, steps[0], v)
    requires FixedRun(v, id, steps[1..]) && Run(v, steps[1..]) && AllUndisturbed(id, steps[1..])
    ensures Few(IsCompleted(Final(v, steps[1..]), id),
                (if GoodPass(w, id, steps[0]) then 1 else 0) + GoodPasses(v, id, steps[1..]), Outstanding(w.db, id))
    decreases |steps| - 1, 1
  {
    FewGoodPasses(v, id, steps[1..]);
    if IsCompleted(v, id) {
      CompletedStays(v, id, steps[1..]);
    }
    FewStep(w, id, steps[0], v, IsCompleted(Final(v, steps[1..]), id), GoodPasses(v, id, steps[1..]));
  }

  // ---- Rounds ----------------------------------------------------------------------------------------

  /** Wait for the time to live, sweep, wait for the confirmation period, pass. */
  ghost predicate IsRound(w: World, id: RolloutId, round: seq<Step>)
    requires id in w.db.rollouts
  {
    && |round| == 4
    && round[0].Advance? && w.clock + DEFAULT_TTL <= round[0].to
    && round[1].Sweep?
    && round[2].Advance? && round[0].to <= round[2].to
    && round[3].RunPass? && round[3].id == id && 0 <= round[3].env.confirm <= round[2].to - round[0].to
    && Reachable(w.db, id, round[3].env)
  }

  /** The state in which a round's pass starts. */
  ghost function BeforePass(w: World, round: seq<Step>): World
    requires |round| == 4 && round[0].Advance? && round[2].Advance?
  {
    World(w.db.(commands := map c | c in w.db.commands :: Swept(w.db.commands[c], round[0].to)),
          round[2].to, w.resumes, w.sweeps + [round[0].to])
  }

  lemma {:induction false} FourSteps(w: World, s: seq<Step>)
    requires |s| == 4 && Run(w, s)
    ensures Enabled(w, s[0]) && Enabled(Apply(w, s[0]), s[1]) && Enabled(Apply(Apply(w, s[0]), s[1]), s[2])
    ensures Enabled(Apply(Apply(Apply(w, s[0]), s[1]), s[2]), s[3])
    ensures Final(w, s) == Apply(Apply(Apply(Apply(w, s[0]), s[1]), s[2]), s[3])
  {
    var a := Apply(w, s[0]);
    assert s[1..][0] == s[1];
    TailRun(w, s);
    TailRun(a, s[1..]);
    var b := Apply(a, s[1]);
    assert s[1..][1..] == s[2..] && s[2..][0] == s[2] && s[2..][1..] == s[3..] && s[3..][0] == s[3] && s[3..][1..] == [];
    TailRun(b, s[2..]);
    TailRun(Apply(b, s[2]), s[3..]);
  }

  lemma {:induction false} TailRun(w: World, s: seq<Step>)
    requires s != [] && Run(w, s)
    ensures Enabled(w, s[0]) && Run(Apply(w, s[0]), s[1..]) && Final(w, s) == Final(Apply(w, s[0]), s[1..])
  {
  }

  lemma {:induction false} RoundStart(w: World, id: RolloutId, round: seq<Step>)
    requires id in w.db.rollouts && IsRound(w, id, round) && Inv(w) && Run(w, round)
    ensures Inv(BeforePass(w, round)) && Enabled(BeforePass(w, round), round[3])
    ensures Final(w, round) == Apply(BeforePass(w, round), round[3])
  {
    FourSteps(w, round);
    var a := Apply(w, round[0]);
    var b := Apply(a, round[1]);
    StepKeepsInv(w, round[0]);
    StepKeepsInv(a, round[1]);
    StepKeepsInv(b, round[2]);
    assert Apply(b, round[2]) == BeforePass(w, round);
  }

  lemma {:induction false} RoundSettles(w: World, id: RolloutId, round: seq<Step>)
    requires id in w.db.rollouts && IsRound(w, id, round) && Inv(w) && round[3].env.now == round[2].to
    ensures Settled(BeforePass(w, round), id, round[3].env)
  {
    var u, env := BeforePass(w, round), round[3].env;
    forall d | d in RowsOf(u.db, id) && RowsOf(u.db, id)[d].state == RowIssued
      ensures SweptInTime(u, RowsOf(u.db, id)[d], env)
    {
      assert RowTimed(w, w.db.progress[id][d]);
      assert u.sweeps[|w.sweeps|] == round[0].to;
    }
  }

  lemma {:induction false} SweepKeepsOutstanding(w: World, id: RolloutId, round: seq<Step>)
    requires id in w.db.rollouts && IsRound(w, id, round)
    ensures var u := BeforePass(w, round);
      Outstanding(u.db, id) == Outstanding(w.db, id) && (Reachable(w.db, id, round[3].env) ==> Reachable(u.db, id, round[3].env))
  {
    var u, r := BeforePass(w, round), w.db.rollouts[id];
    assert Remaining(u.db, id, r) == Remaining(w.db, id, r);
    assert Live(u.db, id, RowIssued) == Live(w.db, id, RowIssued);
  }

  /** A round completes the rollout, or lowers what is outstanding and leaves some. */
  lemma {:induction false} RoundEffect(w: World, id: RolloutId, round: seq<Step>)
    requires Inv(w) && Unlimited(w.db, id) && w.db.rollouts[id].phase == Active && IsRound(w, id, round)
    requires Run(w, round)
    ensures var v := Final(w, round);
      && Inv(v) && Unlimited(v.db, id) && Going(v.db, id)
      && (v.db.rollouts[id].phase == Completed || 1 <= Outstanding(v.db, id) < Outstanding(w.db, id))
  {
    var u := BeforePass(w, round);
    RoundStart(w, id, round);
    RoundSettles(w, id, round);
    SweepKeepsOutstanding(w, id, round);
    StepKeepsInv(u, round[3]);
    StepKeepsGoing(u, id, round[3]);
    GoodPassEffect(u, id, round[3].env, round[3].cands);
  }

  /** A run made of rounds. */
  ghost predicate Rounds(w: World, id: RolloutId, rounds: seq<seq<Step>>)
    decreases |rounds|
  {
    rounds == [] ||
    (id in w.db.rollouts && IsRound(w, id, rounds[0]) && Run(w, rounds[0]) && Rounds(Final(w, rounds[0]), id, rounds[1..]))
  }

  ghost function AfterRounds(w: World, id: RolloutId, rounds: seq<seq<Step>>): World
    requires Rounds(w, id, rounds)
    decreases |rounds|
  {
    if rounds == [] then w else AfterRounds(Final(w, rounds[0]), id, rounds[1..])
  }

  lemma {:induction false} CompletedThroughRounds(w: World, id: RolloutId, rounds: seq<seq<Step>>)
    requires Inv(w) && Rounds(w, id, rounds) && id in w.db.rollouts && w.db.rollouts[id].phase == Completed
    ensures id in AfterRounds(w, id, rounds).db.rollouts && AfterRounds(w, id, rounds).db.rollouts[id].phase == Completed
    decreases |rounds|
  {
    if rounds != [] {
      RunKeepsInv(w, rounds[0]);
      CompletedStays(w, id, rounds[0]);
      CompletedThroughRounds(Final(w, rounds[0]), id, rounds[1..]);
    }
  }

  /** As many rounds as were outstanding, and at least one, complete the rollout. */
  lemma {:induction false} RoundsComplete(w: World, id: RolloutId, rounds: seq<seq<Step>>)
    requires Inv(w) && Unlimited(w.db, id) && w.db.rollouts[id].phase == Active && Rounds(w, id, rounds)
    requires rounds != [] && |rounds| >= Outstanding(w.db, id)
    ensures id in AfterRounds(w, id, rounds).db.rollouts && AfterRounds(w, id, rounds).db.rollouts[id].phase == Completed
    decreases |rounds|
  {
    RoundEffect(w, id, rounds[0]);
    var v := Final(w, rounds[0]);
    if v.db.rollouts[id].phase == Completed {
      CompletedThroughRounds(v, id, rounds[1..]);
    } else {
      RoundsComplete(v, id, rounds[1..]);
    }
  }

  /** From the start of the system: whatever run led there, that many rounds complete an
      active rollout that never pauses itself. */
  lemma {:induction false} RolloutsTerminate(steps: seq<Step>, id: RolloutId, rounds: seq<seq<Step>>)
    requires Run(START, steps)
    requires var w := Final(START, steps);
      && Unlimited(w.db, id) && w.db.rollouts[id].phase == Active && Rounds(w, id, rounds)
      && rounds != [] && |rounds| >= Outstanding(w.db, id)
    ensures var db := AfterRounds(Final(START, steps), id, rounds).db;
      id in db.rollouts && db.rollouts[id].phase == Completed
  {
    RunKeepsInv(START, steps);
    RoundsComplete(Final(START, steps), id, rounds);
  }
}
