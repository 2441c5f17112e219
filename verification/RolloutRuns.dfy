/** Runs of the rollout engine: serial passes interleaved with everything else that
    changes the tables. */
module RolloutRuns {
  import opened Common
  import opened Rollouts
  import opened RolloutPass

  /** `resumes` counts operator resumes per rollout; `sweeps` lists the times at which
      the expiry sweep ran. */
  datatype World = World(db: Db, clock: Time, resumes: map<RolloutId, nat>, sweeps: seq<Time>)

  datatype Step =
    | Advance(to: Time)
    | RunPass(id: RolloutId, env: Env, cands: seq<DeviceId>)
    | Enroll(d: DeviceId, device: Device)
    | Heartbeat(d: DeviceId, hostname: nat, version: Version)
    | Move(d: DeviceId, group: Option<GroupId>)
    | Revoke(d: DeviceId)
    | MarkSent(c: CommandId)
    | Report(c: CommandId, success: bool)
    | Sweep
    | Create(id: RolloutId, r: Rollout, released: bool)
    | Rollback(open: RolloutId, id: RolloutId, r: Rollout, released: bool)
    | Pause(id: RolloutId)
    | Resume(id: RolloutId)
    | Cancel(id: RolloutId)

  ghost predicate Enabled(w: World, step: Step) {
    match step
    case Advance(to) => w.clock <= to
    case RunPass(id, env, cands) =>
      && id in w.db.rollouts
      && env.now == w.clock
      && (forall c :: c in w.db.commands ==> c.pass != env.serial)
      && IsCandidateList(Resolve(w.db, id, env.now, env.confirm), id, cands)
    case Enroll(d, device) => d !in w.db.devices && !device.revoked
    case Create(_, r, _) => r.phase == Active && r.finishedAt == None
    case Rollback(_, _, r, _) => r.phase == Active && r.finishedAt == None
    case _ => true
  }

  /** Guarded update of the commands table: only open commands change. */
  function Reported(c: Command, success: bool, now: Time): Command {
    if CommandOpen(c) then c.(state := if success then Succeeded else Failed, completedAt := Some(now)) else c
  }

  function Swept(c: Command, now: Time): Command {
    if CommandOpen(c) && c.expiresAt <= now then c.(state := Expired) else c
  }

  function WithDevice(db: Db, d: DeviceId, device: Device): Db {
    db.(devices := db.devices[d := device])
  }

  ghost function Apply(w: World, step: Step): World
    requires Enabled(w, step)
  {
    var db := w.db;
    match step
    case Advance(to) => w.(clock := to)
    case RunPass(id, env, cands) => w.(db := Pass(db, id, env, cands))
    case Enroll(d, device) => w.(db := WithDevice(db, d, device))
    case Heartbeat(d, hostname, version) =>
      if d in db.devices then w.(db := WithDevice(db, d, db.devices[d].(hostname := hostname, version := version))) else w
    case Move(d, group) =>
      if d in db.devices then w.(db := WithDevice(db, d, db.devices[d].(group := group))) else w
    case Revoke(d) =>
      if d in db.devices then w.(db := WithDevice(db, d, db.devices[d].(revoked := true))) else w
    case MarkSent(c) =>
      if c in db.commands && db.commands[c].state == Pending
      then w.(db := db.(commands := db.commands[c := db.commands[c].(state := Sent)])) else w
    case Report(c, success) =>
      if c in db.commands
      then w.(db := db.(commands := db.commands[c := Reported(db.commands[c], success, w.clock)])) else w
    case Sweep =>
      w.(db := db.(commands := map c | c in db.commands :: Swept(db.commands[c], w.clock)),
         sweeps := w.sweeps + [w.clock])
    case Create(id, r, released) => w.(db := Insert(db, id, r, released).0)
    case Rollback(open, id, r, released) => w.(db := Replace(db, open, id, r, released, w.clock).0)
    case Pause(id) => w.(db := SetState(db, id, {Active}, Paused, w.clock).0)
    case Resume(id) =>
      var (next, outcome) := SetState(db, id, {Paused}, Active, w.clock);
      if outcome == Done then w.(db := next, resumes := w.resumes[id := Resumes(w, id) + 1]) else w
    case Cancel(id) => w.(db := SetState(db, id, {Active, Paused}, Cancelled, w.clock).0)
  }

  function Resumes(w: World, id: RolloutId): nat {
    if id in w.resumes then w.resumes[id] else 0
  }

  ghost predicate Run(w: World, steps: seq<Step>)
    decreases |steps|
  {
    steps == [] || (Enabled(w, steps[0]) && Run(Apply(w, steps[0]), steps[1..]))
  }

  ghost function Final(w: World, steps: seq<Step>): World
    requires Run(w, steps)
    decreases |steps|
  {
    if steps == [] then w else Final(Apply(w, steps[0]), steps[1..])
  }

  const START := World(Db(map[], map[], map[], map[]), 0, map[], [])

  // ---- Steps other than passes ----------------------------------------------------------

  predicate SameTerms(a: Rollout, b: Rollout) {
    a.version == b.version && a.groups == b.groups && a.batchSize == b.batchSize && a.maxFailures == b.maxFailures
  }

  /** What holds of every step, passes included: nothing is deleted, a rollout keeps its
      terms and a device once revoked stays revoked. */
  ghost predicate Grows(a: Db, b: Db) {
    && (forall id :: id in a.rollouts ==> id in b.rollouts && SameTerms(a.rollouts[id], b.rollouts[id]))
    && (forall d :: d in a.devices ==> d in b.devices && (a.devices[d].revoked ==> b.devices[d].revoked))
    && (forall c :: c in a.commands ==> c in b.commands)
  }

  /** What holds of every step but a pass: progress rows are untouched and rollouts
      that appear have none. */
  ghost predicate Quiet(a: Db, b: Db) {
    && Grows(a, b)
    && (forall id :: id in b.rollouts <==> id in b.progress)
    && (forall id :: id in b.rollouts ==> RowsOf(b, id) == RowsOf(a, id))
  }

  lemma {:induction false} DeviceIsQuiet(db: Db, d: DeviceId, device: Device)
    requires WellFormed(db) && (d in db.devices && db.devices[d].revoked ==> device.revoked)
    ensures Quiet(db, WithDevice(db, d, device))
  {
  }

  lemma {:induction false} CommandsAreQuiet(db: Db, commands: map<CommandId, Command>)
    requires WellFormed(db) && db.commands.Keys <= commands.Keys
    ensures Quiet(db, db.(commands := commands))
  {
  }

  lemma {:induction false} PhaseIsQuiet(db: Db, id: RolloutId, to: Phase, now: Time)
    requires WellFormed(db) && id in db.rollouts
    ensures Quiet(db, WithPhase(db, id, to, now)) && WellFormed(WithPhase(db, id, to, now))
  {
    QuietWellFormed(db, WithPhase(db, id, to, now));
  }

  lemma {:induction false} InsertIsQuiet(db: Db, id: RolloutId, r: Rollout, released: bool)
    requires WellFormed(db)
    ensures Quiet(db, Insert(db, id, r, released).0)
  {
    if id !in db.rollouts {
      NewIsQuiet(db, id, r);
    }
  }

  lemma {:induction false} NewIsQuiet(db: Db, id: RolloutId, r: Rollout)
    requires WellFormed(db) && id !in db.rollouts
    ensures Quiet(db, db.(rollouts := db.rollouts[id := r], progress := db.progress[id := map[]]))
  {
  }

  lemma {:induction false} QuietTransitive(a: Db, b: Db, c: Db)
    requires Quiet(a, b) && Quiet(b, c) && WellFormed(a)
    ensures Quiet(a, c)
  {
    forall id | id in c.rollouts
      ensures RowsOf(c, id) == RowsOf(a, id)
    {
      if id !in b.rollouts {
        assert id !in a.rollouts;
      }
    }
  }

  /** The tables after the first half of a rollback. */
  function CancelledFirst(db: Db, open: RolloutId, now: Time): Db
    requires open in db.rollouts
  {
    if IsOpen(db.rollouts[open].phase) then WithPhase(db, open, Cancelled, now) else db
  }

  lemma {:induction false} CancelledIsQuiet(db: Db, open: RolloutId, now: Time)
    requires WellFormed(db) && open in db.rollouts
    ensures Quiet(db, CancelledFirst(db, open, now)) && WellFormed(CancelledFirst(db, open, now))
  {
    PhaseIsQuiet(db, open, Cancelled, now);
  }

  lemma {:induction false} ReplaceIsQuiet(db: Db, open: RolloutId, id: RolloutId, r: Rollout, released: bool, now: Time)
    requires WellFormed(db)
    ensures Quiet(db, Replace(db, open, id, r, released, now).0)
  {
    if open in db.rollouts {
      var mid := CancelledFirst(db, open, now);
      CancelledIsQuiet(db, open, now);
      InsertIsQuiet(mid, id, r, released);
      QuietTransitive(db, mid, Insert(mid, id, r, released).0);
    }
  }

  lemma {:induction false} SetStateIsQuiet(db: Db, id: RolloutId, from: set<Phase>, to: Phase, now: Time)
    requires WellFormed(db)
    ensures Quiet(db, SetState(db, id, from, to, now).0)
  {
    if id in db.rollouts {
      PhaseIsQuiet(db, id, to, now);
    }
  }

  lemma {:induction false} StepIsQuiet(w: World, step: Step)
    requires WellFormed(w.db) && Enabled(w, step) && !step.RunPass?
    ensures Quiet(w.db, Apply(w, step).db)
  {
    var db := w.db;
    match step
    case Enroll(d, device) => DeviceIsQuiet(db, d, device);
    case Heartbeat(d, hostname, version) =>
      if d in db.devices {
        DeviceIsQuiet(db, d, db.devices[d].(hostname := hostname, version := version));
      }
    case Move(d, group) =>
      if d in db.devices {
        DeviceIsQuiet(db, d, db.devices[d].(group := group));
      }
    case Revoke(d) =>
      if d in db.devices {
        DeviceIsQuiet(db, d, db.devices[d].(revoked := true));
      }
    case MarkSent(_) => CommandsAreQuiet(db, Apply(w, step).db.commands);
    case Report(_, _) => CommandsAreQuiet(db, Apply(w, step).db.commands);
    case Sweep => CommandsAreQuiet(db, Apply(w, step).db.commands);
    case Advance(_) =>
    case Create(id, r, released) => InsertIsQuiet(db, id, r, released);
    case Rollback(open, id, r, released) => ReplaceIsQuiet(db, open, id, r, released, w.clock);
    case Pause(id) => SetStateIsQuiet(db, id, {Active}, Paused, w.clock);
    case Resume(id) => SetStateIsQuiet(db, id, {Paused}, Active, w.clock);
    case Cancel(id) => SetStateIsQuiet(db, id, {Active, Paused}, Cancelled, w.clock);
  }

  lemma {:induction false} QuietWellFormed(a: Db, b: Db)
    requires WellFormed(a) && Quiet(a, b)
    ensures WellFormed(b)
  {
    forall id, d | id in b.progress && d in b.progress[id]
      ensures RowOk(b, d, b.progress[id][d])
    {
      assert RowsOf(b, id) == RowsOf(a, id);
      assert id in a.progress && d in a.progress[id];
      assert RowOk(a, d, a.progress[id][d]);
    }
    assert b.progress.Keys == b.rollouts.Keys;
  }

  lemma {:induction false} QuietShrinks(a: Db, b: Db, id: RolloutId, state: RowState)
    requires WellFormed(a) && Quiet(a, b) && id in b.rollouts
    ensures |Live(b, id, state)| <= |Live(a, id, state)|
  {
    forall d | d in Live(b, id, state)
      ensures d in Live(a, id, state)
    {
      assert RowsOf(b, id) == RowsOf(a, id);
      assert RowOk(a, d, a.progress[id][d]);
    }
    CardinalityMonotone(Live(b, id, state), Live(a, id, state));
  }

  /** Only rollout `id`, its rows and new commands of pass `env.serial` differ. */
  ghost predicate Confined(a: Db, b: Db, id: RolloutId, env: Env) {
    && b.devices == a.devices
    && b.rollouts.Keys == a.rollouts.Keys && b.progress.Keys == a.progress.Keys
    && (forall i :: i in a.rollouts && i != id ==> b.rollouts[i] == a.rollouts[i])
    && (forall i :: i in a.rollouts ==> SameTerms(a.rollouts[i], b.rollouts[i]))
    && (forall i :: i in a.progress && i != id ==> b.progress[i] == a.progress[i])
    && (forall c :: c in a.commands ==> c in b.commands)
    && (forall c :: c in b.commands ==>
          (c in a.commands && b.commands[c] == a.commands[c]) ||
          (c.pass == env.serial && b.commands[c] == NewCommand(env, c.device)))
  }

  lemma {:induction false} IssueIsConfined(db: Db, id: RolloutId, cands: seq<DeviceId>, slots: nat, env: Env)
    requires id in db.progress
    ensures Confined(db, Issue(db, id, cands, slots, env), id, env)
  {
    IssueEffect(db, id, cands, slots, env);
    CommandedBounds(cands, slots, env);
  }

  lemma {:induction false} PhaseIsConfined(db: Db, id: RolloutId, to: Phase, now: Time, env: Env)
    requires id in db.rollouts
    ensures Confined(db, WithPhase(db, id, to, now), id, env)
  {
  }

  lemma {:induction false} ConfinedTransitive(a: Db, b: Db, c: Db, id: RolloutId, env: Env)
    requires Confined(a, b, id, env) && Confined(b, c, id, env)
    ensures Confined(a, c, id, env)
  {
  }

  lemma {:induction false} ResolveIsConfined(db: Db, id: RolloutId, env: Env)
    requires WellFormed(db) && id in db.rollouts
    ensures Confined(db, Resolve(db, id, env.now, env.confirm), id, env)
  {
  }

  /** A pass touches only its own rollout's phase and rows, and adds commands. */
  lemma {:induction false} PassIsConfined(db: Db, id: RolloutId, env: Env, cands: seq<DeviceId>)
    requires WellFormed(db) && id in db.rollouts
    ensures Confined(db, Pass(db, id, env, cands), id, env)
  {
    if db.rollouts[id].phase == Active {
      var resolved := Resolve(db, id, env.now, env.confirm);
      ResolveIsConfined(db, id, env);
      if MustPause(db, id, env) {
        PhaseIsConfined(resolved, id, Paused, env.now, env);
        ConfinedTransitive(db, resolved, WithPhase(resolved, id, Paused, env.now), id, env);
      } else if Slots(resolved, id) == 0 || env.released {
        var issued := Issue(resolved, id, cands, Slots(resolved, id), env);
        IssueIsConfined(resolved, id, cands, Slots(resolved, id), env);
        ConfinedTransitive(db, resolved, issued, id, env);
        PhaseIsConfined(issued, id, Completed, env.now, env);
        ConfinedTransitive(db, issued, WithPhase(issued, id, Completed, env.now), id, env);
      }
    }
  }

  lemma {:induction false} PassGrows(db: Db, id: RolloutId, env: Env, cands: seq<DeviceId>)
    requires WellFormed(db) && id in db.rollouts
    ensures Grows(db, Pass(db, id, env, cands))
    ensures Pass(db, id, env, cands).rollouts.Keys == db.rollouts.Keys
  {
    PassIsConfined(db, id, env, cands);
  }

  lemma {:induction false} OtherRollout(db: Db, id: RolloutId, env: Env, cands: seq<DeviceId>, other: RolloutId, state: RowState)
    requires WellFormed(db) && id in db.rollouts && other in db.rollouts && other != id
    ensures Live(Pass(db, id, env, cands), other, state) == Live(db, other, state)
    ensures Pass(db, id, env, cands).rollouts[other] == db.rollouts[other]
  {
    PassIsConfined(db, id, env, cands);
    assert RowsOf(Pass(db, id, env, cands), other) == RowsOf(db, other);
  }

  lemma {:induction false} StepWellFormed(w: World, step: Step)
    requires WellFormed(w.db) && Enabled(w, step)
    ensures WellFormed(Apply(w, step).db) && Grows(w.db, Apply(w, step).db)
  {
    if step.RunPass? {
      PassGrows(w.db, step.id, step.env, step.cands);
      if w.db.rollouts[step.id].phase == Active {
        PassCounts(w.db, step.id, step.env, step.cands);
      }
    } else {
      StepIsQuiet(w, step);
      QuietWellFormed(w.db, Apply(w, step).db);
    }
  }

  // ---- The batch bound ----------------------------------------------------------------------

  ghost predicate BatchOk(db: Db) {
    forall id :: id in db.rollouts ==> |Live(db, id, RowIssued)| <= db.rollouts[id].batchSize
  }

  lemma {:induction false} NewRolloutIsEmpty(a: Db, b: Db, id: RolloutId, state: RowState)
    requires WellFormed(a) && Quiet(a, b) && id in b.rollouts && id !in a.rollouts
    ensures |Live(b, id, state)| == 0
  {
    assert RowsOf(b, id) == map[];
    assert Live(b, id, state) == {};
  }

  lemma {:induction false} StepKeepsBatch(w: World, step: Step)
    requires WellFormed(w.db) && BatchOk(w.db) && Enabled(w, step)
    ensures BatchOk(Apply(w, step).db)
  {
    var a, b := w.db, Apply(w, step).db;
    StepWellFormed(w, step);
    forall i | i in b.rollouts
      ensures |Live(b, i, RowIssued)| <= b.rollouts[i].batchSize
    {
      if step.RunPass? {
        PassGrows(a, step.id, step.env, step.cands);
        if i != step.id {
          OtherRollout(a, step.id, step.env, step.cands, i, RowIssued);
        } else if a.rollouts[i].phase == Active {
          PassCounts(a, i, step.env, step.cands);
        }
      } else {
        StepIsQuiet(w, step);
        if i in a.rollouts {
          QuietShrinks(a, b, i, RowIssued);
        } else {
          NewRolloutIsEmpty(a, b, i, RowIssued);
        }
      }
    }
  }

  // ---- The failure overshoot bound -------------------------------------------------------------

  predicate Overshoot(maxFailures: nat, batch: nat, resumes: nat, active: bool, failed: nat) {
    maxFailures > 0 ==>
      && failed <= maxFailures - 1 + batch * (1 + resumes)
      && (active && failed >= maxFailures ==> failed <= maxFailures - 1 + batch * resumes)
  }

  ghost predicate FailuresOk(w: World, id: RolloutId)
    requires id in w.db.rollouts
  {
    var r := w.db.rollouts[id];
    Overshoot(r.maxFailures, r.batchSize, Resumes(w, id), r.phase == Active, |Live(w.db, id, RowFailed)|)
  }

  /** Above the threshold, a pass with a new failure stops the rollout, so one batch of
      failures is all that a resume can add. */
  lemma {:induction false} OvershootStep(maxFailures: nat, batch: nat, resumes: nat, failed: nat, newly: nat, active: bool)
    requires Overshoot(maxFailures, batch, resumes, true, failed) && newly <= batch
    requires active ==> newly == 0 || failed + newly < maxFailures || maxFailures == 0
    ensures Overshoot(maxFailures, batch, resumes, active, failed + newly)
  {
    assert batch * (1 + resumes) == batch + batch * resumes;
  }

  lemma {:induction false} OvershootResume(maxFailures: nat, batch: nat, resumes: nat, failed: nat)
    requires Overshoot(maxFailures, batch, resumes, false, failed)
    ensures Overshoot(maxFailures, batch, resumes + 1, true, failed)
  {
    assert batch * (1 + (resumes + 1)) == batch * (1 + resumes) + batch;
  }

  lemma {:induction false} OvershootFewer(maxFailures: nat, batch: nat, resumes: nat, active: bool, failed: nat, still: bool, fewer: nat)
    requires Overshoot(maxFailures, batch, resumes, active, failed) && fewer <= failed && (still ==> active)
    ensures Overshoot(maxFailures, batch, resumes, still, fewer)
  {
  }

  lemma {:induction false} OvershootZero(maxFailures: nat, batch: nat, resumes: nat, active: bool)
    ensures Overshoot(maxFailures, batch, resumes, active, 0)
  {
    assert batch * (1 + resumes) >= 0;
  }

  /** The bound across one pass over an active rollout. */
  lemma {:induction false} PassOvershoot(db: Db, id: RolloutId, env: Env, cands: seq<DeviceId>, resumes: nat)
    requires WellFormed(db) && id in db.rollouts && db.rollouts[id].phase == Active && BatchOk(db)
    requires IsCandidateList(Resolve(db, id, env.now, env.confirm), id, cands)
    requires Overshoot(db.rollouts[id].maxFailures, db.rollouts[id].batchSize, resumes, true, |Live(db, id, RowFailed)|)
    ensures var r, after := db.rollouts[id], Pass(db, id, env, cands);
      id in after.rollouts &&
      Overshoot(r.maxFailures, r.batchSize, resumes, after.rollouts[id].phase == Active, |Live(after, id, RowFailed)|)
  {
    var r, after := db.rollouts[id], Pass(db, id, env, cands);
    PassCounts(db, id, env, cands);
    PassPauses(db, id, env, cands);
    ResolveCounts(db, id, env.now, env.confirm);
    OvershootStep(r.maxFailures, r.batchSize, resumes, |Live(db, id, RowFailed)|,
                  |Newly(db, id, RowFailed, env.now, env.confirm)|, after.rollouts[id].phase == Active);
  }

  lemma {:induction false} PassKeepsFailures(w: World, id: RolloutId, env: Env, cands: seq<DeviceId>)
    requires WellFormed(w.db) && BatchOk(w.db) && Enabled(w, RunPass(id, env, cands))
    requires FailuresOk(w, id)
    ensures id in Pass(w.db, id, env, cands).rollouts && FailuresOk(w.(db := Pass(w.db, id, env, cands)), id)
  {
    PassGrows(w.db, id, env, cands);
    if w.db.rollouts[id].phase == Active {
      PassOvershoot(w.db, id, env, cands, Resumes(w, id));
    }
  }

  /** How a step other than a pass may change the phase of a rollout. */
  ghost predicate PhaseMoves(w: World, v: World, id: RolloutId)
    requires id in w.db.rollouts
  {
    && id in v.db.rollouts
    && (Resumes(v, id) == Resumes(w, id) ==> (v.db.rollouts[id].phase == Active ==> w.db.rollouts[id].phase == Active))
    && (Resumes(v, id) != Resumes(w, id) ==>
          Resumes(v, id) == Resumes(w, id) + 1 && w.db.rollouts[id].phase == Paused && v.db.rollouts[id].phase == Active)
  }

  lemma {:induction false} OthersKeepRollouts(w: World, step: Step)
    requires Enabled(w, step) && !step.RunPass? && !step.Rollback? && !step.Create?
    requires !step.Pause? && !step.Resume? && !step.Cancel?
    ensures Apply(w, step).db.rollouts == w.db.rollouts && Apply(w, step).resumes == w.resumes
  {
  }

  lemma {:induction false} ResumePhase(w: World, other: RolloutId, id: RolloutId)
    requires id in w.db.rollouts
    ensures PhaseMoves(w, Apply(w, Resume(other)), id)
  {
  }

  lemma {:induction false} StopPhase(db: Db, other: RolloutId, from: set<Phase>, to: Phase, now: Time, id: RolloutId)
    requires id in db.rollouts && to != Active
    ensures var after := SetState(db, other, from, to, now).0;
      id in after.rollouts && (after.rollouts[id].phase == Active ==> db.rollouts[id].phase == Active)
  {
  }

  lemma {:induction false} InsertPhase(db: Db, next: RolloutId, r: Rollout, released: bool, id: RolloutId)
    requires id in db.rollouts
    ensures var after := Insert(db, next, r, released).0; id in after.rollouts && after.rollouts[id] == db.rollouts[id]
  {
  }

  lemma {:induction false} ReplacePhase(db: Db, open: RolloutId, next: RolloutId, r: Rollout, released: bool, now: Time, id: RolloutId)
    requires id in db.rollouts
    ensures var after := Replace(db, open, next, r, released, now).0;
      id in after.rollouts && (after.rollouts[id].phase == Active ==> db.rollouts[id].phase == Active)
  {
    if open in db.rollouts {
      InsertPhase(CancelledFirst(db, open, now), next, r, released, id);
    }
  }

  /** A step other than a pass activates a rollout only by resuming it. */
  lemma {:induction false} QuietPhase(w: World, step: Step, id: RolloutId)
    requires WellFormed(w.db) && Enabled(w, step) && !step.RunPass? && id in w.db.rollouts
    ensures PhaseMoves(w, Apply(w, step), id)
  {
    if step.Resume? {
      ResumePhase(w, step.id, id);
    } else if step.Pause? {
      StopPhase(w.db, step.id, {Active}, Paused, w.clock, id);
    } else if step.Cancel? {
      StopPhase(w.db, step.id, {Active, Paused}, Cancelled, w.clock, id);
    } else if step.Create? {
      InsertPhase(w.db, step.id, step.r, step.released, id);
    } else if step.Rollback? {
      ReplacePhase(w.db, step.open, step.id, step.r, step.released, w.clock, id);
    } else {
      OthersKeepRollouts(w, step);
    }
  }

  lemma {:induction false} MoveKeepsFailures(w: World, v: World, id: RolloutId)
    requires WellFormed(w.db) && Quiet(w.db, v.db) && id in w.db.rollouts && FailuresOk(w, id) && PhaseMoves(w, v, id)
    ensures FailuresOk(v, id)
  {
    var r := w.db.rollouts[id];
    var before, after := |Live(w.db, id, RowFailed)|, |Live(v.db, id, RowFailed)|;
    QuietShrinks(w.db, v.db, id, RowFailed);
    var active := v.db.rollouts[id].phase == Active;
    assert SameTerms(r, v.db.rollouts[id]);
    if Resumes(v, id) == Resumes(w, id) {
      OvershootFewer(r.maxFailures, r.batchSize, Resumes(w, id), r.phase == Active, before, active, after);
    } else {
      OvershootResume(r.maxFailures, r.batchSize, Resumes(w, id), before);
      OvershootFewer(r.maxFailures, r.batchSize, Resumes(v, id), true, before, active, after);
    }
  }

  lemma {:induction false} QuietKeepsFailures(w: World, step: Step, id: RolloutId)
    requires WellFormed(w.db) && Enabled(w, step) && !step.RunPass? && id in w.db.rollouts && FailuresOk(w, id)
    ensures id in Apply(w, step).db.rollouts && FailuresOk(Apply(w, step), id)
  {
    StepIsQuiet(w, step);
    QuietPhase(w, step, id);
    MoveKeepsFailures(w, Apply(w, step), id);
  }

  ghost predicate AllFailuresOk(w: World) {
    forall id :: id in w.db.rollouts ==> FailuresOk(w, id)
  }

  lemma {:induction false} StepKeepsFailures(w: World, step: Step)
    requires WellFormed(w.db) && BatchOk(w.db) && Enabled(w, step) && AllFailuresOk(w)
    ensures AllFailuresOk(Apply(w, step))
  {
    var v := Apply(w, step);
    forall i | i in v.db.rollouts
      ensures FailuresOk(v, i)
    {
      if step.RunPass? {
        PassGrows(w.db, step.id, step.env, step.cands);
        if i == step.id {
          PassKeepsFailures(w, i, step.env, step.cands);
        } else {
          OtherRollout(w.db, step.id, step.env, step.cands, i, RowFailed);
        }
      } else {
        StepIsQuiet(w, step);
        if i in w.db.rollouts {
          QuietKeepsFailures(w, step, i);
        } else {
          NewRolloutIsEmpty(w.db, v.db, i, RowFailed);
          OvershootZero(v.db.rollouts[i].maxFailures, v.db.rollouts[i].batchSize, Resumes(v, i), v.db.rollouts[i].phase == Active);
        }
      }
    }
  }
}
