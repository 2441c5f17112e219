/** What becomes of a device in a rollout, in terms of what it reports and how its command ends. */
module RolloutLaws {
  import opened Common
  import opened Rollouts
  import opened RolloutPass
  import opened RolloutRuns
  import opened RolloutTheorems

  // ---- One pass ---------------------------------------------------------------------------------------

  /** The command failed, expired, or succeeded at least a confirmation period ago. */
  predicate Disappointed(c: Command, now: Time, confirm: Time) {
    c.state == Failed || c.state == Expired ||
    (c.state == Succeeded && c.completedAt.Some? && c.completedAt.value <= now - confirm)
  }

  /** What one pass makes of a row that was issued, read off the device and the command. */
  ghost predicate Decided(device: Device, c: Command, version: Version, now: Time, confirm: Time, to: Row, from: Row)
  {
    && to.command == from.command && to.issuedAt == from.issuedAt
    && (to.state == RowCancelled <==> device.revoked)
    && (to.state == RowUpdated <==> !device.revoked && device.version == version)
    && (to.state == RowFailed <==> !device.revoked && device.version != version && Disappointed(c, now, confirm))
    && (to.state == RowIssued <==> !device.revoked && device.version != version && !Disappointed(c, now, confirm))
    && (to.resolvedAt == if to.state == RowIssued then from.resolvedAt else Some(now))
  }

  /** A pass over an active rollout cancels the rows of revoked devices, updates those whose
      device reports the version, fails those whose command came to nothing, and leaves the
      others issued; finished rows stay as they are. */
  lemma {:induction false} PassDecides(db: Db, id: RolloutId, env: Env, cands: seq<DeviceId>, d: DeviceId)
    requires WellFormed(db) && id in db.rollouts && db.rollouts[id].phase == Active && d in RowsOf(db, id)
    requires IsCandidateList(Resolve(db, id, env.now, env.confirm), id, cands)
    ensures var row, rows := RowsOf(db, id)[d], RowsOf(Pass(db, id, env, cands), id);
      && d in rows && d in db.devices && row.command in db.commands
      && (row.state == RowIssued ==>
            Decided(db.devices[d], db.commands[row.command], db.rollouts[id].version, env.now, env.confirm, rows[d], row))
      && (row.state != RowIssued ==> rows[d] == row)
  {
    PassRows(db, id, env, cands);
    assert RowOk(db, d, db.progress[id][d]);
  }

  /** Devices whose issued row is to become updated: not revoked and on the version. */
  ghost function Arrived(db: Db, id: RolloutId): set<DeviceId>
    requires id in db.rollouts
  {
    set d | d in RowsOf(db, id) && RowsOf(db, id)[d].state == RowIssued && d in db.devices && RowsOf(db, id)[d].command in db.commands &&
            !db.devices[d].revoked && db.devices[d].version == db.rollouts[id].version
  }

  /** Devices whose issued row is to fail: not revoked, on another version, the command spent. */
  ghost function LeftBehind(db: Db, id: RolloutId, now: Time, confirm: Time): set<DeviceId>
    requires id in db.rollouts
  {
    set d | d in RowsOf(db, id) && RowsOf(db, id)[d].state == RowIssued && d in db.devices && RowsOf(db, id)[d].command in db.commands &&
            !db.devices[d].revoked && db.devices[d].version != db.rollouts[id].version &&
            Disappointed(db.commands[RowsOf(db, id)[d].command], now, confirm)
  }

  lemma {:induction false} NewlyMeans(db: Db, id: RolloutId, now: Time, confirm: Time)
    requires id in db.rollouts
    ensures Newly(db, id, RowUpdated, now, confirm) == Arrived(db, id)
    ensures Newly(db, id, RowFailed, now, confirm) == LeftBehind(db, id, now, confirm)
  {
  }

  /** A new row is issued now, under a new command for its device that lives for a day. */
  lemma {:induction false} PassIssues(db: Db, id: RolloutId, env: Env, cands: seq<DeviceId>, d: DeviceId)
    requires WellFormed(db) && id in db.rollouts && db.rollouts[id].phase == Active
    requires IsCandidateList(Resolve(db, id, env.now, env.confirm), id, cands)
    requires forall c :: c in db.commands ==> c.pass != env.serial
    requires d in RowsOf(Pass(db, id, env, cands), id) && d !in RowsOf(db, id)
    ensures var after, c := Pass(db, id, env, cands), CommandId(env.serial, d);
      && RowsOf(after, id)[d] == Row(c, RowIssued, env.now, None)
      && c in after.commands && after.commands[c] == Command(d, env.now + 86400, Pending, None)
  {
    PassRows(db, id, env, cands);
    PassIsConfined(db, id, env, cands);
  }

  /** A pass that does not pause and can read the release fills the batch: a connected candidate
      whose command is accepted and recorded is left without a row only when the batch is full. */
  lemma {:induction false} PassFills(db: Db, id: RolloutId, env: Env, cands: seq<DeviceId>, d: DeviceId)
    requires WellFormed(db) && id in db.rollouts && db.rollouts[id].phase == Active && env.released
    requires IsCandidateList(Resolve(db, id, env.now, env.confirm), id, cands)
    requires d in cands && d in env.online && d !in env.refused && d !in env.unrecorded
    ensures var after := Pass(db, id, env, cands);
      && id in after.rollouts
      && (after.rollouts[id].phase != Paused && d !in RowsOf(after, id) ==>
            |set x | x in RowsOf(after, id) && RowsOf(after, id)[x].state == RowIssued &&
                     x in after.devices && !after.devices[x].revoked| >= db.rollouts[id].batchSize)
  {
    PassPauses(db, id, env, cands);
    if Pass(db, id, env, cands).rollouts[id].phase != Paused && d !in RowsOf(Pass(db, id, env, cands), id) {
      LeftOutOnlyIfFull(db, id, env, cands, d);
      LiveMeans(Pass(db, id, env, cands), id);
    }
  }

  lemma {:induction false} LiveMeans(db: Db, id: RolloutId)
    ensures Live(db, id, RowIssued) ==
            set x | x in RowsOf(db, id) && RowsOf(db, id)[x].state == RowIssued && x in db.devices && !db.devices[x].revoked
  {
  }

  lemma {:induction false} LeftOutOnlyIfFull(db: Db, id: RolloutId, env: Env, cands: seq<DeviceId>, d: DeviceId)
    requires WellFormed(db) && id in db.rollouts && db.rollouts[id].phase == Active && env.released && !MustPause(db, id, env)
    requires IsCandidateList(Resolve(db, id, env.now, env.confirm), id, cands)
    requires d in cands && d in env.online - env.refused - env.unrecorded && d !in RowsOf(Pass(db, id, env, cands), id)
    ensures |Live(Pass(db, id, env, cands), id, RowIssued)| >= db.rollouts[id].batchSize
  {
    var resolved := Resolve(db, id, env.now, env.confirm);
    var slots := Slots(resolved, id);
    var k :| 0 <= k < |cands| && cands[k] == d;
    CandidatesDiffer(resolved, id, cands);
    PassCounts(db, id, env, cands);
    ResolvedCounts(db, id, env);
    IssueEffect(resolved, id, cands, slots, env);
    TakenIsGreedy(cands, slots, env, k);
  }

  lemma {:induction false} CandidatesDiffer(db: Db, id: RolloutId, cands: seq<DeviceId>)
    requires id in db.rollouts && IsCandidateList(db, id, cands)
    ensures forall i, j :: 0 <= i < j < |cands| ==> cands[i] != cands[j]
  {
  }

  /** By host name, and by id under equal names. */
  ghost predicate ListedBefore(db: Db, a: DeviceId, b: DeviceId) {
    && a in db.devices && b in db.devices
    && (db.devices[a].hostname < db.devices[b].hostname || (db.devices[a].hostname == db.devices[b].hostname && a < b))
  }

  /** The candidates of a rollout: not revoked, on another version, in one of its groups if it
      has any, and without a row, listed by host name and id. */
  lemma {:induction false} CandidateIff(db: Db, id: RolloutId, cands: seq<DeviceId>, d: DeviceId)
    requires id in db.rollouts && IsCandidateList(db, id, cands)
    ensures var r := db.rollouts[id];
      d in cands <==>
      && d in db.devices && !db.devices[d].revoked && db.devices[d].version != r.version
      && (r.groups == {} || exists g :: g in r.groups && db.devices[d].group == Some(g))
      && !(id in db.progress && d in db.progress[id])
    ensures forall i, j :: 0 <= i < j < |cands| ==> ListedBefore(db, cands[i], cands[j])
  {
    forall i, j | 0 <= i < j < |cands|
      ensures ListedBefore(db, cands[i], cands[j])
    {
      assert Before(db, cands[i], cands[j]);
    }
  }

  // ---- What a run has reported ------------------------------------------------------------------------------

  /** The step tells the server that the device runs the version. */
  predicate Tells(step: Step, d: DeviceId, version: Version) {
    (step.Heartbeat? && step.d == d && step.version == version) || (step.Enroll? && step.d == d && step.device.version == version)
  }

  ghost predicate Told(steps: seq<Step>, d: DeviceId, version: Version) {
    exists i :: 0 <= i < |steps| && Tells(steps[i], d, version)
  }

  /** Every reported version, and every version that an updated row stands for, is among `told`. */
  ghost predicate Vouched(db: Db, told: set<(DeviceId, Version)>) {
    && (forall d :: d in db.devices ==> (d, db.devices[d].version) in told)
    && (forall id, d :: id in db.progress && id in db.rollouts && d in db.progress[id] && db.progress[id][d].state == RowUpdated ==>
          (d, db.rollouts[id].version) in told)
  }

  function ToldBy(step: Step): set<(DeviceId, Version)> {
    if step.Heartbeat? then {(step.d, step.version)}
    else if step.Enroll? then {(step.d, step.device.version)}
    else {}
  }

  function ToldByAll(steps: seq<Step>): set<(DeviceId, Version)> {
    if steps == [] then {} else ToldBy(steps[0]) + ToldByAll(steps[1..])
  }

  lemma {:induction false} ToldByAllMeans(steps: seq<Step>, d: DeviceId, version: Version)
    ensures (d, version) in ToldByAll(steps) ==> Told(steps, d, version)
  {
    if steps != [] {
      ToldByAllMeans(steps[1..], d, version);
      if (d, version) in ToldBy(steps[0]) {
        assert Tells(steps[0], d, version);
      } else if Told(steps[1..], d, version) {
        var i :| 0 <= i < |steps[1..]| && Tells(steps[1..][i], d, version);
        assert Tells(steps[i + 1], d, version);
      }
    }
  }

  lemma {:induction false} PassKeepsVouched(db: Db, id: RolloutId, env: Env, cands: seq<DeviceId>, told: set<(DeviceId, Version)>)
    requires WellFormed(db) && id in db.rollouts && Vouched(db, told)
    requires IsCandidateList(Resolve(db, id, env.now, env.confirm), id, cands)
    ensures Vouched(Pass(db, id, env, cands), told)
  {
    var after := Pass(db, id, env, cands);
    PassIsConfined(db, id, env, cands);
    forall i, d | i in after.progress && i in after.rollouts && d in after.progress[i] && after.progress[i][d].state == RowUpdated
      ensures (d, after.rollouts[i].version) in told
    {
      assert SameTerms(db.rollouts[i], after.rollouts[i]);
      if i == id && db.rollouts[id].phase == Active {
        UpdatedIsVouched(db, id, env, cands, told, d);
      }
    }
  }

  lemma {:induction false} UpdatedIsVouched(db: Db, id: RolloutId, env: Env, cands: seq<DeviceId>, told: set<(DeviceId, Version)>, d: DeviceId)
    requires WellFormed(db) && id in db.rollouts && db.rollouts[id].phase == Active && Vouched(db, told)
    requires IsCandidateList(Resolve(db, id, env.now, env.confirm), id, cands)
    requires d in RowsOf(Pass(db, id, env, cands), id) && RowsOf(Pass(db, id, env, cands), id)[d].state == RowUpdated
    ensures (d, db.rollouts[id].version) in told
  {
    PassRows(db, id, env, cands);
    assert d in RowsOf(db, id);
    PassDecides(db, id, env, cands, d);
  }

  lemma {:induction false} QuietKeepsVouched(a: Db, b: Db, told: set<(DeviceId, Version)>)
    requires WellFormed(a) && Quiet(a, b) && Vouched(a, told)
    requires forall d :: d in b.devices ==> (d, b.devices[d].version) in told
    ensures Vouched(b, told)
  {
    forall id, d | id in b.progress && id in b.rollouts && d in b.progress[id] && b.progress[id][d].state == RowUpdated
      ensures (d, b.rollouts[id].version) in told
    {
      assert RowsOf(b, id) == RowsOf(a, id);
    }
  }

  lemma {:induction false} DevicesAreTold(w: World, step: Step, told: set<(DeviceId, Version)>)
    requires Enabled(w, step) && !step.RunPass? && forall d :: d in w.db.devices ==> (d, w.db.devices[d].version) in told
    ensures forall d :: d in Apply(w, step).db.devices ==> (d, Apply(w, step).db.devices[d].version) in told + ToldBy(step)
  {
  }

  lemma {:induction false} StepKeepsVouched(w: World, step: Step, told: set<(DeviceId, Version)>)
    requires WellFormed(w.db) && Enabled(w, step) && Vouched(w.db, told)
    ensures Vouched(Apply(w, step).db, told + ToldBy(step))
  {
    if step.RunPass? {
      PassKeepsVouched(w.db, step.id, step.env, step.cands, told);
    } else {
      StepIsQuiet(w, step);
      DevicesAreTold(w, step, told);
      assert Vouched(w.db, told + ToldBy(step));
      QuietKeepsVouched(w.db, Apply(w, step).db, told + ToldBy(step));
    }
  }

  lemma {:induction false} RunKeepsVouched(w: World, steps: seq<Step>, told: set<(DeviceId, Version)>)
    requires WellFormed(w.db) && Run(w, steps) && Vouched(w.db, told)
    ensures Vouched(Final(w, steps).db, told + ToldByAll(steps))
    decreases |steps|
  {
    if steps == [] {
      assert told + ToldByAll(steps) == told;
    } else {
      StepKeepsVouched(w, steps[0], told);
      StepWellFormed(w, steps[0]);
      RunKeepsVouched(Apply(w, steps[0]), steps[1..], told + ToldBy(steps[0]));
      assert told + ToldByAll(steps) == told + ToldBy(steps[0]) + ToldByAll(steps[1..]);
    }
  }

  /** In every run a row is updated only if its device has reported the rollout's version. */
  lemma {:induction false} UpdatedWasReported(steps: seq<Step>, id: RolloutId, d: DeviceId)
    requires Run(START, steps)
    requires var db := Final(START, steps).db;
      id in db.rollouts && d in RowsOf(db, id) && RowsOf(db, id)[d].state == RowUpdated
    ensures Told(steps, d, Final(START, steps).db.rollouts[id].version)
  {
    RunKeepsVouched(START, steps, {});
    var version := Final(START, steps).db.rollouts[id].version;
    assert (d, version) in {} + ToldByAll(steps);
    ToldByAllMeans(steps, d, version);
  }

  // ---- Devices that took the update --------------------------------------------------------------------------

  /** The device reports the rollout's version, and its row has not failed. */
  ghost predicate OnVersion(db: Db, id: RolloutId, d: DeviceId) {
    && id in db.rollouts && d in db.devices && db.devices[d].version == db.rollouts[id].version
    && d in RowsOf(db, id) && RowsOf(db, id)[d].state != RowFailed
  }

  /** The device reports no other version in this step. */
  predicate Faithful(step: Step, d: DeviceId, version: Version) {
    step.Heartbeat? && step.d == d ==> step.version == version
  }

  lemma {:induction false} PassKeepsOnVersion(db: Db, other: RolloutId, env: Env, cands: seq<DeviceId>, id: RolloutId, d: DeviceId)
    requires WellFormed(db) && other in db.rollouts && OnVersion(db, id, d)
    requires IsCandidateList(Resolve(db, other, env.now, env.confirm), other, cands)
    ensures OnVersion(Pass(db, other, env, cands), id, d)
  {
    PassIsConfined(db, other, env, cands);
    assert SameTerms(db.rollouts[id], Pass(db, other, env, cands).rollouts[id]);
    if other == id && db.rollouts[id].phase == Active {
      PassDecides(db, id, env, cands, d);
    }
  }

  lemma {:induction false} VersionStays(w: World, step: Step, d: DeviceId, version: Version)
    requires Enabled(w, step) && !step.RunPass? && Faithful(step, d, version)
    requires d in w.db.devices && w.db.devices[d].version == version
    ensures d in Apply(w, step).db.devices && Apply(w, step).db.devices[d].version == version
  {
  }

  lemma {:induction false} StepKeepsOnVersion(w: World, step: Step, id: RolloutId, d: DeviceId)
    requires WellFormed(w.db) && Enabled(w, step) && OnVersion(w.db, id, d) && Faithful(step, d, w.db.rollouts[id].version)
    ensures OnVersion(Apply(w, step).db, id, d)
    ensures Apply(w, step).db.rollouts[id].version == w.db.rollouts[id].version
  {
    if step.RunPass? {
      PassKeepsOnVersion(w.db, step.id, step.env, step.cands, id, d);
      PassIsConfined(w.db, step.id, step.env, step.cands);
      assert SameTerms(w.db.rollouts[id], Apply(w, step).db.rollouts[id]);
    } else {
      StepIsQuiet(w, step);
      VersionStays(w, step, d, w.db.rollouts[id].version);
      assert RowsOf(Apply(w, step).db, id) == RowsOf(w.db, id);
      assert SameTerms(w.db.rollouts[id], Apply(w, step).db.rollouts[id]);
    }
  }

  /** A device that reports the target version before its row is resolved, and reports nothing
      else from then on, is never failed, whatever becomes of its command. */
  lemma {:induction false} FaithfulNeverFails(w: World, steps: seq<Step>, id: RolloutId, d: DeviceId)
    requires WellFormed(w.db) && Run(w, steps) && OnVersion(w.db, id, d)
    requires forall i :: 0 <= i < |steps| ==> Faithful(steps[i], d, w.db.rollouts[id].version)
    ensures OnVersion(Final(w, steps).db, id, d)
    decreases |steps|
  {
    if steps != [] {
      StepKeepsOnVersion(w, steps[0], id, d);
      StepWellFormed(w, steps[0]);
      FaithfulNeverFails(Apply(w, steps[0]), steps[1..], id, d);
    }
  }

  // ---- Where the end of a command comes from -------------------------------------------------------------------

  function ReportedBy(step: Step): set<(CommandId, bool)> {
    if step.Report? then {(step.c, step.success)} else {}
  }

  function ReportedByAll(steps: seq<Step>): set<(CommandId, bool)> {
    if steps == [] then {} else ReportedBy(steps[0]) + ReportedByAll(steps[1..])
  }

  lemma {:induction false} ReportedByAllMeans(steps: seq<Step>, c: CommandId, success: bool)
    ensures (c, success) in ReportedByAll(steps) ==> Report(c, success) in steps
  {
    if steps != [] {
      ReportedByAllMeans(steps[1..], c, success);
    }
  }

  /** The result of the command was reported, or a sweep came when its time was over. */
  ghost predicate Caused(c: CommandId, command: Command, sweeps: seq<Time>, reported: set<(CommandId, bool)>) {
    && (command.state == Succeeded ==> (c, true) in reported)
    && (command.state == Failed ==> (c, false) in reported)
    && (command.state == Expired ==> exists t :: t in sweeps && command.expiresAt <= t)
  }

  predicate Closed(command: Command) {
    command.state != Pending && command.state != Sent
  }

  /** The command of a failed row is closed. */
  ghost predicate FailedIsClosed(db: Db, id: RolloutId, d: DeviceId) {
    id in db.progress && d in db.progress[id] && db.progress[id][d].state == RowFailed ==>
      db.progress[id][d].command in db.commands && Closed(db.commands[db.progress[id][d].command])
  }

  ghost predicate AllCaused(w: World, reported: set<(CommandId, bool)>) {
    && (forall c :: c in w.db.commands ==> Caused(c, w.db.commands[c], w.sweeps, reported))
    && (forall id, d :: FailedIsClosed(w.db, id, d))
  }

  /** What the result `success` for command `reported` makes of a command. */
  lemma {:induction false} ReportedIsCaused(w: World, c: CommandId, sweeps: seq<Time>, told: set<(CommandId, bool)>, success: bool)
    requires c in w.db.commands && Caused(c, w.db.commands[c], sweeps, told)
    ensures Caused(c, Reported(w.db.commands[c], success, w.clock), sweeps, told + {(c, success)})
    ensures Closed(w.db.commands[c]) ==> Reported(w.db.commands[c], success, w.clock) == w.db.commands[c]
  {
  }

  lemma {:induction false} SweptIsCaused(w: World, c: CommandId, told: set<(CommandId, bool)>)
    requires c in w.db.commands && Caused(c, w.db.commands[c], w.sweeps, told)
    ensures Caused(c, Swept(w.db.commands[c], w.clock), w.sweeps + [w.clock], told)
    ensures Closed(w.db.commands[c]) ==> Swept(w.db.commands[c], w.clock) == w.db.commands[c]
  {
    var sweeps := w.sweeps + [w.clock];
    assert sweeps[|w.sweeps|] == w.clock && w.clock in sweeps;
    if w.db.commands[c].state == Expired {
      var t :| t in w.sweeps && w.db.commands[c].expiresAt <= t;
      assert t in sweeps;
    }
  }

  lemma {:induction false} CausedGrows(c: CommandId, command: Command, sweeps: seq<Time>, told: set<(CommandId, bool)>, more: set<(CommandId, bool)>)
    requires Caused(c, command, sweeps, told) && told <= more
    ensures Caused(c, command, sweeps, more)
  {
  }

  ghost predicate ClosedStay(a: Db, b: Db) {
    forall c :: c in a.commands && Closed(a.commands[c]) ==> c in b.commands && b.commands[c] == a.commands[c]
  }

  /** Every command a step leaves is caused, and the closed ones stay as they are. */
  ghost predicate CommandsMove(w: World, t: World, told: set<(CommandId, bool)>) {
    && (forall c :: c in t.db.commands ==> Caused(c, t.db.commands[c], t.sweeps, told))
    && ClosedStay(w.db, t.db)
  }

  lemma {:induction false} ReportMoves(w: World, reported: CommandId, success: bool, told: set<(CommandId, bool)>)
    requires Enabled(w, Report(reported, success))
    requires forall c :: c in w.db.commands ==> Caused(c, w.db.commands[c], w.sweeps, told)
    ensures CommandsMove(w, Apply(w, Report(reported, success)), told + {(reported, success)})
  {
    var t := Apply(w, Report(reported, success));
    forall c | c in t.db.commands
      ensures Caused(c, t.db.commands[c], t.sweeps, told + {(reported, success)})
    {
      if c == reported {
        ReportedIsCaused(w, c, w.sweeps, told, success);
      } else {
        CausedGrows(c, w.db.commands[c], w.sweeps, told, told + {(reported, success)});
      }
    }
    if reported in w.db.commands {
      ReportedIsCaused(w, reported, w.sweeps, told, success);
    }
  }

  lemma {:induction false} SweepMoves(w: World, told: set<(CommandId, bool)>)
    requires Enabled(w, Sweep)
    requires forall c :: c in w.db.commands ==> Caused(c, w.db.commands[c], w.sweeps, told)
    ensures CommandsMove(w, Apply(w, Sweep), told)
  {
    var t := Apply(w, Sweep);
    forall c | c in w.db.commands
      ensures Caused(c, t.db.commands[c], t.sweeps, told)
      ensures Closed(w.db.commands[c]) ==> t.db.commands[c] == w.db.commands[c]
    {
      SweptIsCaused(w, c, told);
    }
  }

  lemma {:induction false} PassMoves(w: World, step: Step, told: set<(CommandId, bool)>)
    requires Enabled(w, step) && step.RunPass? && WellFormed(w.db)
    requires forall c :: c in w.db.commands ==> Caused(c, w.db.commands[c], w.sweeps, told)
    ensures CommandsMove(w, Apply(w, step), told)
  {
    PassIsConfined(w.db, step.id, step.env, step.cands);
  }

  lemma {:induction false} OthersMove(w: World, step: Step, told: set<(CommandId, bool)>)
    requires Enabled(w, step) && !step.RunPass? && !step.Report? && !step.Sweep?
    requires forall c :: c in w.db.commands ==> Caused(c, w.db.commands[c], w.sweeps, told)
    ensures CommandsMove(w, Apply(w, step), told)
  {
  }

  lemma {:induction false} StepMoves(w: World, step: Step, told: set<(CommandId, bool)>)
    requires WellFormed(w.db) && Enabled(w, step)
    requires forall c :: c in w.db.commands ==> Caused(c, w.db.commands[c], w.sweeps, told)
    ensures CommandsMove(w, Apply(w, step), told + ReportedBy(step))
  {
    if step.Report? {
      ReportMoves(w, step.c, step.success, told);
    } else {
      assert told + ReportedBy(step) == told;
      if step.RunPass? {
        PassMoves(w, step, told);
      } else if step.Sweep? {
        SweepMoves(w, told);
      } else {
        OthersMove(w, step, told);
      }
    }
  }

  /** A row that is failed after a pass was failed before, or its command was closed. */
  lemma {:induction false} FailsOnlyClosed(db: Db, id: RolloutId, env: Env, cands: seq<DeviceId>, d: DeviceId)
    requires WellFormed(db) && id in db.rollouts && db.rollouts[id].phase == Active
    requires IsCandidateList(Resolve(db, id, env.now, env.confirm), id, cands)
    requires d in RowsOf(Pass(db, id, env, cands), id) && RowsOf(Pass(db, id, env, cands), id)[d].state == RowFailed
    ensures d in RowsOf(db, id)
    ensures var row := RowsOf(db, id)[d];
      && RowsOf(Pass(db, id, env, cands), id)[d].command == row.command && row.command in db.commands
      && (row.state == RowFailed || Closed(db.commands[row.command]))
  {
    PassRows(db, id, env, cands);
    assert d in RowsOf(db, id);
    PassDecides(db, id, env, cands, d);
  }

  lemma {:induction false} PassFailsClosed(db: Db, own: RolloutId, env: Env, cands: seq<DeviceId>, id: RolloutId, d: DeviceId)
    requires WellFormed(db) && own in db.rollouts && FailedIsClosed(db, id, d)
    requires IsCandidateList(Resolve(db, own, env.now, env.confirm), own, cands)
    requires ClosedStay(db, Pass(db, own, env, cands))
    ensures FailedIsClosed(Pass(db, own, env, cands), id, d)
  {
    var after := Pass(db, own, env, cands);
    if db.rollouts[own].phase != Active {
      assert after == db;
    } else if id != own {
      PassIsConfined(db, own, env, cands);
      OtherFailsClosed(db, after, own, env, id, d);
    } else if id in after.progress && d in after.progress[id] && after.progress[id][d].state == RowFailed {
      FailsOnlyClosed(db, id, env, cands, d);
      OwnFailsClosed(db, after, id, d);
    }
  }

  lemma {:induction false} OtherFailsClosed(db: Db, after: Db, own: RolloutId, env: Env, id: RolloutId, d: DeviceId)
    requires Confined(db, after, own, env) && ClosedStay(db, after) && id != own && FailedIsClosed(db, id, d)
    ensures FailedIsClosed(after, id, d)
  {
  }

  lemma {:induction false} OwnFailsClosed(db: Db, after: Db, id: RolloutId, d: DeviceId)
    requires ClosedStay(db, after) && FailedIsClosed(db, id, d) && d in RowsOf(db, id) && d in RowsOf(after, id)
    requires var row := RowsOf(db, id)[d];
      && RowsOf(after, id)[d].command == row.command && row.command in db.commands
      && (row.state == RowFailed || Closed(db.commands[row.command]))
    ensures FailedIsClosed(after, id, d)
  {
  }

  lemma {:induction false} QuietFailsClosed(a: Db, b: Db, id: RolloutId, d: DeviceId)
    requires WellFormed(a) && Quiet(a, b) && ClosedStay(a, b) && FailedIsClosed(a, id, d)
    ensures FailedIsClosed(b, id, d)
  {
    if id in b.progress {
      assert RowsOf(b, id) == RowsOf(a, id);
    }
  }

  lemma {:induction false} StepKeepsCaused(w: World, step: Step, told: set<(CommandId, bool)>)
    requires WellFormed(w.db) && Enabled(w, step) && AllCaused(w, told)
    ensures AllCaused(Apply(w, step), told + ReportedBy(step))
  {
    StepMoves(w, step, told);
    var t := Apply(w, step);
    forall id, d
      ensures FailedIsClosed(t.db, id, d)
    {
      assert FailedIsClosed(w.db, id, d);
      if step.RunPass? {
        PassFailsClosed(w.db, step.id, step.env, step.cands, id, d);
      } else {
        StepIsQuiet(w, step);
        QuietFailsClosed(w.db, t.db, id, d);
      }
    }
  }

  lemma {:induction false} RunKeepsCaused(w: World, steps: seq<Step>, told: set<(CommandId, bool)>)
    requires WellFormed(w.db) && Run(w, steps) && AllCaused(w, told)
    ensures AllCaused(Final(w, steps), told + ReportedByAll(steps))
    decreases |steps|
  {
    if steps == [] {
      assert told + ReportedByAll(steps) == told;
    } else {
      StepKeepsCaused(w, steps[0], told);
      StepWellFormed(w, steps[0]);
      RunKeepsCaused(Apply(w, steps[0]), steps[1..], told + ReportedBy(steps[0]));
      assert told + ReportedByAll(steps) == told + ReportedBy(steps[0]) + ReportedByAll(steps[1..]);
    }
  }

  /** In every run a command has succeeded only if that was reported, failed only if that was
      reported, and expired only if a sweep ran at or after the end of its time. */
  lemma {:induction false} CommandsEndAsReported(steps: seq<Step>, c: CommandId)
    requires Run(START, steps) && c in Final(START, steps).db.commands
    ensures var w := Final(START, steps);
      var command := w.db.commands[c];
      && (command.state == Succeeded ==> Report(c, true) in steps)
      && (command.state == Failed ==> Report(c, false) in steps)
      && (command.state == Expired ==> exists t :: t in w.sweeps && command.expiresAt <= t)
  {
    RunKeepsCaused(START, steps, {});
    ReportedByAllMeans(steps, c, true);
    ReportedByAllMeans(steps, c, false);
    assert {} + ReportedByAll(steps) == ReportedByAll(steps);
  }

  /** In every run a row is failed only if a result of its command was reported, or a sweep ran at
      or after the end of its time. */
  lemma {:induction false} FailedWasCaused(steps: seq<Step>, id: RolloutId, d: DeviceId)
    requires Run(START, steps)
    requires var db := Final(START, steps).db;
      id in db.progress && d in db.progress[id] && db.progress[id][d].state == RowFailed
    ensures var w := Final(START, steps);
      var c := w.db.progress[id][d].command;
      && c in w.db.commands
      && (Report(c, true) in steps || Report(c, false) in steps || exists t :: t in w.sweeps && w.db.commands[c].expiresAt <= t)
  {
    RunKeepsCaused(START, steps, {});
    assert FailedIsClosed(Final(START, steps).db, id, d);
    var c := Final(START, steps).db.progress[id][d].command;
    CommandsEndAsReported(steps, c);
  }
}
