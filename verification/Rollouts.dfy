/** Staged agent rollouts of one tenant: the tables, the statements that change
    them, and one reconciliation pass. */
module Rollouts {
  import opened Common

  type DeviceId = nat
  type RolloutId = nat
  type GroupId = nat
  type Version = string

  /** An id drawn at random by the issuing pass, unique per pass and device. */
  datatype CommandId = CommandId(pass: nat, device: DeviceId)

  const DEFAULT_TTL: Time := 24 * 3600

  /** `hostname` is the rank of the name in the database's collation. */
  datatype Device = Device(hostname: nat, group: Option<GroupId>, version: Version, revoked: bool)

  datatype Phase = Active | Paused | Completed | Cancelled

  /** An empty group set targets every device. */
  datatype Rollout = Rollout(version: Version, groups: set<GroupId>, batchSize: nat, maxFailures: nat,
                             phase: Phase, finishedAt: Option<Time>)

  datatype RowState = RowIssued | RowUpdated | RowFailed | RowCancelled

  datatype Row = Row(command: CommandId, state: RowState, issuedAt: Time, resolvedAt: Option<Time>)

  datatype CommandState = Pending | Sent | Succeeded | Failed | Expired

  datatype Command = Command(device: DeviceId, expiresAt: Time, state: CommandState, completedAt: Option<Time>)

  type Rows = map<DeviceId, Row>

  /** `progress` is keyed by rollout and device, its primary key. */
  datatype Db = Db(devices: map<DeviceId, Device>, rollouts: map<RolloutId, Rollout>,
                   progress: map<RolloutId, Rows>, commands: map<CommandId, Command>)

  predicate IsOpen(p: Phase) { p == Active || p == Paused }

  predicate CommandOpen(c: Command) { c.state == Pending || c.state == Sent }

  predicate InGroups(r: Rollout, d: Device) {
    r.groups == {} || (d.group.Some? && d.group.value in r.groups)
  }

  function RowsOf(db: Db, id: RolloutId): Rows {
    if id in db.progress then db.progress[id] else map[]
  }

  // ---- The queries ---------------------------------------------------------------

  /** Devices in the group set that are not revoked. */
  function Targeted(db: Db, r: Rollout): set<DeviceId> {
    set d | d in db.devices && !db.devices[d].revoked && InGroups(r, db.devices[d])
  }

  function AlreadyCurrent(db: Db, id: RolloutId, r: Rollout): set<DeviceId> {
    set d | d in Targeted(db, r) && d !in RowsOf(db, id) && db.devices[d].version == r.version
  }

  function Remaining(db: Db, id: RolloutId, r: Rollout): set<DeviceId> {
    set d | d in Targeted(db, r) && d !in RowsOf(db, id) && db.devices[d].version != r.version
  }

  /** Devices that are not revoked and whose progress row is in `state`. */
  function Live(db: Db, id: RolloutId, state: RowState): set<DeviceId> {
    set d | d in RowsOf(db, id) && RowsOf(db, id)[d].state == state && d in db.devices && !db.devices[d].revoked
  }

  /** Devices with a progress row that have since left the target groups. */
  function MovedOut(db: Db, id: RolloutId, r: Rollout): set<DeviceId> {
    set d | d in RowsOf(db, id) && d in db.devices && !db.devices[d].revoked && !InGroups(r, db.devices[d])
  }

  datatype Summary = Summary(targeted: nat, alreadyCurrent: nat, issued: nat, updated: nat, failed: nat, remaining: nat)

  function Summarize(db: Db, id: RolloutId): Summary
    requires id in db.rollouts
  {
    var r := db.rollouts[id];
    Summary(|Targeted(db, r)|, |AlreadyCurrent(db, id, r)|, |Live(db, id, RowIssued)|,
            |Live(db, id, RowUpdated)|, |Live(db, id, RowFailed)|, |Remaining(db, id, r)|)
  }

  /** The candidate query, which is written without reference to the summary. */
  predicate IsCandidate(db: Db, id: RolloutId, d: DeviceId)
    requires id in db.rollouts
  {
    && d in db.devices
    && !db.devices[d].revoked
    && db.devices[d].version != db.rollouts[id].version
    && (db.rollouts[id].groups == {} || exists g :: g in db.rollouts[id].groups && db.devices[d].group == Some(g))
    && d !in RowsOf(db, id)
  }

  predicate Before(db: Db, a: DeviceId, b: DeviceId)
    requires a in db.devices && b in db.devices
  {
    db.devices[a].hostname < db.devices[b].hostname || (db.devices[a].hostname == db.devices[b].hostname && a < b)
  }

  /** All candidates, each once, ordered by host name and id. */
  ghost predicate IsCandidateList(db: Db, id: RolloutId, cands: seq<DeviceId>)
    requires id in db.rollouts
  {
    && (forall d :: d in cands <==> IsCandidate(db, id, d))
    && (forall i, j :: 0 <= i < j < |cands| ==> cands[i] in db.devices && cands[j] in db.devices && Before(db, cands[i], cands[j]))
  }

  // ---- The updates ---------------------------------------------------------------

  datatype Outcome = Done | NotFound | Conflict

  function WithPhase(db: Db, id: RolloutId, to: Phase, now: Time): Db
    requires id in db.rollouts
  {
    db.(rollouts := db.rollouts[id := db.rollouts[id].(
      phase := to,
      finishedAt := if IsOpen(to) then db.rollouts[id].finishedAt else Some(now))])
  }

  function SetState(db: Db, id: RolloutId, from: set<Phase>, to: Phase, now: Time): (Db, Outcome) {
    if id !in db.rollouts then (db, NotFound)
    else if db.rollouts[id].phase in from then (WithPhase(db, id, to, now), Done)
    else (db, Conflict)
  }

  ghost predicate HasOpen(db: Db) {
    exists id :: id in db.rollouts && IsOpen(db.rollouts[id].phase)
  }

  /** The guarded insert: a unique index admits one open rollout. */
  ghost function Insert(db: Db, id: RolloutId, r: Rollout, released: bool): (Db, Outcome) {
    if !released then (db, NotFound)
    else if id in db.rollouts || (IsOpen(r.phase) && HasOpen(db)) then (db, Conflict)
    else (db.(rollouts := db.rollouts[id := r], progress := db.progress[id := map[]]), Done)
  }

  /** Cancelling the old rollout and inserting the new one is one transaction. */
  ghost function Replace(db: Db, previous: RolloutId, id: RolloutId, r: Rollout, released: bool, now: Time): (Db, Outcome) {
    if previous !in db.rollouts then (db, NotFound)
    else
      var cancelled := if IsOpen(db.rollouts[previous].phase) then WithPhase(db, previous, Cancelled, now) else db;
      var (next, outcome) := Insert(cancelled, id, r, released);
      if outcome == Done then (next, Done) else (db, outcome)
  }

  /** The state an issued row moves to; it stays issued while nothing is known. */
  function ResolvedState(db: Db, r: Rollout, d: DeviceId, row: Row, now: Time, confirm: Time): RowState {
    if row.state != RowIssued || d !in db.devices || row.command !in db.commands then row.state
    else
      var device, command := db.devices[d], db.commands[row.command];
      if device.revoked then RowCancelled
      else if device.version == r.version then RowUpdated
      else if command.state == Failed || command.state == Expired then RowFailed
      else if command.state == Succeeded && command.completedAt.Some? && command.completedAt.value <= now - confirm
      then RowFailed
      else RowIssued
  }

  function ResolvedRow(db: Db, r: Rollout, d: DeviceId, row: Row, now: Time, confirm: Time): Row {
    var state := ResolvedState(db, r, d, row, now, confirm);
    if state == row.state then row else row.(state := state, resolvedAt := Some(now))
  }

  function Resolve(db: Db, id: RolloutId, now: Time, confirm: Time): Db
    requires id in db.rollouts
  {
    var rows, r := RowsOf(db, id), db.rollouts[id];
    db.(progress := db.progress[id := map d | d in rows :: ResolvedRow(db, r, d, rows[d], now, confirm)])
  }

  /** Rows that this resolution moves from issued to `state`. */
  function Newly(db: Db, id: RolloutId, state: RowState, now: Time, confirm: Time): set<DeviceId>
    requires id in db.rollouts
  {
    set d | d in RowsOf(db, id) && RowsOf(db, id)[d].state == RowIssued &&
            state != RowIssued && ResolvedState(db, db.rollouts[id], d, RowsOf(db, id)[d], now, confirm) == state
  }

  // ---- One pass --------------------------------------------------------------------

  /** What a pass meets outside the tables: the clock, which devices are connected,
      whether the release can be read, which commands the store refuses, and which
      progress rows it fails to record after the command was created. */
  datatype Env = Env(now: Time, confirm: Time, online: set<DeviceId>, released: bool,
                     refused: set<DeviceId>, unrecorded: set<DeviceId>, serial: nat)

  function IssueCommand(db: Db, d: DeviceId, env: Env): Db {
    db.(commands := db.commands[CommandId(env.serial, d) := NewCommand(env, d)])
  }

  function AddRow(db: Db, id: RolloutId, d: DeviceId, env: Env): Db {
    db.(progress := db.progress[id := RowsOf(db, id)[d := NewRow(env, d)]])
  }

  /** The issuing loop over the remaining candidates with the slots that are left. */
  function Issue(db: Db, id: RolloutId, cands: seq<DeviceId>, slots: nat, env: Env): (r: Db)
    ensures r.devices == db.devices && r.rollouts == db.rollouts
    decreases |cands|
  {
    if cands == [] || slots == 0 then db
    else if cands[0] !in env.online || cands[0] in env.refused then Issue(db, id, cands[1..], slots, env)
    else if cands[0] in env.unrecorded then Issue(IssueCommand(db, cands[0], env), id, cands[1..], slots, env)
    else Issue(AddRow(IssueCommand(db, cands[0], env), id, cands[0], env), id, cands[1..], slots - 1, env)
  }

  /** The candidates that get a row: the first `slots` that are reachable. */
  function Taken(cands: seq<DeviceId>, slots: nat, env: Env): set<DeviceId> {
    if cands == [] || slots == 0 then {}
    else if cands[0] in env.online - env.refused - env.unrecorded
    then {cands[0]} + Taken(cands[1..], slots - 1, env)
    else Taken(cands[1..], slots, env)
  }

  /** The commands created on the way, including those whose row was not recorded. */
  function Commanded(cands: seq<DeviceId>, slots: nat, env: Env): set<CommandId> {
    if cands == [] || slots == 0 then {}
    else if cands[0] !in env.online || cands[0] in env.refused then Commanded(cands[1..], slots, env)
    else {CommandId(env.serial, cands[0])} +
         Commanded(cands[1..], if cands[0] in env.unrecorded then slots else slots - 1, env)
  }

  function NewRow(env: Env, d: DeviceId): Row {
    Row(CommandId(env.serial, d), RowIssued, env.now, None)
  }

  function NewCommand(env: Env, d: DeviceId): Command {
    Command(d, env.now + DEFAULT_TTL, Pending, None)
  }

  function Slots(db: Db, id: RolloutId): nat
    requires id in db.rollouts
  {
    var issued := |Live(db, id, RowIssued)|;
    if db.rollouts[id].batchSize > issued then db.rollouts[id].batchSize - issued else 0
  }

  /** The threshold counts all failures, but only a pass with a new one may pause. */
  predicate MustPause(db: Db, id: RolloutId, env: Env)
    requires id in db.rollouts
  {
    && db.rollouts[id].maxFailures > 0
    && Newly(db, id, RowFailed, env.now, env.confirm) != {}
    && |Live(Resolve(db, id, env.now, env.confirm), id, RowFailed)| >= db.rollouts[id].maxFailures
  }

  /** The rows a pass over an active rollout adds. */
  function PassTaken(db: Db, id: RolloutId, env: Env, cands: seq<DeviceId>): set<DeviceId>
    requires id in db.rollouts
  {
    if db.rollouts[id].phase != Active || MustPause(db, id, env) || !env.released then {}
    else Taken(cands, Slots(Resolve(db, id, env.now, env.confirm), id), env)
  }

  function Pass(db: Db, id: RolloutId, env: Env, cands: seq<DeviceId>): Db
    requires id in db.rollouts
  {
    if db.rollouts[id].phase != Active then db
    else
      var resolved := Resolve(db, id, env.now, env.confirm);
      if MustPause(db, id, env) then WithPhase(resolved, id, Paused, env.now)
      else
        var slots := Slots(resolved, id);
        if slots > 0 && !env.released then resolved
        else
          var issued := Issue(resolved, id, cands, slots, env);
          var n := |Taken(cands, slots, env)|;
          var sum := Summarize(resolved, id);
          if sum.issued + n == 0 && sum.remaining - n == 0 then WithPhase(issued, id, Completed, env.now) else issued
  }
}
