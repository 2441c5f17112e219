/** The rollout tables as updated in place, and the reconciliation pass over them. */
module RolloutStore {
  import opened Common
  import opened Rollouts
  import opened RolloutPass
  import opened RolloutLaws

  class Store {
    var devices: map<DeviceId, Device>
    var rollouts: map<RolloutId, Rollout>
    var progress: map<RolloutId, Rows>
    var commands: map<CommandId, Command>

    function Tables(): Db
      reads this
    {
      Db(devices, rollouts, progress, commands)
    }

    constructor ()
      ensures Tables() == Db(map[], map[], map[], map[])
    {
      devices, rollouts, progress, commands := map[], map[], map[], map[];
    }

    method SetRolloutState(id: RolloutId, from: set<Phase>, to: Phase, now: Time) returns (outcome: Outcome)
      modifies this`rollouts
      ensures (Tables(), outcome) == SetState(old(Tables()), id, from, to, now)
      ensures outcome == if id !in old(rollouts) then NotFound else if old(rollouts)[id].phase in from then Done else Conflict
      ensures outcome != Done ==> rollouts == old(rollouts)
      ensures outcome == Done && to in {Completed, Cancelled} ==>
                rollouts == old(rollouts)[id := old(rollouts)[id].(phase := to, finishedAt := Some(now))]
      ensures outcome == Done && to !in {Completed, Cancelled} ==>
                rollouts == old(rollouts)[id := old(rollouts)[id].(phase := to)]
    {
      if id !in rollouts {
        return NotFound;
      }
      if rollouts[id].phase !in from {
        return Conflict;
      }
      var finished := if to == Completed || to == Cancelled then Some(now) else rollouts[id].finishedAt;
      rollouts := rollouts[id := rollouts[id].(phase := to, finishedAt := finished)];
      outcome := Done;
    }

    method CreateRollout(id: RolloutId, r: Rollout, released: bool) returns (outcome: Outcome)
      modifies this`rollouts, this`progress
      ensures (Tables(), outcome) == Insert(old(Tables()), id, r, released)
      ensures outcome == NotFound <==> !released
      ensures outcome == Done ==>
                id !in old(rollouts) && rollouts == old(rollouts)[id := r] && progress == old(progress)[id := map[]] &&
                (r.phase in {Active, Paused} ==> forall i :: i in old(rollouts) ==> old(rollouts)[i].phase !in {Active, Paused})
      ensures outcome != Done ==> rollouts == old(rollouts) && progress == old(progress)
    {
      if !released {
        return NotFound;
      }
      if id in rollouts || (IsOpen(r.phase) && exists i :: i in rollouts && IsOpen(rollouts[i].phase)) {
        return Conflict;
      }
      rollouts := rollouts[id := r];
      progress := progress[id := map[]];
      outcome := Done;
    }

    /** One transaction: unless both parts succeed, the tables are as before. */
    method ReplaceRollout(open: RolloutId, id: RolloutId, r: Rollout, released: bool, now: Time)
      returns (outcome: Outcome)
      modifies this`rollouts, this`progress
      ensures (Tables(), outcome) == Replace(old(Tables()), open, id, r, released, now)
    {
      if open !in rollouts {
        return NotFound;
      }
      var before := rollouts;
      if rollouts[open].phase == Active || rollouts[open].phase == Paused {
        rollouts := rollouts[open := rollouts[open].(phase := Cancelled, finishedAt := Some(now))];
      }
      outcome := CreateRollout(id, r, released);
      if outcome != Done {
        rollouts := before;
      }
    }

    /** One update of the rows, then a count over the states it returns; the failures a
        caller sees grow by exactly the second number. */
    method ResolveRolloutDevices(id: RolloutId, now: Time, confirm: Time) returns (updated: nat, failed: nat)
      requires id in rollouts
      modifies this`progress
      ensures Tables() == Resolve(old(Tables()), id, now, confirm)
      ensures updated == |Arrived(old(Tables()), id)| == |Newly(old(Tables()), id, RowUpdated, now, confirm)|
      ensures failed == |LeftBehind(old(Tables()), id, now, confirm)| == |Newly(old(Tables()), id, RowFailed, now, confirm)|
      ensures WellFormed(old(Tables())) ==>
                Summarize(Tables(), id).failed == Summarize(old(Tables()), id).failed + failed &&
                Summarize(Tables(), id).remaining == Summarize(old(Tables()), id).remaining
    {
      var db := Tables();
      var changes := ChangedStates(db, id, now, confirm);
      updated := Tally(changes, RowUpdated);
      failed := Tally(changes, RowFailed);
      var rows := RowsOf(db, id);
      ChangesMean(db, id, now, confirm, changes);
      NewlyMeans(db, id, now, confirm);
      var next: Rows := map d | d in rows :: Changed(rows[d], changes, d, now);
      progress := progress[id := next];
      assert next == RowsOf(Resolve(db, id, now, confirm), id);
      if WellFormed(db) {
        ResolvedSummary(db, id, now, confirm);
      }
    }

    method RolloutCandidates(id: RolloutId) returns (cands: seq<DeviceId>)
      requires id in rollouts
      ensures IsCandidateList(Tables(), id, cands)
    {
      var db := Tables();
      var rest := set d | d in devices && IsCandidate(db, id, d);
      cands := [];
      while rest != {}
        invariant forall d :: IsCandidate(db, id, d) <==> d in cands || d in rest
        invariant rest <= db.devices.Keys && Ordered(db, cands)
        invariant forall i :: 0 <= i < |cands| ==> PrecedesAll(db, cands[i], rest)
        decreases |rest|
      {
        var first := FirstInOrder(db, rest);
        cands := cands + [first];
        rest := rest - {first};
      }
    }

    method AddRolloutDevice(id: RolloutId, d: DeviceId, c: CommandId, now: Time) returns (ok: bool)
      modifies this`progress
      ensures ok <==> d !in RowsOf(old(Tables()), id)
      ensures Tables() == if ok then old(Tables()).(progress :=
                old(progress)[id := RowsOf(old(Tables()), id)[d := Row(c, RowIssued, now, None)]]) else old(Tables())
    {
      var rows := RowsOf(Tables(), id);
      ok := d !in rows;
      if ok {
        progress := progress[id := rows[d := Row(c, RowIssued, now, None)]];
      }
    }

    /** One pass: resolve, pause on new failures, issue the next batch, complete. */
    method Reconcile(id: RolloutId, env: Env) returns (ghost cands: seq<DeviceId>)
      requires id in rollouts && WellFormed(Tables())
      modifies this
      ensures old(rollouts)[id].phase == Active ==>
                IsCandidateList(Resolve(old(Tables()), id, env.now, env.confirm), id, cands)
      ensures Tables() == Pass(old(Tables()), id, env, cands)
    {
      ghost var before := Tables();
      ghost var resolved := Resolve(before, id, env.now, env.confirm);
      if rollouts[id].phase != Active {
        return [];
      }
      var _, failed := ResolveRolloutDevices(id, env.now, env.confirm);
      var list := RolloutCandidates(id);
      cands := list;
      var sum := Summarize(Tables(), id);
      if rollouts[id].maxFailures > 0 && failed > 0 && sum.failed >= rollouts[id].maxFailures {
        assert MustPause(before, id, env);
        var outcome := SetRolloutState(id, {Active}, Paused, env.now);
        return;
      }
      assert !MustPause(before, id, env);
      var slots: int := rollouts[id].batchSize - sum.issued;
      var issued, remaining := sum.issued, sum.remaining;
      if slots > 0 {
        if !env.released {
          return;
        }
        CandidatesHaveNoRow(resolved, id, list);
        issued, remaining := IssueBatch(id, env, list, slots, issued, remaining);
      }
      if issued == 0 && remaining == 0 {
        var outcome := SetRolloutState(id, {Active}, Completed, env.now);
      }
    }

    /** The issuing loop of a pass; the two counters follow the rows it adds. */
    method IssueBatch(id: RolloutId, env: Env, list: seq<DeviceId>, limit: nat, issued0: int, remaining0: int)
      returns (issued: int, remaining: int)
      requires forall i :: 0 <= i < |list| ==> list[i] !in RowsOf(Tables(), id)
      requires forall i, j :: 0 <= i < j < |list| ==> list[i] != list[j]
      modifies this`progress, this`commands
      ensures Tables() == Issue(old(Tables()), id, list, limit, env)
      ensures issued == issued0 + |Taken(list, limit, env)|
      ensures remaining == remaining0 - |Taken(list, limit, env)|
    {
      var slots := limit;
      issued, remaining := issued0, remaining0;
      var k := 0;
      while k < |list| && slots > 0
        invariant 0 <= k <= |list|
        invariant Issue(Tables(), id, list[k..], slots, env) == Issue(old(Tables()), id, list, limit, env)
        invariant forall i :: k <= i < |list| ==> list[i] !in RowsOf(Tables(), id)
        invariant limit - slots + |Taken(list[k..], slots, env)| == |Taken(list, limit, env)|
        invariant issued == issued0 + (limit - slots) && remaining == remaining0 - (limit - slots)
      {
        var d := list[k];
        assert list[k..][0] == d && list[k..][1..] == list[k + 1..];
        if d in env.online && d !in env.refused {
          commands := commands[CommandId(env.serial, d) := NewCommand(env, d)];
          if d !in env.unrecorded {
            TakenHead(list[k..], slots, env);
            var ok := AddRolloutDevice(id, d, CommandId(env.serial, d), env.now);
            slots, issued, remaining := slots - 1, issued + 1, remaining - 1;
          }
        }
        k := k + 1;
      }
      assert k == |list| ==> list[k..] == [];
    }
  }

  lemma {:induction false} ResolvedSummary(db: Db, id: RolloutId, now: Time, confirm: Time)
    requires WellFormed(db) && id in db.rollouts
    ensures var after := Summarize(Resolve(db, id, now, confirm), id);
      && after.failed == Summarize(db, id).failed + |Newly(db, id, RowFailed, now, confirm)|
      && after.remaining == Summarize(db, id).remaining
  {
    ResolveCounts(db, id, now, confirm);
  }

  // ---- Resolving rows ------------------------------------------------------------------------

  /** The state the update gives a row, if it touches it. */
  method OutcomeOf(db: Db, r: Rollout, d: DeviceId, row: Row, now: Time, confirm: Time) returns (to: Option<RowState>)
    ensures to == if ResolvedState(db, r, d, row, now, confirm) == row.state then None
                  else Some(ResolvedState(db, r, d, row, now, confirm))
  {
    if row.state != RowIssued || d !in db.devices || row.command !in db.commands {
      return None;
    }
    var device, command := db.devices[d], db.commands[row.command];
    if device.revoked {
      return Some(RowCancelled);
    }
    if device.version == r.version {
      return Some(RowUpdated);
    }
    if command.state == Failed || command.state == Expired {
      return Some(RowFailed);
    }
    if command.state == Succeeded && command.completedAt.Some? && command.completedAt.value <= now - confirm {
      return Some(RowFailed);
    }
    to := None;
  }

  /** Exactly the rows whose state the rules change, with their new states. */
  ghost predicate AreChanges(db: Db, id: RolloutId, now: Time, confirm: Time, rows: Rows, changes: map<DeviceId, RowState>)
    requires id in db.rollouts
  {
    && (forall d :: d in changes <==> d in rows && ResolvedState(db, db.rollouts[id], d, rows[d], now, confirm) != rows[d].state)
    && (forall d :: d in changes ==> changes[d] == ResolvedState(db, db.rollouts[id], d, rows[d], now, confirm))
  }

  /** Visits the rows in any order. */
  method ChangedStates(db: Db, id: RolloutId, now: Time, confirm: Time) returns (changes: map<DeviceId, RowState>)
    requires id in db.rollouts
    ensures AreChanges(db, id, now, confirm, RowsOf(db, id), changes)
  {
    var rows, r := RowsOf(db, id), db.rollouts[id];
    var todo := rows.Keys;
    changes := map[];
    while todo != {}
      invariant todo <= rows.Keys
      invariant forall d :: d in changes <==> d in rows && d !in todo && ResolvedState(db, r, d, rows[d], now, confirm) != rows[d].state
      invariant forall d :: d in changes ==> changes[d] == ResolvedState(db, r, d, rows[d], now, confirm)
      decreases |todo|
    {
      var d := Pick(todo);
      var to := OutcomeOf(db, r, d, rows[d], now, confirm);
      if to.Some? {
        changes := changes[d := to.value];
      }
      todo := todo - {d};
    }
  }

  ghost function With(changes: map<DeviceId, RowState>, state: RowState): set<DeviceId> {
    set d | d in changes && changes[d] == state
  }

  /** The number of returned states that are `state`. */
  method Tally(changes: map<DeviceId, RowState>, state: RowState) returns (count: nat)
    ensures count == |With(changes, state)|
  {
    var todo := changes.Keys;
    ghost var wanted := With(changes, state);
    assert wanted - todo == {};
    count := 0;
    while todo != {}
      invariant todo <= changes.Keys && count == |wanted - todo|
      decreases |todo|
    {
      var d := Pick(todo);
      CountStruck(wanted, todo, d);
      if changes[d] == state {
        count := count + 1;
      }
      todo := todo - {d};
    }
    assert wanted - todo == wanted;
  }

  function Changed(row: Row, changes: map<DeviceId, RowState>, d: DeviceId, now: Time): Row {
    if d in changes then row.(state := changes[d], resolvedAt := Some(now)) else row
  }

  lemma {:induction false} ChangesMean(db: Db, id: RolloutId, now: Time, confirm: Time, changes: map<DeviceId, RowState>)
    requires id in db.rollouts && AreChanges(db, id, now, confirm, RowsOf(db, id), changes)
    ensures forall d :: d in RowsOf(db, id) ==>
              Changed(RowsOf(db, id)[d], changes, d, now) == ResolvedRow(db, db.rollouts[id], d, RowsOf(db, id)[d], now, confirm)
    ensures With(changes, RowUpdated) == Newly(db, id, RowUpdated, now, confirm)
    ensures With(changes, RowFailed) == Newly(db, id, RowFailed, now, confirm)
  {
  }

  lemma {:induction false} TakenHead(cands: seq<DeviceId>, slots: nat, env: Env)
    requires cands != [] && slots > 0 && cands[0] in env.online - env.refused - env.unrecorded
    requires forall i, j :: 0 <= i < j < |cands| ==> cands[i] != cands[j]
    ensures |Taken(cands, slots, env)| == 1 + |Taken(cands[1..], slots - 1, env)|
  {
    TakenBounds(cands[1..], slots - 1, env);
    assert cands[0] !in cands[1..];
  }

  lemma {:induction false} CandidatesHaveNoRow(db: Db, id: RolloutId, cands: seq<DeviceId>)
    requires id in db.rollouts && IsCandidateList(db, id, cands)
    ensures forall i :: 0 <= i < |cands| ==> cands[i] !in RowsOf(db, id)
    ensures forall i, j :: 0 <= i < j < |cands| ==> cands[i] != cands[j]
  {
    assert forall i :: 0 <= i < |cands| ==> cands[i] in cands && IsCandidate(db, id, cands[i]);
  }

  ghost predicate PrecedesAll(db: Db, a: DeviceId, ids: set<DeviceId>)
    requires ids <= db.devices.Keys
  {
    a in db.devices && forall d :: d in ids ==> Before(db, a, d)
  }

  /** The first device in the order of the candidate query. */
  method FirstInOrder(db: Db, ids: set<DeviceId>) returns (first: DeviceId)
    requires ids != {} && ids <= db.devices.Keys
    ensures first in ids && forall d :: d in ids && d != first ==> Before(db, first, d)
  {
    first := Pick(ids);
    var rest := ids - {first};
    while rest != {}
      invariant rest <= ids && first in ids
      invariant forall d :: d in ids && d != first ==> d in rest || Before(db, first, d)
      decreases |rest|
    {
      var d := Pick(rest);
      if Before(db, d, first) {
        first := d;
      }
      rest := rest - {d};
    }
  }
}
