/** The alert evaluation over mutable tables. */
module AlertingService {
  import opened Common
  import opened Alerting

  lemma {:induction false} HasRuleSnoc(rules: seq<AlertRule>, r: AlertRule, id: nat)
    ensures HasRule(rules + [r], id) <==> HasRule(rules, id) || r.id == id
  {
    var all := rules + [r];
    assert all[|rules|] == r;
    if i :| 0 <= i < |rules| && rules[i].id == id {
      assert all[i] == rules[i];
    }
  }

  /** The rows with the edited one in its place, and whether there was one. */
  method ReplaceRule(rules: seq<AlertRule>, r: AlertRule) returns (rows: seq<AlertRule>, found: bool)
    ensures rows == EditRules(rules, r) && (found <==> HasRule(rules, r.id))
  {
    rows, found := [], false;
    for i := 0 to |rules|
      invariant rows == EditRules(rules[..i], r) && (found <==> HasRule(rules[..i], r.id))
    {
      assert rules[..i + 1] == rules[..i] + [rules[i]];
      HasRuleSnoc(rules[..i], rules[i], r.id);
      if rules[i].id == r.id {
        rows, found := rows + [r], true;
      } else {
        rows := rows + [rules[i]];
      }
    }
    assert rules[..|rules|] == rules;
  }

  class Service {
    var rules: seq<AlertRule>
    var breaches: map<Slot, Time>
    var alerts: seq<Alert>
    var notes: seq<Note>

    ghost function State(): World
      reads this
    {
      World(rules, Tables(breaches, alerts, notes))
    }

    constructor (rules: seq<AlertRule>)
      ensures State() == World(rules, EMPTY)
    {
      this.rules, breaches, alerts, notes := rules, map[], [], [];
    }

    method ListEnabledAlertRules() returns (enabled: seq<AlertRule>)
      ensures enabled == Enabled(rules)
    {
      enabled := [];
      for i := 0 to |rules|
        invariant enabled == Enabled(rules[..i])
      {
        assert rules[..i + 1][..i] == rules[..i];
        if rules[i].enabled {
          enabled := enabled + [rules[i]];
        }
      }
      assert rules[..|rules|] == rules;
    }

    /** The stored onset, which is the given time unless one was stored before. */
    method MarkBreachOnset(slot: Slot, now: Time) returns (since: Time)
      modifies this`breaches
      ensures breaches == MarkBreach(old(breaches), slot, now)
      ensures slot in breaches && since == breaches[slot]
      ensures since == if slot in old(breaches) then old(breaches[slot]) else now
    {
      if slot !in breaches {
        breaches := breaches[slot := now];
      }
      since := breaches[slot];
    }

    method HasOpenAlert(slot: Slot) returns (open: bool)
      ensures open <==> OpenRows(alerts, slot) > 0
    {
      open := false;
      for i := 0 to |alerts|
        invariant !open <==> OpenRows(alerts[..i], slot) == 0
      {
        assert alerts[..i + 1][..i] == alerts[..i];
        open := open || IsOpen(alerts[i], slot);
      }
      assert alerts[..|alerts|] == alerts;
    }

    /** Inserts unless the slot has an open row. */
    method RaiseAlert(slot: Slot, metric: Metric, now: Time) returns (created: bool)
      modifies this`alerts
      ensures created <==> OpenRows(old(alerts), slot) == 0
      ensures alerts == if created then old(alerts) + [Alert(slot, metric, now, None)] else old(alerts)
    {
      var open := HasOpenAlert(slot);
      created := !open;
      if created {
        alerts := alerts + [Alert(slot, metric, now, None)];
      }
    }

    /** Closes the open rows of a slot and tells whether there was exactly one. */
    method ResolveAlert(slot: Slot, now: Time) returns (closed: bool)
      modifies this`alerts
      ensures alerts == ResolveRows(old(alerts), slot, now)
      ensures closed <==> OpenRows(old(alerts), slot) == 1
    {
      var rows, count := [], 0;
      for i := 0 to |alerts|
        invariant rows == ResolveRows(alerts[..i], slot, now) && count == OpenRows(alerts[..i], slot)
      {
        assert alerts[..i + 1][..i] == alerts[..i];
        if IsOpen(alerts[i], slot) {
          rows, count := rows + [alerts[i].(resolvedAt := Some(now))], count + 1;
        } else {
          rows := rows + [alerts[i]];
        }
      }
      assert alerts[..|alerts|] == alerts;
      alerts, closed := rows, count == 1;
    }

    method SustainedFor(slot: Slot, duration: int, now: Time) returns (sustained: bool)
      modifies this`breaches
      ensures breaches == Onsets(old(breaches), duration, slot, now)
      ensures sustained <==> Due(duration, Lookup(breaches, slot), now)
    {
      if duration <= 0 {
        return true;
      }
      var since := MarkBreachOnset(slot, now);
      sustained := now - since >= duration * SECOND;
    }

    method EvaluateOne(r: AlertRule, device: nat, sample: Sample, now: Time)
      modifies this`breaches, this`alerts, this`notes
      ensures State().tables == EvaluateRule(old(State().tables), r, device, sample, now)
    {
      var value := MetricValue(r.metric, sample);
      if value == None {
        return;
      }
      var slot := Slot(device, r.id);
      if Breaching(r.op, value.value, r.threshold) {
        var sustained := SustainedFor(slot, r.duration, now);
        if sustained {
          var created := RaiseAlert(slot, r.metric, now);
          if created {
            notes := notes + [Note(Raised, slot, now)];
          }
        }
      } else {
        breaches := breaches - {slot};
        var closed := ResolveAlert(slot, now);
        if closed {
          notes := notes + [Note(Resolved, slot, now)];
        }
      }
    }

    /** One sample of one device against every enabled rule. */
    method Evaluate(device: nat, sample: Sample, now: Time)
      modifies this`breaches, this`alerts, this`notes
      ensures State() == Step(old(State()), Sampled(device, sample, now))
    {
      var enabled := ListEnabledAlertRules();
      ghost var before := State().tables;
      for i := 0 to |enabled|
        invariant State().tables == EvaluateRules(before, enabled[..i], device, sample, now)
      {
        assert enabled[..i + 1][..i] == enabled[..i];
        EvaluateOne(enabled[i], device, sample, now);
      }
      assert enabled[..|enabled|] == enabled;
    }

    /** Replaces the rule's row and forgets its onsets; without such a row nothing changes. */
    method UpdateAlertRule(r: AlertRule) returns (found: bool)
      modifies this`rules, this`breaches
      ensures State() == Step(old(State()), Edited(r))
      ensures found <==> HasRule(old(rules), r.id)
      ensures forall i :: 0 <= i < |rules| && rules[i].id == r.id ==> rules[i] == r
      ensures found ==> forall s :: s in breaches ==> s.rule != r.id
      ensures forall s: Slot :: s.rule != r.id ==> (s in breaches <==> s in old(breaches))
    {
      var rows;
      rows, found := ReplaceRule(rules, r);
      if found {
        rules := rows;
        ForgetOnsets(r.id);
      }
    }

    /** Deletes the onsets of a rule, one device after the other. */
    method ForgetOnsets(rule: nat)
      modifies this`breaches
      ensures breaches == map s | s in old(breaches) && s.rule != rule :: old(breaches)[s]
    {
      var todo := breaches.Keys;
      while todo != {}
        invariant todo <= old(breaches).Keys
        invariant forall s :: s in breaches <==> s in old(breaches) && (s in todo || s.rule != rule)
        invariant forall s :: s in breaches ==> breaches[s] == old(breaches)[s]
        decreases |todo|
      {
        var s := Pick(todo);
        if s.rule == rule {
          breaches := breaches - {s};
        }
        todo := todo - {s};
      }
    }
  }
}
