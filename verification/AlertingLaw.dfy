/** When an alert is open, in terms of the samples a device sent and the rule's threshold. */
module AlertingLaw {
  import opened Common
  import opened Alerting
  import opened AlertingTrace

  datatype Reading = Reading(sample: Sample, at: Time)

  /** The samples of one device, in the order in which they came in. */
  ghost function Readings(run: seq<Event>, device: nat): seq<Reading> {
    if run == [] then []
    else
      var e := run[|run| - 1];
      Readings(run[..|run| - 1], device) +
      if e.Sampled? && e.device == device then [Reading(e.sample, e.now)] else []
  }

  /** The sample is on the wrong side of the rule's threshold. */
  ghost predicate Over(r: AlertRule, s: Sample) {
    || (r.metric == Cpu && r.op == GreaterThan && s.cpu > r.threshold)
    || (r.metric == Cpu && r.op == LessThan && s.cpu < r.threshold)
    || (r.metric == Mem && r.op == GreaterThan && s.mem > r.threshold)
    || (r.metric == Mem && r.op == LessThan && s.mem < r.threshold)
    || (r.metric == Disk && r.op == GreaterThan && s.disk > r.threshold)
    || (r.metric == Disk && r.op == LessThan && s.disk < r.threshold)
  }

  /** The readings from `i` on are over the threshold and span the rule's duration, which
      counts seconds. */
  ghost predicate OverSince(r: AlertRule, readings: seq<Reading>, i: int) {
    && 0 <= i < |readings| && (forall m :: i <= m < |readings| ==> Over(r, readings[m].sample))
    && readings[|readings| - 1].at - readings[i].at >= r.duration * 1_000_000_000
  }

  /** The latest readings, from some point on, do so. */
  ghost predicate OverLately(r: AlertRule, readings: seq<Reading>) {
    exists i :: OverSince(r, readings, i)
  }

  /** The rule looks at a metric that samples carry. */
  ghost predicate Watches(r: AlertRule) {
    r.enabled && (r.metric == Cpu || r.metric == Mem || r.metric == Disk)
  }

  ghost function ItemsOf(r: AlertRule, readings: seq<Reading>): seq<Item> {
    seq(|readings|, i requires 0 <= i < |readings| =>
      if Over(r, readings[i].sample) then Breach(readings[i].at, r.duration) else Clear)
  }

  lemma {:induction false} ItemIs(r: AlertRule, sample: Sample, now: Time)
    ensures RuleItem(r, sample, now) == if Watches(r) then ItemsOf(r, [Reading(sample, now)]) else []
  {
  }

  lemma {:induction false} NoItem(rules: seq<AlertRule>, id: nat, sample: Sample, now: Time)
    requires !HasRule(rules, id)
    ensures RuleItems(rules, id, sample, now) == []
  {
    if rules != [] {
      var n := |rules| - 1;
      assert rules[n].id != id;
      assert !HasRule(rules[..n], id);
      NoItem(rules[..n], id, sample, now);
    }
  }

  lemma {:induction false} OnlyItem(rules: seq<AlertRule>, k: nat, sample: Sample, now: Time)
    requires UniqueIds(rules) && k < |rules|
    ensures RuleItems(rules, rules[k].id, sample, now) == RuleItem(rules[k], sample, now)
  {
    var n := |rules| - 1;
    if k == n {
      assert !HasRule(rules[..n], rules[k].id);
      NoItem(rules[..n], rules[k].id, sample, now);
    } else {
      OnlyItem(rules[..n], k, sample, now);
    }
  }

  /** Edits of other rules leave a rule where it stands. */
  lemma {:induction false} RuleStays(w: World, run: seq<Event>, k: nat)
    requires UniqueIds(w.rules) && k < |w.rules| && Unedited(run, w.rules[k].id)
    ensures var rules := Final(w, run).rules; UniqueIds(rules) && k < |rules| && rules[k] == w.rules[k]
  {
    if run != [] {
      var n := |run| - 1;
      RuleStays(w, run[..n], k);
      if run[n].Edited? {
        EditKeepsIds(Final(w, run[..n]).rules, run[n].rule);
      }
    }
  }

  lemma {:induction false} ItemsAppend(r: AlertRule, readings: seq<Reading>, x: Reading)
    ensures ItemsOf(r, readings + [x]) == ItemsOf(r, readings) + ItemsOf(r, [x])
  {
  }

  /** The history of an unedited rule lists the readings of the device one by one. */
  lemma {:induction false} HistoryIs(w: World, run: seq<Event>, k: nat, device: nat)
    requires UniqueIds(w.rules) && k < |w.rules| && Unedited(run, w.rules[k].id)
    ensures var r := w.rules[k];
      History(w, run, Slot(device, r.id)) == if Watches(r) then ItemsOf(r, Readings(run, device)) else []
  {
    var r := w.rules[k];
    if run != [] {
      var n := |run| - 1;
      var front, e := run[..n], run[n];
      HistoryIs(w, front, k, device);
      RuleStays(w, front, k);
      if e.Sampled? && e.device == device {
        OnlyItem(Final(w, front).rules, k, e.sample, e.now);
        ItemIs(r, e.sample, e.now);
        ItemsAppend(r, Readings(front, device), Reading(e.sample, e.now));
      }
    }
  }

  /** A trailing stretch of breaches is made of readings over the threshold. */
  lemma {:induction false} StretchIsOver(r: AlertRule, readings: seq<Reading>, h: seq<Item>, i: int)
    requires h == ItemsOf(r, readings) && Stretch(h, i, |h| - 1)
    requires h[|h| - 1].at - h[i].at >= h[|h| - 1].duration * SECOND
    ensures OverSince(r, readings, i)
  {
    assert h[|h| - 1].Breach? && h[i].Breach?;
    forall m | i <= m < |readings|
      ensures Over(r, readings[m].sample)
    {
      assert h[m].Breach?;
    }
  }

  lemma {:induction false} OverIsBreach(r: AlertRule, readings: seq<Reading>, h: seq<Item>, i: int)
    requires h == ItemsOf(r, readings) && OverSince(r, readings, i)
    ensures forall m :: i <= m < |h| ==> h[m] == Breach(readings[m].at, r.duration)
  {
  }

  /** Breaches at the end make up the end of a trailing stretch that is at least as long. */
  lemma {:induction false} BreachesAreStretch(h: seq<Item>, i: nat)
    requires Ordered(h) && i < |h| && forall m :: i <= m < |h| ==> h[m].Breach?
    requires h[|h| - 1].at - h[i].at >= h[|h| - 1].duration * SECOND
    ensures TrailingBreach(h)
  {
    var j := StretchStart(h, i);
    assert Stretch(h, j, |h| - 1);
    assert j == i || h[j].at <= h[i].at;
  }

  lemma {:induction false} TrailingIsLately(r: AlertRule, readings: seq<Reading>)
    requires Ordered(ItemsOf(r, readings))
    ensures TrailingBreach(ItemsOf(r, readings)) <==> OverLately(r, readings)
  {
    var h := ItemsOf(r, readings);
    if TrailingBreach(h) {
      var i :| Stretch(h, i, |h| - 1) && h[|h| - 1].at - h[i].at >= h[|h| - 1].duration * SECOND;
      StretchIsOver(r, readings, h, i);
    }
    if OverLately(r, readings) {
      var i :| OverSince(r, readings, i);
      OverIsBreach(r, readings, h, i);
      BreachesAreStretch(h, i);
    }
  }

  lemma {:induction false} OpenRowsExist(alerts: seq<Alert>, slot: Slot)
    ensures OpenRows(alerts, slot) > 0 <==> exists k :: 0 <= k < |alerts| && alerts[k].slot == slot && alerts[k].resolvedAt == None
  {
    if alerts != [] {
      var n := |alerts| - 1;
      OpenRowsExist(alerts[..n], slot);
      assert IsOpen(alerts[n], slot) <==> alerts[n].slot == slot && alerts[n].resolvedAt == None;
      if k :| 0 <= k < |alerts| && alerts[k].slot == slot && alerts[k].resolvedAt == None {
        assert k == n || alerts[..n][k] == alerts[k];
      }
    }
  }

  /** For every run of samples of any devices and edits of other rules: an unedited rule has an
      open alert for a device if and only if it is enabled and the device's latest samples are
      over (or, for the other comparison, under) the threshold in the rule's metric and span its
      duration. A rule with an unknown metric or comparison never has one. */
  lemma {:induction false} OpenIff(rules: seq<AlertRule>, run: seq<Event>, k: nat, device: nat)
    requires UniqueIds(rules) && k < |rules| && Unedited(run, rules[k].id) && InOrder(run, device)
    ensures var alerts, slot := Final(World(rules, EMPTY), run).tables.alerts, Slot(device, rules[k].id);
      (exists i :: 0 <= i < |alerts| && alerts[i].slot == slot && alerts[i].resolvedAt == None) <==>
        rules[k].enabled && OverLately(rules[k], Readings(run, device))
  {
    var w, r := World(rules, EMPTY), rules[k];
    var slot, readings := Slot(device, r.id), Readings(run, device);
    AlertTrace(rules, run, slot);
    UneditedTrace(rules, run, slot);
    OpenRowsExist(Final(w, run).tables.alerts, slot);
    HistoryIs(w, run, k, device);
    UneditedHistory(w, run, slot);
    if Watches(r) {
      TrailingIsLately(r, readings);
    } else if r.enabled {
      NeverOver(r, readings);
    }
  }

  lemma {:induction false} NeverOver(r: AlertRule, readings: seq<Reading>)
    requires r.metric.OtherMetric?
    ensures !OverLately(r, readings)
  {
    forall i | 0 <= i < |readings|
      ensures !Over(r, readings[i].sample)
    {
    }
  }
}
