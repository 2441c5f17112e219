/** Threshold alerts: the breach and alert tables, one evaluation, and runs of samples and edits. */
module Alerting {
  import opened Common

  const SECOND := 1_000_000_000

  datatype Metric = Cpu | Mem | Disk | OtherMetric(name: string)

  datatype Op = GreaterThan | LessThan | OtherOp(name: string)

  datatype AlertRule = AlertRule(id: nat, name: string, metric: Metric, op: Op, threshold: real, duration: int, enabled: bool)

  datatype Sample = Sample(cpu: real, mem: real, disk: real)

  /** What breach onsets and open alerts are unique by. */
  datatype Slot = Slot(device: nat, rule: nat)

  datatype Alert = Alert(slot: Slot, metric: Metric, at: Time, resolvedAt: Option<Time>)

  datatype NoteKind = Raised | Resolved

  datatype Note = Note(kind: NoteKind, slot: Slot, at: Time)

  datatype Tables = Tables(breaches: map<Slot, Time>, alerts: seq<Alert>, notes: seq<Note>)

  function MetricValue(m: Metric, s: Sample): Option<real> {
    match m
    case Cpu => Some(s.cpu)
    case Mem => Some(s.mem)
    case Disk => Some(s.disk)
    case OtherMetric(_) => None
  }

  predicate Breaching(op: Op, value: real, threshold: real) {
    match op
    case GreaterThan => value > threshold
    case LessThan => value < threshold
    case OtherOp(_) => false
  }

  predicate IsOpen(a: Alert, slot: Slot) {
    a.slot == slot && a.resolvedAt == None
  }

  /** The number of unresolved rows of a slot. */
  function OpenRows(alerts: seq<Alert>, slot: Slot): nat {
    if alerts == [] then 0
    else OpenRows(alerts[..|alerts| - 1], slot) + if IsOpen(alerts[|alerts| - 1], slot) then 1 else 0
  }

  // ---- Single statements -----------------------------------------------------------------------

  function MarkBreach(breaches: map<Slot, Time>, slot: Slot, now: Time): map<Slot, Time> {
    if slot in breaches then breaches else breaches[slot := now]
  }

  function ResolveRow(a: Alert, slot: Slot, now: Time): Alert {
    if IsOpen(a, slot) then a.(resolvedAt := Some(now)) else a
  }

  function ResolveRows(alerts: seq<Alert>, slot: Slot, now: Time): seq<Alert> {
    seq(|alerts|, i requires 0 <= i < |alerts| => ResolveRow(alerts[i], slot, now))
  }

  /** The onsets after a breaching sample; a rule without duration keeps none. */
  function Onsets(breaches: map<Slot, Time>, duration: int, slot: Slot, now: Time): map<Slot, Time> {
    if duration <= 0 then breaches else MarkBreach(breaches, slot, now)
  }

  predicate Due(duration: int, since: Option<Time>, now: Time) {
    duration <= 0 || (since.Some? && now - since.value >= duration * SECOND)
  }

  function Lookup(breaches: map<Slot, Time>, slot: Slot): Option<Time> {
    if slot in breaches then Some(breaches[slot]) else None
  }

  function Raise(t: Tables, r: AlertRule, slot: Slot, now: Time): Tables {
    if OpenRows(t.alerts, slot) == 0
    then Tables(t.breaches, t.alerts + [Alert(slot, r.metric, now, None)], t.notes + [Note(Raised, slot, now)])
    else t
  }

  function Breached(t: Tables, r: AlertRule, slot: Slot, now: Time): Tables {
    var marked := t.(breaches := Onsets(t.breaches, r.duration, slot, now));
    if Due(r.duration, Lookup(marked.breaches, slot), now) then Raise(marked, r, slot, now) else marked
  }

  function Cleared(t: Tables, slot: Slot, now: Time): Tables {
    Tables(t.breaches - {slot}, ResolveRows(t.alerts, slot, now),
           if OpenRows(t.alerts, slot) == 1 then t.notes + [Note(Resolved, slot, now)] else t.notes)
  }

  // ---- One evaluation ------------------------------------------------------------------------------

  function EvaluateRule(t: Tables, r: AlertRule, device: nat, sample: Sample, now: Time): Tables {
    var value := MetricValue(r.metric, sample);
    if value.None? then t
    else if Breaching(r.op, value.value, r.threshold) then Breached(t, r, Slot(device, r.id), now)
    else Cleared(t, Slot(device, r.id), now)
  }

  function EvaluateRules(t: Tables, rules: seq<AlertRule>, device: nat, sample: Sample, now: Time): Tables {
    if rules == [] then t
    else EvaluateRule(EvaluateRules(t, rules[..|rules| - 1], device, sample, now), rules[|rules| - 1], device, sample, now)
  }

  function Enabled(rules: seq<AlertRule>): seq<AlertRule> {
    if rules == [] then []
    else Enabled(rules[..|rules| - 1]) + if rules[|rules| - 1].enabled then [rules[|rules| - 1]] else []
  }

  // ---- Runs -------------------------------------------------------------------------------------------

  datatype World = World(rules: seq<AlertRule>, tables: Tables)

  datatype Event = Sampled(device: nat, sample: Sample, now: Time) | Edited(rule: AlertRule)

  /** Rule ids are a primary key. */
  ghost predicate UniqueIds(rules: seq<AlertRule>) {
    forall i, j :: 0 <= i < j < |rules| ==> rules[i].id != rules[j].id
  }

  function ReplaceRow(r: AlertRule, edited: AlertRule): AlertRule {
    if r.id == edited.id then edited else r
  }

  function EditRules(rules: seq<AlertRule>, edited: AlertRule): seq<AlertRule> {
    seq(|rules|, i requires 0 <= i < |rules| => ReplaceRow(rules[i], edited))
  }

  predicate HasRule(rules: seq<AlertRule>, id: nat) {
    exists i :: 0 <= i < |rules| && rules[i].id == id
  }

  /** Editing a rule forgets its breach onsets and leaves its alerts. */
  function Step(w: World, e: Event): World {
    match e
    case Sampled(device, sample, now) => World(w.rules, EvaluateRules(w.tables, Enabled(w.rules), device, sample, now))
    case Edited(rule) =>
      if HasRule(w.rules, rule.id)
      then World(EditRules(w.rules, rule),
                 w.tables.(breaches := map s | s in w.tables.breaches && s.rule != rule.id :: w.tables.breaches[s]))
      else w
  }

  function Final(w: World, run: seq<Event>): World {
    if run == [] then w else Step(Final(w, run[..|run| - 1]), run[|run| - 1])
  }

  const EMPTY := Tables(map[], [], [])

  // ---- What a run shows one device and rule -----------------------------------------------------------

  /** A breaching sample with the duration then required, a sample within bounds, or an edit. */
  datatype Item = Breach(at: Time, duration: int) | Clear | Edit

  function RuleItem(r: AlertRule, sample: Sample, now: Time): seq<Item> {
    var value := MetricValue(r.metric, sample);
    if !r.enabled || value.None? then []
    else if Breaching(r.op, value.value, r.threshold) then [Breach(now, r.duration)]
    else [Clear]
  }

  function RuleItems(rules: seq<AlertRule>, id: nat, sample: Sample, now: Time): seq<Item> {
    if rules == [] then []
    else RuleItems(rules[..|rules| - 1], id, sample, now) +
         (if rules[|rules| - 1].id == id then RuleItem(rules[|rules| - 1], sample, now) else [])
  }

  function EventItems(rules: seq<AlertRule>, e: Event, slot: Slot): seq<Item> {
    match e
    case Sampled(device, sample, now) => if device == slot.device then RuleItems(rules, slot.rule, sample, now) else []
    case Edited(rule) => if rule.id == slot.rule && HasRule(rules, rule.id) then [Edit] else []
  }

  function History(w: World, run: seq<Event>, slot: Slot): seq<Item> {
    if run == [] then []
    else
      var front := run[..|run| - 1];
      History(w, front, slot) + EventItems(Final(w, front).rules, run[|run| - 1], slot)
  }

  // ---- The slot's own state machine -----------------------------------------------------------------------

  datatype View = View(since: Option<Time>, open: nat, notes: seq<NoteKind>)

  function NotesOf(notes: seq<Note>, slot: Slot): seq<NoteKind> {
    if notes == [] then []
    else NotesOf(notes[..|notes| - 1], slot) + if notes[|notes| - 1].slot == slot then [notes[|notes| - 1].kind] else []
  }

  function ViewOf(t: Tables, slot: Slot): View {
    View(Lookup(t.breaches, slot), OpenRows(t.alerts, slot), NotesOf(t.notes, slot))
  }

  function Advance(v: View, item: Item): View {
    match item
    case Breach(at, duration) =>
      var since := if duration <= 0 then v.since else if v.since.Some? then v.since else Some(at);
      if Due(duration, since, at) && v.open == 0
      then View(since, 1, v.notes + [Raised])
      else View(since, v.open, v.notes)
    case Clear => View(None, 0, if v.open == 1 then v.notes + [Resolved] else v.notes)
    case Edit => v.(since := None)
  }

  function AdvanceAll(v: View, items: seq<Item>): View {
    if items == [] then v else Advance(AdvanceAll(v, items[..|items| - 1]), items[|items| - 1])
  }

  // ---- The tables seen from one slot -----------------------------------------------------------------------

  lemma {:induction false} OpenRowsAppend(alerts: seq<Alert>, a: Alert, slot: Slot)
    ensures OpenRows(alerts + [a], slot) == OpenRows(alerts, slot) + if IsOpen(a, slot) then 1 else 0
  {
    assert (alerts + [a])[..|alerts|] == alerts;
  }

  lemma {:induction false} OpenRowsResolved(alerts: seq<Alert>, slot: Slot, now: Time, other: Slot)
    ensures OpenRows(ResolveRows(alerts, slot, now), other) == if other == slot then 0 else OpenRows(alerts, other)
  {
    if alerts != [] {
      var n := |alerts| - 1;
      var resolved := ResolveRows(alerts, slot, now);
      assert resolved[..n] == ResolveRows(alerts[..n], slot, now);
      OpenRowsResolved(alerts[..n], slot, now, other);
    }
  }

  lemma {:induction false} NotesAppend(notes: seq<Note>, x: Note, slot: Slot)
    ensures NotesOf(notes + [x], slot) == NotesOf(notes, slot) + if x.slot == slot then [x.kind] else []
  {
    assert (notes + [x])[..|notes|] == notes;
  }

  lemma {:induction false} RaiseView(t: Tables, r: AlertRule, own: Slot, now: Time, slot: Slot)
    ensures var v := ViewOf(t, slot);
      ViewOf(Raise(t, r, own, now), slot) == if slot == own && v.open == 0 then View(v.since, 1, v.notes + [Raised]) else v
  {
    OpenRowsAppend(t.alerts, Alert(own, r.metric, now, None), slot);
    NotesAppend(t.notes, Note(Raised, own, now), slot);
  }

  lemma {:induction false} BreachedView(t: Tables, r: AlertRule, own: Slot, now: Time, slot: Slot)
    ensures ViewOf(Breached(t, r, own, now), slot) ==
            if slot == own then Advance(ViewOf(t, slot), Breach(now, r.duration)) else ViewOf(t, slot)
  {
    RaiseView(t.(breaches := Onsets(t.breaches, r.duration, own, now)), r, own, now, slot);
  }

  lemma {:induction false} ClearedView(t: Tables, own: Slot, now: Time, slot: Slot)
    ensures ViewOf(Cleared(t, own, now), slot) == if slot == own then Advance(ViewOf(t, slot), Clear) else ViewOf(t, slot)
  {
    OpenRowsResolved(t.alerts, own, now, slot);
    NotesAppend(t.notes, Note(Resolved, own, now), slot);
  }

  /** Evaluating one rule moves its own slot by what the rule sees and no other slot. */
  lemma {:induction false} EvaluateRuleView(t: Tables, r: AlertRule, device: nat, sample: Sample, now: Time, slot: Slot)
    requires r.enabled
    ensures ViewOf(EvaluateRule(t, r, device, sample, now), slot) ==
            if slot == Slot(device, r.id) then AdvanceAll(ViewOf(t, slot), RuleItem(r, sample, now)) else ViewOf(t, slot)
  {
    var value := MetricValue(r.metric, sample);
    if value.Some? && Breaching(r.op, value.value, r.threshold) {
      BreachedView(t, r, Slot(device, r.id), now, slot);
    } else {
      ClearedView(t, Slot(device, r.id), now, slot);
    }
    AdvanceOne(ViewOf(t, slot), RuleItem(r, sample, now));
  }

  lemma {:induction false} AdvanceOne(v: View, items: seq<Item>)
    requires |items| <= 1
    ensures AdvanceAll(v, items) == if items == [] then v else Advance(v, items[0])
  {
    if items != [] {
      assert items[..0] == [];
    }
  }

  lemma {:induction false} AdvanceConcat(v: View, a: seq<Item>, b: seq<Item>)
    ensures AdvanceAll(v, a + b) == AdvanceAll(AdvanceAll(v, a), b)
    decreases |b|
  {
    if b == [] {
      assert a + b == a;
    } else {
      var n := |b| - 1;
      assert (a + b)[..|a| + n] == a + b[..n];
      AdvanceConcat(v, a, b[..n]);
    }
  }

  lemma {:induction false} EvaluateView(t: Tables, rules: seq<AlertRule>, device: nat, sample: Sample, now: Time, slot: Slot)
    ensures ViewOf(EvaluateRules(t, Enabled(rules), device, sample, now), slot) ==
            AdvanceAll(ViewOf(t, slot), if device == slot.device then RuleItems(rules, slot.rule, sample, now) else [])
  {
    if rules != [] {
      var n := |rules| - 1;
      var front, r := rules[..n], rules[n];
      EvaluateView(t, front, device, sample, now, slot);
      if r.enabled {
        assert Enabled(rules)[..|Enabled(front)|] == Enabled(front);
        EvaluateRuleView(EvaluateRules(t, Enabled(front), device, sample, now), r, device, sample, now, slot);
      } else {
        assert Enabled(rules) == Enabled(front);
      }
      if device == slot.device {
        AdvanceConcat(ViewOf(t, slot), RuleItems(front, slot.rule, sample, now),
                      if r.id == slot.rule then RuleItem(r, sample, now) else []);
      }
    }
  }

  lemma {:induction false} StepView(w: World, e: Event, slot: Slot)
    ensures ViewOf(Step(w, e).tables, slot) == AdvanceAll(ViewOf(w.tables, slot), EventItems(w.rules, e, slot))
  {
    if e.Sampled? {
      EvaluateView(w.tables, w.rules, e.device, e.sample, e.now, slot);
    } else {
      AdvanceOne(ViewOf(w.tables, slot), EventItems(w.rules, e, slot));
    }
  }

  /** What the tables hold for a slot after a run is what its own history makes of it. */
  lemma {:induction false} RunView(w: World, run: seq<Event>, slot: Slot)
    ensures ViewOf(Final(w, run).tables, slot) == AdvanceAll(ViewOf(w.tables, slot), History(w, run, slot))
  {
    if run != [] {
      var n := |run| - 1;
      RunView(w, run[..n], slot);
      StepView(Final(w, run[..n]), run[n], slot);
      AdvanceConcat(ViewOf(w.tables, slot), History(w, run[..n], slot), EventItems(Final(w, run[..n]).rules, run[n], slot));
    }
  }
}
