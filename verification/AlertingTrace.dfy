/** When an alert is open, read off the samples and edits alone. */
module AlertingTrace {
  import opened Common
  import opened Alerting

  // ---- The specification over a slot's history -------------------------------------------------

  /** The breaching samples from `i` to `k`, where `i` starts a stretch of them. */
  ghost predicate Stretch(h: seq<Item>, i: int, k: int) {
    0 <= i <= k < |h| && (forall m :: i <= m <= k ==> h[m].Breach?) && (i > 0 ==> !h[i - 1].Breach?)
  }

  /** At sample `k` the stretch it belongs to has lasted as long as the rule demands. */
  ghost predicate Sustained(h: seq<Item>, k: int) {
    && 0 <= k < |h| && h[k].Breach?
    && (h[k].duration <= 0 || exists i :: Stretch(h, i, k) && h[k].at - h[i].at >= h[k].duration * SECOND)
  }

  ghost predicate NoClearAfter(h: seq<Item>, k: int) {
    forall m :: 0 <= m < |h| && k < m ==> h[m] != Clear
  }

  /** A breach was sustained and no sample has been within bounds since. */
  ghost predicate ShouldBeOpen(h: seq<Item>) {
    exists k :: Sustained(h, k) && NoClearAfter(h, k)
  }

  /** The trailing stretch of breaching samples exists and spans the duration. */
  ghost predicate TrailingBreach(h: seq<Item>) {
    exists i :: Stretch(h, i, |h| - 1) && h[|h| - 1].at - h[i].at >= h[|h| - 1].duration * SECOND
  }

  /** The duration changes only with an edit. */
  ghost predicate Steady(h: seq<Item>) {
    forall i :: 0 < i < |h| && h[i - 1].Breach? && h[i].Breach? ==> h[i - 1].duration == h[i].duration
  }

  ghost predicate Alternating(notes: seq<NoteKind>) {
    forall i :: 0 <= i < |notes| ==> notes[i] == if i % 2 == 0 then Raised else Resolved
  }

  const FRESH := View(None, 0, [])

  // ---- The state machine meets it ------------------------------------------------------------------

  lemma {:induction false} StretchPrefix(h: seq<Item>, n: nat, i: int, k: int)
    requires n <= |h| && k < n
    ensures Stretch(h[..n], i, k) <==> Stretch(h, i, k)
  {
    if 0 <= i <= k {
      assert forall m :: i <= m <= k ==> h[..n][m] == h[m];
      if i > 0 {
        assert h[..n][i - 1] == h[i - 1];
      }
    }
  }

  lemma {:induction false} SustainedPrefix(h: seq<Item>, n: nat, k: int)
    requires n <= |h| && k < n
    ensures Sustained(h[..n], k) <==> Sustained(h, k)
  {
    if 0 <= k {
      assert h[..n][k] == h[k];
      forall i
        ensures Stretch(h[..n], i, k) <==> Stretch(h, i, k)
        ensures Stretch(h, i, k) ==> h[..n][i] == h[i]
      {
        StretchPrefix(h, n, i, k);
      }
    }
  }

  /** A stretch that reaches the last item is the one the previous item belonged to. */
  lemma {:induction false} StretchGrows(h: seq<Item>, i: int)
    requires |h| > 0 && h[|h| - 1].Breach?
    ensures Stretch(h, i, |h| - 1) <==>
            if |h| > 1 && h[|h| - 2].Breach? then Stretch(h[..|h| - 1], i, |h| - 2) else i == |h| - 1
  {
    var n := |h| - 1;
    if n > 0 && h[n - 1].Breach? {
      StretchPrefix(h, n, i, n - 1);
    }
  }

  /** The recorded onset is the start of the stretch. */
  ghost predicate OnsetIs(h: seq<Item>, since: Option<Time>) {
    if h != [] && h[|h| - 1].Breach? && h[|h| - 1].duration > 0
    then since.Some? && exists i :: Stretch(h, i, |h| - 1) && h[i].at == since.value
    else since == None
  }

  lemma {:induction false} StretchUnique(h: seq<Item>, i: int, j: int, k: int)
    requires Stretch(h, i, k) && Stretch(h, j, k)
    ensures i == j
  {
  }

  lemma {:induction false} OnsetGrows(h: seq<Item>, since: Option<Time>)
    requires |h| > 1 && Steady(h) && OnsetIs(h[..|h| - 1], since)
    requires h[|h| - 1].Breach? && h[|h| - 2].Breach? && h[|h| - 1].duration > 0
    ensures OnsetIs(h, since) && since.Some?
  {
    var n := |h| - 1;
    var front := h[..n];
    assert front[|front| - 1] == h[n - 1];
    assert h[n - 1].duration == h[n].duration;
    var i :| Stretch(front, i, n - 1) && front[i].at == since.value;
    StretchGrows(h, i);
    assert h[i].at == since.value;
  }

  lemma {:induction false} OnsetStarts(h: seq<Item>)
    requires |h| > 0 && (|h| > 1 ==> !h[|h| - 2].Breach?)
    requires h[|h| - 1].Breach? && h[|h| - 1].duration > 0
    ensures OnsetIs(h, Some(h[|h| - 1].at))
  {
    StretchGrows(h, |h| - 1);
  }

  lemma {:induction false} OnsetStep(h: seq<Item>, v: View)
    requires |h| > 0 && Steady(h) && OnsetIs(h[..|h| - 1], v.since)
    ensures OnsetIs(h, Advance(v, h[|h| - 1]).since)
  {
    var n := |h| - 1;
    if h[n].Breach? && h[n].duration > 0 {
      if n > 0 && h[n - 1].Breach? {
        OnsetGrows(h, v.since);
      } else {
        assert v.since == None;
        OnsetStarts(h);
      }
    } else if h[n].Breach? && n > 0 && h[n - 1].Breach? {
      assert h[n - 1].duration == h[n].duration;
    }
  }

  /** The alert becomes due at the last item exactly when that item is sustained. */
  lemma {:induction false} DueIsSustained(h: seq<Item>, v: View)
    requires |h| > 0 && h[|h| - 1].Breach? && OnsetIs(h, v.since)
    ensures Due(h[|h| - 1].duration, v.since, h[|h| - 1].at) <==> Sustained(h, |h| - 1)
  {
    var n := |h| - 1;
    if h[n].duration > 0 {
      var i :| Stretch(h, i, n) && h[i].at == v.since.value;
      if j :| Stretch(h, j, n) && h[n].at - h[j].at >= h[n].duration * SECOND {
        StretchUnique(h, i, j, n);
      }
    }
  }

  lemma {:induction false} ShouldBeOpenStep(h: seq<Item>)
    requires |h| > 0
    ensures ShouldBeOpen(h) <==> Sustained(h, |h| - 1) || (h[|h| - 1] != Clear && ShouldBeOpen(h[..|h| - 1]))
  {
    var n := |h| - 1;
    var front := h[..n];
    if k :| Sustained(h, k) && NoClearAfter(h, k) {
      if k < n {
        SustainedPrefix(h, n, k);
        assert h[n] != Clear;
        assert NoClearAfter(front, k);
      }
    }
    if Sustained(h, n) {
      assert NoClearAfter(h, n);
    }
    if h[n] != Clear {
      if k :| Sustained(front, k) && NoClearAfter(front, k) {
        SustainedPrefix(h, n, k);
        forall m | 0 <= m < |h| && k < m
          ensures h[m] != Clear
        {
          if m < n {
            assert front[m] != Clear;
          }
        }
      }
    }
  }

  lemma {:induction false} HistoryMeaning(h: seq<Item>)
    requires Steady(h)
    ensures var v := AdvanceAll(FRESH, h);
      && OnsetIs(h, v.since)
      && v.open <= 1 && (v.open == 1 <==> ShouldBeOpen(h))
      && Alternating(v.notes) && |v.notes| % 2 == v.open
  {
    if h != [] {
      var n := |h| - 1;
      var front, x := h[..n], h[n];
      SteadyPrefix(h, n);
      HistoryMeaning(front);
      var v := AdvanceAll(FRESH, front);
      OnsetStep(h, v);
      ShouldBeOpenStep(h);
      if x.Breach? {
        DueIsSustained(h, Advance(v, x));
      }
    }
  }

  lemma {:induction false} SteadyPrefix(h: seq<Item>, n: nat)
    requires Steady(h) && n <= |h|
    ensures Steady(h[..n])
  {
    forall i | 0 < i < n && h[..n][i - 1].Breach? && h[..n][i].Breach?
      ensures h[..n][i - 1].duration == h[..n][i].duration
    {
      assert h[i - 1].Breach? && h[i].Breach?;
    }
  }

  lemma {:induction false} OpenIsTrailing(h: seq<Item>, k: nat)
    requires Steady(h) && Ordered(h) && NoEdit(h) && Sustained(h, k) && NoClearAfter(h, k)
    ensures TrailingBreach(h)
  {
    var n := |h| - 1;
    var i := StretchStart(h, k);
    forall m | i <= m <= n
      ensures h[m].Breach?
    {
      assert m <= k || h[m] != Clear;
    }
    assert Stretch(h, i, n);
    SameDuration(h, k, n);
    if h[k].duration > 0 {
      var j :| Stretch(h, j, k) && h[k].at - h[j].at >= h[k].duration * SECOND;
      StretchUnique(h, i, j, k);
    }
    assert h[i].at <= h[k].at <= h[n].at;
  }

  /** Without edits and with ordered times only the trailing stretch matters. */
  lemma {:induction false} TrailingIsEnough(h: seq<Item>)
    requires Steady(h) && Ordered(h) && NoEdit(h)
    ensures ShouldBeOpen(h) <==> TrailingBreach(h)
  {
    var n := |h| - 1;
    if k :| Sustained(h, k) && NoClearAfter(h, k) {
      OpenIsTrailing(h, k);
    }
    if i :| Stretch(h, i, n) && h[n].at - h[i].at >= h[n].duration * SECOND {
      assert Sustained(h, n) && NoClearAfter(h, n);
    }
  }

  lemma {:induction false} StretchStart(h: seq<Item>, k: nat) returns (i: int)
    requires k < |h| && h[k].Breach?
    ensures Stretch(h, i, k)
  {
    if k == 0 || !h[k - 1].Breach? {
      i := k;
    } else {
      i := StretchStart(h, k - 1);
    }
  }

  lemma {:induction false} SameDuration(h: seq<Item>, k: nat, n: nat)
    requires Steady(h) && k <= n < |h| && forall m :: k <= m <= n ==> h[m].Breach?
    ensures h[k].duration == h[n].duration
    decreases n - k
  {
    if k < n {
      assert h[k + 1 - 1].Breach? && h[k + 1].Breach?;
      SameDuration(h, k + 1, n);
    }
  }

  // ---- Histories of runs -------------------------------------------------------------------------------

  /** What one sample contributes under unique rule ids: at most one item, by the rule itself. */
  lemma {:induction false} OneItem(rules: seq<AlertRule>, id: nat, sample: Sample, now: Time)
    requires UniqueIds(rules)
    ensures var items := RuleItems(rules, id, sample, now);
      && |items| <= 1
      && (items != [] ==> items[0] != Edit && HasRule(rules, id))
      && (items != [] && items[0].Breach? ==> items[0].at == now && exists i :: 0 <= i < |rules| && rules[i].id == id && rules[i].duration == items[0].duration)
  {
    if rules != [] {
      var n := |rules| - 1;
      OneItem(rules[..n], id, sample, now);
      if rules[n].id == id {
        assert !HasRule(rules[..n], id);
      }
    }
  }

  lemma {:induction false} EditKeepsIds(rules: seq<AlertRule>, edited: AlertRule)
    requires UniqueIds(rules)
    ensures UniqueIds(EditRules(rules, edited))
  {
    var to := EditRules(rules, edited);
    forall i, j | 0 <= i < j < |to|
      ensures to[i].id != to[j].id
    {
      assert rules[i].id != rules[j].id;
    }
  }

  /** A trailing breach carries the duration the rule has now. */
  ghost predicate Current(rules: seq<AlertRule>, h: seq<Item>, slot: Slot) {
    h != [] && h[|h| - 1].Breach? ==>
      forall i :: 0 <= i < |rules| && rules[i].id == slot.rule ==> rules[i].duration == h[|h| - 1].duration
  }

  lemma {:induction false} SteadyAppend(h: seq<Item>, x: Item)
    requires Steady(h) && (h != [] && h[|h| - 1].Breach? && x.Breach? ==> h[|h| - 1].duration == x.duration)
    ensures Steady(h + [x])
  {
  }

  lemma {:induction false} HistoryStep(rules: seq<AlertRule>, tables: Tables, h: seq<Item>, e: Event, slot: Slot)
    requires UniqueIds(rules) && Steady(h) && Current(rules, h, slot)
    ensures var to := h + EventItems(rules, e, slot);
      var after := Step(World(rules, tables), e).rules;
      UniqueIds(after) && Steady(to) && Current(after, to, slot)
  {
    var items := EventItems(rules, e, slot);
    if e.Sampled? {
      OneItem(rules, slot.rule, e.sample, e.now);
    } else {
      EditKeepsIds(rules, e.rule);
    }
    if items == [] {
      assert h + items == h;
    } else {
      assert items == [items[0]];
      SteadyAppend(h, items[0]);
    }
  }

  lemma {:induction false} HistoryIsSteady(w: World, run: seq<Event>, slot: Slot)
    requires UniqueIds(w.rules)
    ensures UniqueIds(Final(w, run).rules) && Steady(History(w, run, slot)) && Current(Final(w, run).rules, History(w, run, slot), slot)
  {
    if run != [] {
      var n := |run| - 1;
      HistoryIsSteady(w, run[..n], slot);
      var before := Final(w, run[..n]);
      HistoryStep(before.rules, before.tables, History(w, run[..n], slot), run[n], slot);
    }
  }

  /** For every run of samples of any devices and edits of any rules: a slot has at most one
      open alert, it has one exactly when the slot's history demands it, and its
      notifications alternate between raised and resolved, the last one telling which. */
  lemma {:induction false} AlertTrace(rules: seq<AlertRule>, run: seq<Event>, slot: Slot)
    requires UniqueIds(rules)
    ensures var w := World(rules, EMPTY);
      var t, h := Final(w, run).tables, History(w, run, slot);
      && OpenRows(t.alerts, slot) <= 1
      && (OpenRows(t.alerts, slot) == 1 <==> ShouldBeOpen(h))
      && Alternating(NotesOf(t.notes, slot))
      && |NotesOf(t.notes, slot)| % 2 == OpenRows(t.alerts, slot)
  {
    var w := World(rules, EMPTY);
    HistoryIsSteady(w, run, slot);
    RunView(w, run, slot);
    HistoryMeaning(History(w, run, slot));
  }

  // ---- Rules that are not edited ----------------------------------------------------------------------------

  ghost predicate Unedited(run: seq<Event>, rule: nat) {
    forall i :: 0 <= i < |run| && run[i].Edited? ==> run[i].rule.id != rule
  }

  ghost predicate InOrder(run: seq<Event>, device: nat) {
    forall i, j :: 0 <= i < j < |run| && run[i].Sampled? && run[j].Sampled? && run[i].device == run[j].device == device ==>
      run[i].now <= run[j].now
  }

  ghost predicate NoLater(h: seq<Item>, t: Time) {
    forall i :: 0 <= i < |h| && h[i].Breach? ==> h[i].at <= t
  }

  ghost predicate Ordered(h: seq<Item>) {
    forall i, j :: 0 <= i < j < |h| && h[i].Breach? && h[j].Breach? ==> h[i].at <= h[j].at
  }

  ghost predicate NoEdit(h: seq<Item>) {
    forall i :: 0 <= i < |h| ==> h[i] != Edit
  }

  /** What the last event of a run adds to the history. */
  lemma {:induction false} LastItems(w: World, run: seq<Event>, slot: Slot) returns (items: seq<Item>)
    requires UniqueIds(w.rules) && run != []
    ensures History(w, run, slot) == History(w, run[..|run| - 1], slot) + items && |items| <= 1
    ensures var e := run[|run| - 1];
      items != [] ==>
        if e.Sampled? then e.device == slot.device && items[0] != Edit && (items[0].Breach? ==> items[0].at == e.now)
        else e.rule.id == slot.rule && items[0] == Edit
  {
    var n := |run| - 1;
    HistoryIsSteady(w, run[..n], slot);
    var rules, e := Final(w, run[..n]).rules, run[n];
    items := EventItems(rules, e, slot);
    if e.Sampled? {
      OneItem(rules, slot.rule, e.sample, e.now);
    }
  }

  lemma {:induction false} HistoryNoLater(w: World, run: seq<Event>, slot: Slot, t: Time)
    requires UniqueIds(w.rules)
    requires forall i :: 0 <= i < |run| && run[i].Sampled? && run[i].device == slot.device ==> run[i].now <= t
    ensures NoLater(History(w, run, slot), t)
  {
    if run != [] {
      HistoryNoLater(w, run[..|run| - 1], slot, t);
      var items := LastItems(w, run, slot);
    }
  }

  lemma {:induction false} OrderedAppend(h: seq<Item>, x: Item)
    requires Ordered(h) && NoEdit(h) && x != Edit && (x.Breach? ==> NoLater(h, x.at))
    ensures Ordered(h + [x]) && NoEdit(h + [x])
  {
  }

  lemma {:induction false} UneditedHistory(w: World, run: seq<Event>, slot: Slot)
    requires UniqueIds(w.rules) && Unedited(run, slot.rule) && InOrder(run, slot.device)
    ensures Ordered(History(w, run, slot)) && NoEdit(History(w, run, slot))
  {
    if run != [] {
      var n := |run| - 1;
      var front, e := run[..n], run[n];
      UneditedHistory(w, front, slot);
      var items := LastItems(w, run, slot);
      var h := History(w, front, slot);
      if items == [] {
        assert h + items == h;
      } else {
        HistoryNoLater(w, front, slot, e.now);
        assert items == [items[0]];
        OrderedAppend(h, items[0]);
      }
    }
  }

  /** An unedited rule and a device whose samples come in order: the alert is open exactly
      when the trailing samples breach and span the rule's duration. */
  lemma {:induction false} UneditedTrace(rules: seq<AlertRule>, run: seq<Event>, slot: Slot)
    requires UniqueIds(rules) && Unedited(run, slot.rule) && InOrder(run, slot.device)
    ensures var w := World(rules, EMPTY);
      OpenRows(Final(w, run).tables.alerts, slot) == 1 <==> TrailingBreach(History(w, run, slot))
  {
    var w := World(rules, EMPTY);
    AlertTrace(rules, run, slot);
    HistoryIsSteady(w, run, slot);
    UneditedHistory(w, run, slot);
    TrailingIsEnough(History(w, run, slot));
  }
}
