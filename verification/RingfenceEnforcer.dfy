/** The enforcer on its host: listing, comparing and changing firewall rules and registry values. */
module RingfenceEnforcer {
  import opened Common
  import opened WdacRules
  import opened Ringfence

  /** Compares the listed rules with the wanted programs. */
  method Diff(existing: seq<string>, desired: map<string, Program>) returns (add: seq<Program>, remove: seq<string>)
    ensures forall p :: p in add <==> exists n :: n in desired && desired[n] == p && Wants(desired, n) && n !in existing
    ensures forall n :: n in remove <==> n in existing && !Wants(desired, n)
  {
    add := Additions(existing, desired);
    remove := [];
    for i := 0 to |existing|
      invariant forall n :: n in remove <==> n in existing[..i] && !Wants(desired, n)
    {
      assert existing[..i + 1] == existing[..i] + [existing[i]];
      if existing[i] !in desired || !desired[existing[i]].blocked {
        remove := remove + [existing[i]];
      }
    }
    assert existing[..|existing|] == existing;
  }

  /** Visits the wanted names in any order. */
  method Additions(existing: seq<string>, desired: map<string, Program>) returns (add: seq<Program>)
    ensures forall p :: p in add <==> exists n :: n in desired && desired[n] == p && Wants(desired, n) && n !in existing
  {
    add := [];
    var todo := desired.Keys;
    while todo != {}
      invariant todo <= desired.Keys
      invariant forall p :: p in add ==> exists n :: n in desired && desired[n] == p && Wants(desired, n) && n !in existing
      invariant forall n :: n in desired && n !in todo && Wants(desired, n) && n !in existing ==> desired[n] in add
      decreases |todo|
    {
      var n := Pick(todo);
      if desired[n].blocked && n !in existing {
        add := add + [desired[n]];
      }
      todo := todo - {n};
    }
  }

  /** The present names that may be deleted and are no longer wanted, as they are spelled. */
  function StaleOf(present: seq<string>, want: map<string, string>): seq<string> {
    if present == [] then []
    else
      var last := present[|present| - 1];
      StaleOf(present[..|present| - 1], want) + if IsStale(Upper(last), want) then [last] else []
  }

  lemma {:induction false} StaleMeaning(present: seq<string>, want: map<string, string>, n: string)
    ensures n in StaleOf(present, want) <==> n in present && IsStale(Upper(n), want)
  {
    if present != [] {
      var k := |present| - 1;
      StaleMeaning(present[..k], want, n);
      assert present == present[..k] + [present[k]];
    }
  }

  method StaleASRValues(present: seq<string>, want: map<string, string>) returns (stale: seq<string>)
    ensures stale == StaleOf(present, want)
  {
    stale := [];
    for i := 0 to |present|
      invariant stale == StaleOf(present[..i], want)
    {
      assert present[..i + 1][..i] == present[..i];
      var u := Upper(present[i]);
      if u in CURATED && u !in want {
        stale := stale + [present[i]];
      }
    }
    assert present[..|present|] == present;
  }

  method CollectActions(protections: seq<Protection>) returns (want: map<string, string>)
    ensures want == WantedActions(protections)
  {
    want := map[];
    for i := 0 to |protections|
      invariant want == WantedActions(protections[..i])
    {
      assert protections[..i + 1][..i] == protections[..i];
      want := want[Upper(protections[i].rule) := protections[i].action];
    }
    assert protections[..|protections|] == protections;
  }

  /** One value of the registry key after setting the wanted ones in `done`. */
  function SetSome(asr: map<string, AsrValue>, want: map<string, string>, done: set<string>): map<string, AsrValue>
    requires done <= want.Keys
  {
    map k | k in asr.Keys + done ::
      if k in done then AsrValue(if k in asr then asr[k].name else k, Code(want[k])) else asr[k]
  }

  lemma {:induction false} SetNone(asr: map<string, AsrValue>, want: map<string, string>)
    ensures SetSome(asr, want, want.Keys - want.Keys) == asr
  {
    assert SetSome(asr, want, want.Keys - want.Keys).Keys == asr.Keys;
  }

  lemma {:induction false} SetOne(asr: map<string, AsrValue>, want: map<string, string>, todo: set<string>, k: string)
    requires todo <= want.Keys && k in todo && Upper(k) == k
    ensures SetValue(SetSome(asr, want, want.Keys - todo), k, Code(want[k])) == SetSome(asr, want, want.Keys - (todo - {k}))
  {
    var before := SetSome(asr, want, want.Keys - todo);
    var one, two := SetValue(before, k, Code(want[k])), SetSome(asr, want, want.Keys - (todo - {k}));
    assert k in before <==> k in asr;
    assert one.Keys == two.Keys;
    forall x | x in two
      ensures one[x] == two[x]
    {
      assert x == k || (x in before && before[x] == one[x]);
    }
  }

  predicate Names(stale: seq<string>, k: string) {
    exists i :: 0 <= i < |stale| && Upper(stale[i]) == k
  }

  function Remaining(asr: map<string, AsrValue>, stale: seq<string>): map<string, AsrValue> {
    map k | k in asr && !Names(stale, k) :: asr[k]
  }

  lemma {:induction false} DeleteOne(asr: map<string, AsrValue>, stale: seq<string>, n: string)
    ensures Remaining(asr, stale) - {Upper(n)} == Remaining(asr, stale + [n])
  {
    forall k
      ensures Names(stale + [n], k) <==> Names(stale, k) || Upper(n) == k
    {
      var all := stale + [n];
      if i :| 0 <= i < |stale| && Upper(stale[i]) == k {
        assert all[i] == stale[i];
      }
      assert all[|stale|] == n;
    }
  }

  lemma {:induction false} DeleteThenSet(asr: map<string, AsrValue>, want: map<string, string>, stale: seq<string>)
    requires forall k :: k in asr ==> (IsStale(k, want) <==> Names(stale, k))
    ensures SetSome(Remaining(asr, stale), want, want.Keys) == AsrAfter(asr, want)
  {
    var one, two := SetSome(Remaining(asr, stale), want, want.Keys), AsrAfter(asr, want);
    assert one.Keys == two.Keys;
    forall k | k in two
      ensures one[k] == two[k]
    {
      assert k in asr <==> k in Remaining(asr, stale);
    }
  }

  class Enforcer {
    const naming: Naming
    const images: seq<string>
    var applied: string
    var last: Fence
    var firewall: set<FwRule>
    var asr: map<string, AsrValue>

    ghost function State(): Agent
      reads this
    {
      Agent(images, applied, last, Host(firewall, asr))
    }

    constructor (naming: Naming, images: seq<string>, firewall: set<FwRule>, asr: map<string, AsrValue>)
      ensures this.naming == naming && State() == Agent(images, "", Fence("", "", [], []), Host(firewall, asr))
    {
      this.naming, this.images, this.firewall, this.asr := naming, images, firewall, asr;
      applied, last := "", Fence("", "", [], []);
    }

    /** The names the listing yields, in any order. */
    method ExistingRules() returns (names: seq<string>)
      ensures forall n :: n in names <==> Listed(firewall, n)
    {
      names := [];
      var todo := firewall;
      while todo != {}
        invariant todo <= firewall
        invariant forall n :: n in names ==> Listed(firewall, n)
        invariant forall x :: x in firewall && x !in todo && Find(x.name).Some? ==> Find(x.name).value in names
        decreases |todo|
      {
        var x := Pick(todo);
        var found := Find(x.name);
        if found.Some? {
          names := names + [found.value];
        }
        todo := todo - {x};
      }
    }

    method WantedPrograms(r: Fence) returns (desired: map<string, Program>)
      ensures desired == DesiredFor(naming, r)
    {
      desired := map[];
      if r.mode == "enforce" {
        for i := 0 to |r.programs|
          invariant desired == Desired(naming, r.programs[..i])
        {
          assert r.programs[..i + 1][..i] == r.programs[..i];
          desired := desired[naming(r.programs[i].path) := r.programs[i]];
        }
        assert r.programs[..|r.programs|] == r.programs;
      }
    }

    /** Deletes every rule with a listed name. */
    method DeleteRules(remove: seq<string>)
      modifies this`firewall
      ensures firewall == set x | x in old(firewall) && x.name !in remove
    {
      for i := 0 to |remove|
        invariant firewall == set x | x in old(firewall) && x.name !in remove[..i]
      {
        assert remove[..i + 1] == remove[..i] + [remove[i]];
        firewall := set x | x in firewall && x.name != remove[i];
      }
      assert remove[..|remove|] == remove;
    }

    method AddRules(add: seq<Program>)
      modifies this`firewall
      ensures firewall == old(firewall) + (set p | p in add :: FwRule(naming(p.path), p.path))
    {
      for i := 0 to |add|
        invariant firewall == old(firewall) + (set p | p in add[..i] :: FwRule(naming(p.path), p.path))
      {
        assert add[..i + 1] == add[..i] + [add[i]];
        firewall := firewall + {FwRule(naming(add[i].path), add[i].path)};
      }
      assert add[..|add|] == add;
    }

    method ApplyNetwork(r: Fence)
      modifies this`firewall
      ensures firewall == FirewallAfter(naming, old(firewall), DesiredFor(naming, r))
    {
      var desired := WantedPrograms(r);
      var existing := ExistingRules();
      var add, remove := Diff(existing, desired);
      DeleteRules(remove);
      AddRules(add);
    }

    method DeleteStale(stale: seq<string>)
      modifies this`asr
      ensures asr == Remaining(old(asr), stale)
    {
      assert Remaining(asr, []) == asr;
      for i := 0 to |stale|
        invariant asr == Remaining(old(asr), stale[..i])
      {
        DeleteOne(old(asr), stale[..i], stale[i]);
        assert stale[..i + 1] == stale[..i] + [stale[i]];
        asr := asr - {Upper(stale[i])};
      }
      assert stale[..|stale|] == stale;
    }

    method SetWanted(want: map<string, string>)
      requires forall k :: k in want ==> Upper(k) == k
      modifies this`asr
      ensures asr == SetSome(old(asr), want, want.Keys)
    {
      SetNone(asr, want);
      var todo := want.Keys;
      while todo != {}
        invariant todo <= want.Keys && asr == SetSome(old(asr), want, want.Keys - todo)
        decreases |todo|
      {
        var k := Pick(todo);
        SetOne(old(asr), want, todo, k);
        asr := SetValue(asr, k, Code(want[k]));
        todo := todo - {k};
      }
      assert want.Keys - todo == want.Keys;
    }

    method ValueNames() returns (names: seq<string>)
      ensures forall n :: n in names <==> exists k :: k in asr && asr[k].name == n
    {
      names := [];
      var todo := asr.Keys;
      while todo != {}
        invariant todo <= asr.Keys
        invariant forall n :: n in names ==> exists k :: k in asr && asr[k].name == n
        invariant forall k :: k in asr && k !in todo ==> asr[k].name in names
        decreases |todo|
      {
        var k := Pick(todo);
        names := names + [asr[k].name];
        todo := todo - {k};
      }
    }

    method ApplyASR(r: Fence)
      requires AsrOk(asr)
      modifies this`asr
      ensures asr == AsrAfter(old(asr), WantedActions(r.protections)) && AsrOk(asr)
    {
      var want := CollectActions(r.protections);
      var names := ValueNames();
      var stale := StaleASRValues(names, want);
      forall k | k in want
        ensures Upper(k) == k
      {
        WantedKeys(r.protections, k);
      }
      StaleKeys(asr, names, want);
      DeleteThenSet(asr, want, stale);
      AsrKeysKept(asr, r.protections);
      DeleteStale(stale);
      SetWanted(want);
    }

    method NamesAgentImage(r: Fence) returns (refused: bool)
      ensures refused <==> Refused(images, r)
    {
      for i := 0 to |r.programs|
        invariant forall k :: 0 <= k < i ==> !IsAgentImage(images, r.programs[k].path)
      {
        for j := 0 to |images|
          invariant forall k :: 0 <= k < j ==> !EqualFold(r.programs[i].path, images[k])
        {
          if EqualFold(r.programs[i].path, images[j]) {
            assert IsAgentImage(images, r.programs[i].path);
            return true;
          }
        }
      }
      return false;
    }

    /** Skips an applied version, refuses to cut off the agent, and otherwise reconciles. */
    method ApplyFence(r: Fence) returns (ok: bool)
      requires AsrOk(asr)
      modifies this
      ensures AsrOk(asr)
      ensures (State(), ok) == Apply(naming, old(State()), r)
    {
      if applied == r.version && r.version != "" {
        return true;
      }
      var refused := NamesAgentImage(r);
      if refused {
        return false;
      }
      ApplyNetwork(r);
      ApplyASR(r);
      applied, last := r.version, r;
      ok := true;
    }
  }

  /** Deleting the stale names removes exactly the stale keys. */
  lemma {:induction false} StaleKeys(asr: map<string, AsrValue>, names: seq<string>, want: map<string, string>)
    requires AsrOk(asr) && forall n :: n in names <==> exists k :: k in asr && asr[k].name == n
    ensures forall k :: k in asr ==> (IsStale(k, want) <==> Names(StaleOf(names, want), k))
  {
    var stale := StaleOf(names, want);
    forall k | k in asr
      ensures IsStale(k, want) <==> Names(stale, k)
    {
      if IsStale(k, want) {
        StaleMeaning(names, want, asr[k].name);
        assert asr[k].name in stale;
      }
      if i :| 0 <= i < |stale| && Upper(stale[i]) == k {
        StaleMeaning(names, want, stale[i]);
      }
    }
  }
}
