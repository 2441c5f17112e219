/** The approval tables behind the store's operations. */
module ApprovalStore {
  import opened Common
  import opened Approvals

  datatype Outcome = Done | NotFound | Conflict

  /** The facts of a hash with one more event. */
  method AddEvent(known: Option<Facts>, e: BlockEvent, at: Time) returns (facts: Facts)
    ensures var single := Facts(e.path, e.signer, e.signerTbs, e.verified, 1, at, at);
      facts == if known.None? then single else Merge(known.value, single)
  {
    var a := if known.Some? then known.value else Facts("", "", "", false, 0, at, at);
    facts := Facts(
      if a.path == "" then e.path else a.path,
      if a.signer == "" then e.signer else a.signer,
      if a.signerTbs == "" then e.signerTbs else a.signerTbs,
      a.verified || e.verified, a.count + 1,
      if at < a.first then at else a.first,
      if at > a.last then at else a.last);
  }

  /** The facts of a batch by hash and the hashes in order of appearance. */
  method AggregateBatch(events: seq<BlockEvent>, now: Time) returns (byHash: map<string, Facts>, order: seq<string>)
    ensures byHash == Aggregate(events, now) && order == Order(events)
  {
    byHash, order := map[], [];
    for i := 0 to |events|
      invariant byHash == Aggregate(events[..i], now) && order == Order(events[..i])
    {
      assert events[..i + 1][..i] == events[..i];
      OrderMeaning(events[..i], now);
      var e := events[i];
      if e.hash != "" {
        var known := e.hash in byHash;
        var facts := AddEvent(if known then Some(byHash[e.hash]) else None, e, TimeOf(e, now));
        if !known {
          order := order + [e.hash];
        }
        byHash := byHash[e.hash := facts];
      }
    }
    assert events[..|events|] == events;
  }

  ghost function DueBefore(t: Requests, before: Time): set<Key> {
    set k | k in t && t[k].status == Pending && t[k].facts.last < before
  }

  /** Visits the rows in any order and expires those that are due. */
  method ExpireRows(t: Requests, before: Time) returns (to: Requests)
    ensures to.Keys == t.Keys && forall k :: k in t ==> to[k] == ExpireRow(t[k], before)
  {
    var todo := t.Keys;
    to := t;
    while todo != {}
      invariant todo <= t.Keys && to.Keys == t.Keys
      invariant forall k :: k in todo ==> to[k] == t[k]
      invariant forall k :: k in t && k !in todo ==> to[k] == ExpireRow(t[k], before)
      decreases |todo|
    {
      var k := Pick(todo);
      if t[k].status == Pending && t[k].facts.last < before {
        to := to[k := t[k].(status := Expired)];
      }
      todo := todo - {k};
    }
  }

  /** The number of rows the sweep changes. */
  method CountDue(t: Requests, before: Time) returns (count: nat)
    ensures count == |DueBefore(t, before)|
  {
    var todo := t.Keys;
    ghost var due := DueBefore(t, before);
    assert due - todo == {};
    count := 0;
    while todo != {}
      invariant todo <= t.Keys && count == |due - todo|
      decreases |todo|
    {
      var k := Pick(todo);
      CountStruck(due, todo, k);
      if t[k].status == Pending && t[k].facts.last < before {
        count := count + 1;
      }
      todo := todo - {k};
    }
    assert due - todo == due;
  }

  /** The earlier hashes of an order do not touch the row of the next one. */
  lemma {:induction false} NextKeyIsAsBefore(t: Requests, policy: nat, device: nat, facts: map<string, Facts>, order: seq<string>, i: nat)
    requires i < |order| && forall h :: h in order ==> h in facts
    requires forall j, k :: 0 <= j < k < |order| ==> order[j] != order[k]
    ensures Key(policy, order[i]) in UpsertAll(t, policy, device, facts, order[..i]) <==> Key(policy, order[i]) in t
  {
    assert order[i] !in order[..i];
    BatchAt(t, policy, device, facts, order[..i], Key(policy, order[i]));
  }

  class Store {
    var requests: Requests

    constructor ()
      ensures requests == map[]
    {
      requests := map[];
    }

    /** Writes one row and records the device for it. */
    method UpsertRow(key: Key, device: nat, facts: Facts) returns (isNew: bool)
      modifies this
      ensures requests == Upsert(old(requests), key, device, facts)
      ensures isNew <==> key !in old(requests)
    {
      isNew := key !in requests;
      var row: Request;
      if isNew {
        row := Request(facts, Pending, {}, 0, None);
      } else {
        var was := requests[key];
        row := was.(facts := Merge(was.facts, facts));
      }
      if device !in row.devices {
        row := row.(devices := row.devices + {device}, deviceCount := row.deviceCount + 1);
      }
      requests := requests[key := row];
    }

    /** Folds a batch into the rows and returns the keys of those that are new. */
    method UpsertApprovalRequests(policy: nat, device: nat, events: seq<BlockEvent>, now: Time) returns (inserted: seq<Key>)
      modifies this
      ensures requests == Step(old(requests), Report(policy, device, events, now))
      ensures inserted == Reported(old(requests), Report(policy, device, events, now))
    {
      var byHash, order := AggregateBatch(events, now);
      OrderMeaning(events, now);
      inserted := UpsertOrder(policy, device, byHash, order);
    }

    /** Writes one row per hash, in order. */
    method UpsertOrder(policy: nat, device: nat, byHash: map<string, Facts>, order: seq<string>) returns (inserted: seq<Key>)
      requires forall h :: h in order ==> h in byHash
      requires forall i, j :: 0 <= i < j < |order| ==> order[i] != order[j]
      modifies this
      ensures requests == UpsertAll(old(requests), policy, device, byHash, order)
      ensures inserted == NewKeys(old(requests), policy, order)
    {
      inserted := [];
      for i := 0 to |order|
        invariant requests == UpsertAll(old(requests), policy, device, byHash, order[..i])
        invariant inserted == NewKeys(old(requests), policy, order[..i])
      {
        assert order[..i + 1][..i] == order[..i];
        NextKeyIsAsBefore(old(requests), policy, device, byHash, order, i);
        var isNew := UpsertRow(Key(policy, order[i]), device, byHash[order[i]]);
        if isNew {
          inserted := inserted + [Key(policy, order[i])];
        }
      }
      assert order[..|order|] == order;
    }

    /** Decides a pending request; tells an unknown one from one that is decided already. */
    method DecideApprovalRequest(key: Key, approve: bool, admin: nat, at: Time) returns (outcome: Outcome)
      modifies this
      ensures requests == Step(old(requests), Decide(key, approve, admin, at))
      ensures outcome == if key !in old(requests) then NotFound else if old(requests)[key].status == Pending then Done else Conflict
      ensures outcome != Done ==> requests == old(requests)
      ensures outcome == Done && approve ==>
                requests == old(requests)[key := old(requests)[key].(status := Approved, decided := Some(Decision(admin, at)))]
      ensures outcome == Done && !approve ==>
                requests == old(requests)[key := old(requests)[key].(status := Denied, decided := Some(Decision(admin, at)))]
    {
      if key !in requests {
        return NotFound;
      }
      if requests[key].status != Pending {
        return Conflict;
      }
      requests := requests[key := requests[key].(status := if approve then Approved else Denied, decided := Some(Decision(admin, at)))];
      outcome := Done;
    }

    /** Expires the pending requests without activity since `before`. */
    method ExpireApprovalRequests(before: Time) returns (expired: nat)
      modifies this
      ensures requests == Step(old(requests), Expire(before))
      ensures expired == |DueBefore(old(requests), before)|
      ensures requests.Keys == old(requests).Keys
      ensures forall k :: k in requests ==> (requests[k] != old(requests)[k] <==> k in DueBefore(old(requests), before))
    {
      expired := CountDue(requests, before);
      requests := ExpireRows(requests, before);
      assert requests == Step(old(requests), Expire(before));
    }
  }
}
