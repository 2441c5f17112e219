/** The command table, the hub of live connections and the agent's executor, as the
    objects that hold them. */
module CommandService {
  import opened Common
  import opened Commands

  /** A live stream; `Hub` compares connections by identity. */
  class Link {
    const device: DeviceId
    var buffer: seq<Message>
    var cancelled: bool

    constructor (device: DeviceId)
      ensures this.device == device && buffer == [] && !cancelled
    {
      this.device := device;
      buffer, cancelled := [], false;
    }
  }

  class Hub {
    var links: map<DeviceId, Link>

    ghost predicate Valid()
      reads this, links.Values
    {
      forall d :: d in links ==> links[d].device == d && |links[d].buffer| <= SEND_BUFFER
    }

    /** The messages waiting on a device's link; none without a link. */
    ghost function Waiting(device: DeviceId): seq<Message>
      reads this, links.Values
    {
      if device in links then links[device].buffer else []
    }

    /** The messages a device's link can still take; none without a link. */
    ghost function Room(device: DeviceId): nat
      requires Valid()
      reads this, links.Values
    {
      if device in links then SEND_BUFFER - |links[device].buffer| else 0
    }

    constructor ()
      ensures Valid() && links == map[]
    {
      links := map[];
    }

    /** A new connection takes the device's place; the one it replaces is cut off. */
    method Register(device: DeviceId) returns (c: Link)
      requires Valid()
      modifies this, if device in links then {links[device]} else {}
      ensures Valid() && fresh(c) && c.buffer == [] && !c.cancelled
      ensures links == old(links)[device := c]
      ensures device in old(links) ==> old(links)[device].cancelled && old(links)[device].buffer == old(links[device].buffer)
    {
      c := new Link(device);
      if device in links {
        links[device].cancelled := true;
      }
      links := links[device := c];
    }

    /** A replaced connection that ends late does not remove its successor. */
    method Unregister(device: DeviceId, c: Link)
      requires Valid()
      modifies this
      ensures Valid()
      ensures links == if device in old(links) && old(links)[device] == c then old(links) - {device} else old(links)
    {
      if device in links && links[device] == c {
        links := links - {device};
      }
    }

    /** Never blocks: the message is dropped when there is no connection or no room. */
    method Send(m: Message) returns (ok: bool)
      requires Valid()
      modifies if m.device in links then {links[m.device]} else {}
      ensures Valid()
      ensures ok <==> m.device in links && |old(links[m.device].buffer)| < SEND_BUFFER
      ensures ok <==> m.device in links && |old(links[m.device].buffer)| < 64
      ensures m.device in links ==>
                links[m.device].buffer == old(links[m.device].buffer) + (if ok then [m] else []) &&
                links[m.device].cancelled == old(links[m.device].cancelled)
    {
      ok := m.device in links && |links[m.device].buffer| < SEND_BUFFER;
      if ok {
        links[m.device].buffer := links[m.device].buffer + [m];
      }
    }
  }

  predicate Deliverable(t: Table, device: DeviceId, now: Time, id: CommandId) {
    id in t && t[id].device == device && IsOpen(t[id]) && t[id].expiresAt > now
  }

  /** Older commands first; all commands live equally long. */
  ghost predicate IssueOrder(t: Table, ids: seq<CommandId>) {
    && (forall i :: 0 <= i < |ids| ==> ids[i] in t)
    && (forall i, j :: 0 <= i < j < |ids| ==> ids[i] != ids[j] && t[ids[i]].expiresAt <= t[ids[j]].expiresAt)
  }

  /** Every one of `ids` marked as sent. */
  function MarkAll(t: Table, ids: seq<CommandId>): Table {
    if ids == [] then t else MarkedSent(MarkAll(t, ids[..|ids| - 1]), ids[|ids| - 1])
  }

  /** The commands a link with `room` left takes: those of a known kind, in order. */
  function Fitting(t: Table, ids: seq<CommandId>, room: nat): seq<CommandId>
    requires forall i :: 0 <= i < |ids| ==> ids[i] in t
  {
    if ids == [] || room == 0 then []
    else if t[ids[0]].kind == Unspecified then Fitting(t, ids[1..], room)
    else [ids[0]] + Fitting(t, ids[1..], room - 1)
  }

  function Messages(t: Table, ids: seq<CommandId>): seq<Message>
    requires forall i :: 0 <= i < |ids| ==> ids[i] in t
  {
    seq(|ids|, i requires 0 <= i < |ids| => MessageOf(t, ids[i]))
  }

  datatype Offered = Offered(table: Table, messages: seq<Message>)

  ghost predicate Known(t: Table, ids: seq<CommandId>) {
    forall i :: 0 <= i < |ids| ==> ids[i] in t
  }

  /** What offering commands one after the other to a link with `room` left comes to. */
  ghost function Offer(t: Table, ids: seq<CommandId>, room: nat): Offered
    requires Known(t, ids)
    decreases |ids|
  {
    if ids == [] then Offered(t, [])
    else if t[ids[0]].kind == Unspecified || room == 0 then Offer(t, ids[1..], room)
    else
      var rest := Offer(MarkedSent(t, ids[0]), ids[1..], room - 1);
      Offered(rest.table, [MessageOf(t, ids[0])] + rest.messages)
  }

  /** Marking changes neither messages nor what fits. */
  lemma {:induction false} MarkKeepsFitting(t: Table, id: CommandId, ids: seq<CommandId>, room: nat)
    requires Known(t, ids)
    ensures Fitting(MarkedSent(t, id), ids, room) == Fitting(t, ids, room)
    decreases |ids|
  {
    if ids != [] && room > 0 {
      MarkKeepsFitting(t, id, ids[1..], room);
      MarkKeepsFitting(t, id, ids[1..], room - 1);
    }
  }

  lemma {:induction false} FittingIsKnown(t: Table, ids: seq<CommandId>, room: nat)
    requires Known(t, ids)
    ensures Known(t, Fitting(t, ids, room))
    decreases |ids|
  {
    if ids != [] && room > 0 {
      FittingIsKnown(t, ids[1..], room);
      FittingIsKnown(t, ids[1..], room - 1);
    }
  }

  lemma {:induction false} MarkFirst(t: Table, id: CommandId, ids: seq<CommandId>)
    ensures MarkAll(t, [id] + ids) == MarkAll(MarkedSent(t, id), ids)
    decreases |ids|
  {
    if ids == [] {
      assert [id] + ids == [id] && [id][..0] == [];
    } else {
      var n := |ids| - 1;
      assert ([id] + ids)[..n + 1] == [id] + ids[..n];
      MarkFirst(t, id, ids[..n]);
    }
  }

  lemma {:induction false} MessagesFirst(t: Table, id: CommandId, ids: seq<CommandId>)
    requires id in t && Known(t, ids)
    ensures Messages(t, [id] + ids) == [MessageOf(t, id)] + Messages(MarkedSent(t, id), ids)
  {
  }

  /** Offering takes what fits, in order, and marks exactly that. */
  lemma {:induction false} OfferMeaning(t: Table, ids: seq<CommandId>, room: nat)
    requires Known(t, ids)
    ensures Known(t, Fitting(t, ids, room))
    ensures Offer(t, ids, room) == Offered(MarkAll(t, Fitting(t, ids, room)), Messages(t, Fitting(t, ids, room)))
    decreases |ids|
  {
    FittingIsKnown(t, ids, room);
    if ids != [] {
      var id, rest := ids[0], ids[1..];
      if t[id].kind == Unspecified || room == 0 {
        OfferMeaning(t, rest, room);
      } else {
        OfferMeaning(MarkedSent(t, id), rest, room - 1);
        MarkKeepsFitting(t, id, rest, room - 1);
        FittingIsKnown(t, rest, room - 1);
        MarkFirst(t, id, Fitting(t, rest, room - 1));
        MessagesFirst(t, id, Fitting(t, rest, room - 1));
      }
    }
  }

  /** Stored commands of one device. */
  ghost predicate Addressed(t: Table, ids: seq<CommandId>, device: DeviceId) {
    Known(t, ids) && forall i :: 0 <= i < |ids| ==> t[ids[i]].device == device
  }

  lemma {:induction false} AddressedStep(t: Table, ids: seq<CommandId>, k: nat, device: DeviceId)
    requires k < |ids| && Addressed(t, ids[k..], device)
    ensures ids[k] in t && t[ids[k]].device == device
    ensures Addressed(t, ids[k + 1..], device) && Addressed(MarkedSent(t, ids[k]), ids[k + 1..], device)
  {
    var tail, rest := ids[k..], ids[k + 1..];
    assert tail[0] == ids[k];
    assert forall i :: 0 <= i < |rest| ==> rest[i] == tail[i + 1];
  }

  /** One more offer in the middle of a list. */
  lemma {:induction false} OfferStep(t: Table, ids: seq<CommandId>, k: nat, room: nat)
    requires k < |ids| && Known(t, ids[k..])
    ensures Known(t, ids[k + 1..]) && ids[k] in t && Known(MarkedSent(t, ids[k]), ids[k + 1..])
    ensures t[ids[k]].kind == Unspecified || room == 0 ==> Offer(t, ids[k..], room) == Offer(t, ids[k + 1..], room)
    ensures t[ids[k]].kind != Unspecified && room > 0 ==>
              Offer(t, ids[k..], room).table == Offer(MarkedSent(t, ids[k]), ids[k + 1..], room - 1).table &&
              Offer(t, ids[k..], room).messages ==
              [MessageOf(t, ids[k])] + Offer(MarkedSent(t, ids[k]), ids[k + 1..], room - 1).messages
  {
    assert ids[k..][0] == ids[k] && ids[k..][1..] == ids[k + 1..];
    assert forall i :: k <= i < |ids| ==> ids[i] == ids[k..][i - k];
  }

  class Service {
    var table: Table
    const hub: Hub

    constructor (hub: Hub)
      ensures table == map[] && this.hub == hub
    {
      table := map[];
      this.hub := hub;
    }

    method OpenCommands(device: DeviceId, now: Time) returns (ids: seq<CommandId>)
      ensures forall id :: id in ids <==> Deliverable(table, device, now, id)
      ensures forall id :: id in ids <==> && id in table && table[id].device == device && now < table[id].expiresAt
                                          && (table[id].state == Pending || table[id].state == Sent)
      ensures IssueOrder(table, ids)
    {
      var rest := set id | id in table && Deliverable(table, device, now, id);
      ids := [];
      while rest != {}
        invariant forall id :: Deliverable(table, device, now, id) <==> id in ids || id in rest
        invariant rest <= table.Keys && rest !! set id | id in ids
        invariant IssueOrder(table, ids)
        invariant forall i :: 0 <= i < |ids| ==> OldestOf(table, ids[i], rest)
        decreases |rest|
      {
        var first := Oldest(table, rest);
        ids := ids + [first];
        rest := rest - {first};
      }
    }

    /** Sends one command and, if the link took it, records that a pending one is sent. */
    method Deliver(id: CommandId) returns (ok: bool)
      requires id in table && hub.Valid()
      modifies this`table, if table[id].device in hub.links then {hub.links[table[id].device]} else {}
      ensures hub.Valid()
      ensures ok <==> && old(table)[id].kind != Unspecified && old(table)[id].device in hub.links
                      && |old(hub.links[table[id].device].buffer)| < SEND_BUFFER
      ensures table == if ok then MarkedSent(old(table), id) else old(table)
      ensures ok && old(table)[id].state == Pending ==> table == old(table)[id := old(table)[id].(state := Sent)]
      ensures !ok || old(table)[id].state != Pending ==> table == old(table)
      ensures old(table)[id].device in hub.links ==>
                hub.links[old(table)[id].device].buffer ==
                old(hub.links[table[id].device].buffer) + (if ok then [MessageOf(old(table), id)] else [])
    {
      ok := false;
      if table[id].kind != Unspecified {
        ok := hub.Send(MessageOf(table, id));
        if ok && table[id].state == Pending {
          table := table[id := table[id].(state := Sent)];
        }
      }
    }

    /** On connect, every open command of a known kind is sent again, oldest first, until
        the buffer is full; exactly those are marked as sent. */
    method DeliverPending(device: DeviceId, now: Time) returns (ids: seq<CommandId>, ghost sent: seq<CommandId>)
      requires hub.Valid()
      modifies this`table, if device in hub.links then {hub.links[device]} else {}
      ensures hub.Valid()
      ensures forall id :: id in ids <==> Deliverable(old(table), device, now, id)
      ensures IssueOrder(old(table), ids)
      ensures sent == Fitting(old(table), ids, old(hub.Room(device)))
      ensures table == MarkAll(old(table), sent)
      ensures Known(old(table), sent)
      ensures hub.Waiting(device) == old(hub.Waiting(device)) + Messages(old(table), sent)
    {
      ids := OpenCommands(device, now);
      assert forall i :: 0 <= i < |ids| ==> ids[i] in ids && Deliverable(table, device, now, ids[i]);
      sent := DeliverAll(device, ids);
    }

    /** Where offering the given commands to the device's link will lead from here. */
    ghost function Outcome(device: DeviceId, ids: seq<CommandId>): Offered
      requires hub.Valid() && Known(table, ids)
      reads this, hub, hub.links.Values
    {
      var offered := Offer(table, ids, hub.Room(device));
      Offered(offered.table, hub.Waiting(device) + offered.messages)
    }

    /** One more of the listed commands: the outcome of the whole list stays as foreseen. */
    method DeliverNext(device: DeviceId, ids: seq<CommandId>, k: nat)
      requires hub.Valid() && k < |ids| && Addressed(table, ids[k..], device)
      modifies this`table, if device in hub.links then {hub.links[device]} else {}
      ensures hub.Valid() && Addressed(table, ids[k + 1..], device)
      ensures Outcome(device, ids[k + 1..]) == old(Outcome(device, ids[k..]))
    {
      OfferStep(table, ids, k, hub.Room(device));
      AddressedStep(table, ids, k, device);
      var ok := Deliver(ids[k]);
    }

    method DeliverAll(device: DeviceId, ids: seq<CommandId>) returns (ghost sent: seq<CommandId>)
      requires hub.Valid() && Addressed(table, ids, device)
      modifies this`table, if device in hub.links then {hub.links[device]} else {}
      ensures hub.Valid()
      ensures sent == Fitting(old(table), ids, old(hub.Room(device)))
      ensures table == MarkAll(old(table), sent)
      ensures Known(old(table), sent)
      ensures hub.Waiting(device) == old(hub.Waiting(device)) + Messages(old(table), sent)
    {
      sent := Fitting(table, ids, hub.Room(device));
      OfferMeaning(table, ids, hub.Room(device));
      assert ids[0..] == ids;
      for k := 0 to |ids|
        invariant hub.Valid() && Addressed(table, ids[k..], device)
        invariant Outcome(device, ids[k..]) == old(Outcome(device, ids))
      {
        DeliverNext(device, ids, k);
      }
      assert ids[|ids|..] == [];
    }

    method CompleteCommand(device: DeviceId, id: CommandId, r: Result, now: Time) returns (ok: bool)
      modifies this`table
      ensures table == Completed(old(table), device, id, r, now)
      ensures ok <==> table != old(table)
      ensures ok <==> && id in old(table) && old(table)[id].device == device
                      && (old(table)[id].state == Pending || old(table)[id].state == Sent)
      ensures ok && r.success ==>
                table == old(table)[id := old(table)[id].(state := Succeeded, result := r.message, completedAt := Some(now))]
      ensures ok && !r.success ==>
                table == old(table)[id := old(table)[id].(state := Failed, result := r.message, completedAt := Some(now))]
    {
      ok := id in table && table[id].device == device && (table[id].state == Pending || table[id].state == Sent);
      if ok {
        var state := if r.success then Succeeded else Failed;
        assert table[id].state != state;
        table := table[id := table[id].(state := state, result := r.message, completedAt := Some(now))];
      }
    }

    method ExpireCommands(now: Time) returns (n: nat)
      modifies this`table
      ensures table == Swept(old(table), now)
      ensures n == |set id | id in old(table) && old(table)[id] != table[id]|
    {
      var due := set id | id in table && IsOpen(table[id]) && table[id].expiresAt <= now;
      n := |due|;
      table := map id | id in table :: if id in due then table[id].(state := Expired) else table[id];
      assert due == set id | id in old(table) && old(table)[id] != table[id];
    }
  }

  ghost predicate OldestOf(t: Table, a: CommandId, ids: set<CommandId>)
    requires ids <= t.Keys
  {
    a in t && forall id :: id in ids ==> t[a].expiresAt <= t[id].expiresAt
  }

  method Oldest(t: Table, ids: set<CommandId>) returns (first: CommandId)
    requires ids != {} && ids <= t.Keys
    ensures first in ids && OldestOf(t, first, ids)
  {
    first := Pick(ids);
    var rest := ids - {first};
    while rest != {}
      invariant rest <= ids && first in ids
      invariant forall id :: id in ids ==> id in rest || t[first].expiresAt <= t[id].expiresAt
      decreases |rest|
    {
      var id := Pick(rest);
      if t[id].expiresAt < t[first].expiresAt {
        first := id;
      }
      rest := rest - {id};
    }
  }

  /** The agent's executor. `error` is how the command's action would end if it ran. */
  class Executor {
    var seen: map<CommandId, Result>

    constructor ()
      ensures seen == map[]
    {
      seen := map[];
    }

    method Run(m: Message, error: Option<string>) returns (r: Result, ran: bool)
      modifies this
      ensures ran <==> m.id !in old(seen)
      ensures m.id in seen && r == seen[m.id]
      ensures ran ==> r == ResultOf(m.kind, error)
      ensures ran && m.kind == Ping ==> r == Result(true, "pong")
      ensures ran && m.kind == Unspecified ==> r == Result(false, "unsupported command")
      ensures ran && m.kind != Ping && m.kind != Unspecified && error == None ==> r == Result(true, "done")
      ensures ran && m.kind != Ping && m.kind != Unspecified && error.Some? ==> r == Result(false, error.value)
      ensures seen == old(seen)[m.id := r]
    {
      if m.id in seen {
        return seen[m.id], false;
      }
      r, ran := ResultOf(m.kind, error), true;
      seen := seen[m.id := r];
    }
  }
}
