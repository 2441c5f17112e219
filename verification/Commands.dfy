/** Signed commands: the server's command table, the lossy link to each agent and the
    agents' memo of results. */
module Commands {
  import opened Common

  type CommandId = nat
  type DeviceId = nat
  type ConnId = nat
  type ProcessId = nat

  const DEFAULT_TTL: Time := 24 * 3600
  const CLOCK_SKEW: Time := 5 * 60
  const SEND_BUFFER: nat := 64

  datatype Kind = Ping | RefreshInventory | RotateCertificate | Uninstall | UpdateAgent | Unspecified

  datatype State = Pending | Sent | Succeeded | Failed | Expired

  datatype Command = Command(device: DeviceId, kind: Kind, expiresAt: Time, state: State,
                             result: string, completedAt: Option<Time>)

  type Table = map<CommandId, Command>

  /** What the agent verifies: the signature covers all of it. */
  datatype Message = Message(id: CommandId, kind: Kind, device: DeviceId, expiresAt: Time)

  datatype Result = Result(success: bool, message: string)

  predicate IsOpen(c: Command) { c.state == Pending || c.state == Sent }

  // ---- The store's statements ----------------------------------------------------------

  function Created(device: DeviceId, kind: Kind, now: Time): Command {
    Command(device, kind, now + DEFAULT_TTL, Pending, "", None)
  }

  function MarkedSent(t: Table, id: CommandId): Table {
    if id in t && t[id].state == Pending then t[id := t[id].(state := Sent)] else t
  }

  function Completed(t: Table, device: DeviceId, id: CommandId, r: Result, now: Time): Table {
    if id in t && t[id].device == device && IsOpen(t[id])
    then t[id := t[id].(state := if r.success then Succeeded else Failed, result := r.message, completedAt := Some(now))]
    else t
  }

  function ExpiredAt(c: Command, now: Time): Command {
    if IsOpen(c) && c.expiresAt <= now then c.(state := Expired) else c
  }

  function Swept(t: Table, now: Time): Table {
    map id | id in t :: ExpiredAt(t[id], now)
  }

  function MessageOf(t: Table, id: CommandId): Message
    requires id in t
  {
    Message(id, t[id].kind, t[id].device, t[id].expiresAt)
  }

  // ---- The agent --------------------------------------------------------------------------

  predicate Accepts(device: DeviceId, m: Message, now: Time) {
    m.device == device && now <= m.expiresAt + CLOCK_SKEW
  }

  /** The result of running a command whose action ended with `error`. */
  function ResultOf(kind: Kind, error: Option<string>): Result {
    match kind
    case Ping => Result(true, "pong")
    case Unspecified => Result(false, "unsupported command")
    case _ => if error.Some? then Result(false, error.value) else Result(true, "done")
  }

  // ---- Server, links and agents together --------------------------------------------------

  /** An agent process handles one command at a time. `runs` records every action it
      started, `ends` how each one ended (an error, or none), `seen` its memo. */
  datatype Process = Process(device: DeviceId, running: Option<Message>, seen: map<CommandId, Result>,
                             runs: multiset<CommandId>, ends: map<CommandId, Option<string>>)

  datatype Conn = Conn(device: DeviceId, buffer: seq<Message>)

  datatype Report = Report(device: DeviceId, id: CommandId, result: Result)

  /** `hub` names the live connection of a device; older connections may still hold
      messages. `unmarked` are sends whose state update has not happened yet. `reports`
      only grows: a report may be recorded late, repeatedly or never. */
  datatype World = World(clock: Time, table: Table, hub: map<DeviceId, ConnId>, conns: map<ConnId, Conn>,
                         unmarked: set<CommandId>, processes: map<ProcessId, Process>,
                         agents: map<DeviceId, ProcessId>, reports: set<Report>)

  datatype Step =
    | Advance(to: Time)
    | Issue(id: CommandId, device: DeviceId, kind: Kind)
    | Send(id: CommandId)
    | MarkSent(id: CommandId)
    | Connect(device: DeviceId, conn: ConnId)
    | Disconnect(device: DeviceId)
    | Lose(conn: ConnId)
    | Receive(conn: ConnId)
    | FinishRun(process: ProcessId, error: Option<string>)
    | Restart(device: DeviceId, process: ProcessId)
    | Record(report: Report)
    | Sweep

  /** `Send` may repeat and may come from a list read before the command was finished. */
  ghost predicate Enabled(s: World, step: Step) {
    match step
    case Advance(to) => s.clock <= to
    case Issue(id, _, _) => id !in s.table
    case Send(id) => id in s.table && s.table[id].kind != Unspecified
    case MarkSent(id) => id in s.unmarked
    case Connect(_, conn) => conn !in s.conns
    case Lose(conn) => conn in s.conns && s.conns[conn].buffer != []
    case Receive(conn) =>
      && conn in s.conns && s.conns[conn].buffer != []
      && s.conns[conn].device in s.agents && s.agents[s.conns[conn].device] in s.processes
      && s.processes[s.agents[s.conns[conn].device]].running == None
    case FinishRun(process, _) => process in s.processes && s.processes[process].running.Some?
    case Restart(_, process) => process !in s.processes
    case Record(report) => report in s.reports
    case _ => true
  }

  function Dropped(s: World, conn: ConnId): World
    requires conn in s.conns && s.conns[conn].buffer != []
  {
    s.(conns := s.conns[conn := s.conns[conn].(buffer := s.conns[conn].buffer[1..])])
  }

  /** The executor's entry: a command seen before is answered from the memo. */
  function Handled(s: World, p: ProcessId, m: Message): World
    requires p in s.processes
  {
    var a := s.processes[p];
    if !Accepts(a.device, m, s.clock) then s
    else if m.id in a.seen then s.(reports := s.reports + {Report(a.device, m.id, a.seen[m.id])})
    else s.(processes := s.processes[p := a.(running := Some(m), runs := a.runs + multiset{m.id})])
  }

  /** The process after the action of its current command ended with `error`. */
  function Ended(a: Process, error: Option<string>): Process
    requires a.running.Some?
  {
    var m := a.running.value;
    a.(running := None, seen := a.seen[m.id := ResultOf(m.kind, error)], ends := a.ends[m.id := error])
  }

  function EndRun(s: World, p: ProcessId, error: Option<string>): World
    requires p in s.processes && s.processes[p].running.Some?
  {
    var a := s.processes[p];
    var m := a.running.value;
    s.(processes := s.processes[p := Ended(a, error)],
       reports := s.reports + {Report(a.device, m.id, ResultOf(m.kind, error))})
  }

  ghost function Apply(s: World, step: Step): World
    requires Enabled(s, step)
  {
    match step
    case Advance(to) => s.(clock := to)
    case Issue(id, device, kind) => s.(table := s.table[id := Created(device, kind, s.clock)])
    case Send(id) =>
      var m := MessageOf(s.table, id);
      if m.device in s.hub && s.hub[m.device] in s.conns && |s.conns[s.hub[m.device]].buffer| < SEND_BUFFER then
        var c := s.conns[s.hub[m.device]];
        s.(conns := s.conns[s.hub[m.device] := c.(buffer := c.buffer + [m])], unmarked := s.unmarked + {id})
      else s
    case MarkSent(id) => s.(table := MarkedSent(s.table, id), unmarked := s.unmarked - {id})
    case Connect(device, conn) => s.(hub := s.hub[device := conn], conns := s.conns[conn := Conn(device, [])])
    case Disconnect(device) => s.(hub := s.hub - {device})
    case Lose(conn) => Dropped(s, conn)
    case Receive(conn) => Handled(Dropped(s, conn), s.agents[s.conns[conn].device], s.conns[conn].buffer[0])
    case FinishRun(process, error) => EndRun(s, process, error)
    case Restart(device, process) =>
      s.(agents := s.agents[device := process], processes := s.processes[process := Process(device, None, map[], multiset{}, map[])])
    case Record(report) => s.(table := Completed(s.table, report.device, report.id, report.result, s.clock))
    case Sweep => s.(table := Swept(s.table, s.clock))
  }

  ghost predicate Run(s: World, steps: seq<Step>)
    decreases |steps|
  {
    steps == [] || (Enabled(s, steps[0]) && Run(Apply(s, steps[0]), steps[1..]))
  }

  ghost function Final(s: World, steps: seq<Step>): World
    requires Run(s, steps)
    decreases |steps|
  {
    if steps == [] then s else Final(Apply(s, steps[0]), steps[1..])
  }

  const START := World(0, map[], map[], map[], {}, map[], map[], {})

  // ---- What every step keeps ----------------------------------------------------------------

  /** A message in flight names a stored command of a known kind and agrees with it. */
  ghost predicate Genuine(t: Table, m: Message) {
    m.id in t && m == MessageOf(t, m.id) && m.kind != Unspecified
  }

  /** What an agent answers about an action that ended with `error`: a ping is answered at
      once, any other command succeeds exactly if its action ended without an error. */
  ghost predicate Answers(kind: Kind, error: Option<string>, r: Result) {
    if kind == Ping then r.success && r.message == "pong"
    else if error == None then r.success && r.message == "done"
    else !r.success && r.message == error.value
  }

  /** A process runs each command at most once, and only commands addressed to it; the
      memo holds what it has finished. */
  ghost predicate ProcessOk(t: Table, a: Process) {
    && (forall id :: id in a.runs ==> a.runs[id] == 1 && id in t && t[id].device == a.device)
    && (forall id :: id in a.seen ==>
          id in a.runs && id in a.ends && id in t && t[id].kind != Unspecified && Answers(t[id].kind, a.ends[id], a.seen[id]))
    && (forall id :: id in a.runs ==> id in a.seen || (a.running.Some? && a.running.value.id == id))
    && (a.running.Some? ==>
          && Genuine(t, a.running.value)
          && a.running.value.id in a.runs
          && a.running.value.id !in a.seen)
  }

  /** The report repeats the memo of some process of that device. */
  ghost predicate Witnessed(s: World, device: DeviceId, id: CommandId, r: Result) {
    exists p :: p in s.processes && s.processes[p].device == device && id in s.processes[p].seen && s.processes[p].seen[id] == r
  }

  ghost predicate RecordOk(s: World, id: CommandId, c: Command) {
    && (c.state == Succeeded || c.state == Failed ==> Witnessed(s, c.device, id, Result(c.state == Succeeded, c.result)))
    && (c.state == Sent || id in s.unmarked ==> c.kind != Unspecified)
  }

  ghost predicate Inv(s: World) {
    && (forall k, i :: k in s.conns && 0 <= i < |s.conns[k].buffer| ==> Genuine(s.table, s.conns[k].buffer[i]))
    && (forall p :: p in s.processes ==> ProcessOk(s.table, s.processes[p]))
    && (forall r :: r in s.reports ==> Witnessed(s, r.device, r.id, r.result))
    && (forall id :: id in s.table ==> RecordOk(s, id, s.table[id]))
    && (forall id :: id in s.unmarked ==> id in s.table)
  }

  /** The table only gains commands, and a stored command keeps its message. */
  ghost predicate TableGrows(a: Table, b: Table) {
    forall id :: id in a ==> id in b && MessageOf(b, id) == MessageOf(a, id)
  }

  /** Processes only gain memo entries. */
  ghost predicate MemoGrows(a: World, b: World) {
    forall p :: p in a.processes ==>
      && p in b.processes
      && b.processes[p].device == a.processes[p].device
      && (forall id :: id in a.processes[p].seen ==>
            id in b.processes[p].seen && b.processes[p].seen[id] == a.processes[p].seen[id])
  }

  lemma {:induction false} WitnessKept(a: World, b: World, device: DeviceId, id: CommandId, r: Result)
    requires MemoGrows(a, b) && Witnessed(a, device, id, r)
    ensures Witnessed(b, device, id, r)
  {
    var p :| p in a.processes && a.processes[p].device == device && id in a.processes[p].seen && a.processes[p].seen[id] == r;
    assert p in b.processes;
  }

  lemma {:induction false} ProcessKept(a: Table, b: Table, p: Process)
    requires TableGrows(a, b) && ProcessOk(a, p)
    ensures ProcessOk(b, p)
  {
  }

  /** A step that changes only the clock, the hub and the links. */
  lemma {:induction false} LinksKeepInv(s: World, t: World)
    requires Inv(s)
    requires t.table == s.table && t.processes == s.processes && t.reports == s.reports
    requires forall k, i :: k in t.conns && 0 <= i < |t.conns[k].buffer| ==> Genuine(s.table, t.conns[k].buffer[i])
    requires forall id :: id in t.unmarked ==> id in s.unmarked || (id in s.table && s.table[id].kind != Unspecified)
    ensures Inv(t)
  {
    forall r | r in t.reports
      ensures Witnessed(t, r.device, r.id, r.result)
    {
      WitnessKept(s, t, r.device, r.id, r.result);
    }
    forall id | id in t.table
      ensures RecordOk(t, id, t.table[id])
    {
      assert RecordOk(s, id, s.table[id]);
      if t.table[id].state == Succeeded || t.table[id].state == Failed {
        WitnessKept(s, t, t.table[id].device, id, Result(t.table[id].state == Succeeded, t.table[id].result));
      }
    }
  }

  /** A step that changes only the command table, and the list of unmarked sends. */
  lemma {:induction false} TableKeepsInv(s: World, t: World)
    requires Inv(s)
    requires t.conns == s.conns && t.processes == s.processes && t.reports == s.reports && t.unmarked <= s.unmarked
    requires TableGrows(s.table, t.table)
    requires forall id :: id in t.table ==> RecordOk(s, id, t.table[id])
    ensures Inv(t)
  {
    forall p | p in t.processes
      ensures ProcessOk(t.table, t.processes[p])
    {
      ProcessKept(s.table, t.table, s.processes[p]);
    }
    forall r | r in t.reports
      ensures Witnessed(t, r.device, r.id, r.result)
    {
      WitnessKept(s, t, r.device, r.id, r.result);
    }
    forall id | id in t.table
      ensures RecordOk(t, id, t.table[id])
    {
      if t.table[id].state == Succeeded || t.table[id].state == Failed {
        WitnessKept(s, t, t.table[id].device, id, Result(t.table[id].state == Succeeded, t.table[id].result));
      }
    }
  }

  /** A step that changes one process and may add one witnessed report. */
  lemma {:induction false} ProcessKeepsInv(s: World, t: World, p: ProcessId)
    requires Inv(s)
    requires t.table == s.table && t.conns == s.conns && t.unmarked == s.unmarked
    requires p in t.processes && t.processes == s.processes[p := t.processes[p]]
    requires ProcessOk(s.table, t.processes[p]) && MemoGrows(s, t)
    requires forall r :: r in t.reports ==> r in s.reports || Witnessed(t, r.device, r.id, r.result)
    ensures Inv(t)
  {
    forall r | r in t.reports
      ensures Witnessed(t, r.device, r.id, r.result)
    {
      if r in s.reports {
        WitnessKept(s, t, r.device, r.id, r.result);
      }
    }
    forall id | id in t.table
      ensures RecordOk(t, id, t.table[id])
    {
      assert RecordOk(s, id, s.table[id]);
      if t.table[id].state == Succeeded || t.table[id].state == Failed {
        WitnessKept(s, t, t.table[id].device, id, Result(t.table[id].state == Succeeded, t.table[id].result));
      }
    }
  }

  lemma {:induction false} SendKeepsInv(s: World, id: CommandId)
    requires Inv(s) && Enabled(s, Send(id))
    ensures Inv(Apply(s, Send(id)))
  {
    LinksKeepInv(s, Apply(s, Send(id)));
  }

  lemma {:induction false} DropKeepsInv(s: World, conn: ConnId)
    requires Inv(s) && conn in s.conns && s.conns[conn].buffer != []
    ensures Inv(Dropped(s, conn))
  {
    var t := Dropped(s, conn);
    forall k, i | k in t.conns && 0 <= i < |t.conns[k].buffer|
      ensures Genuine(s.table, t.conns[k].buffer[i])
    {
      if k == conn {
        assert t.conns[k].buffer[i] == s.conns[k].buffer[i + 1];
      }
    }
    LinksKeepInv(s, t);
  }

  /** An idle process may start a genuine command it has not seen. */
  lemma {:induction false} StartIsOk(t: Table, a: Process, m: Message)
    requires ProcessOk(t, a) && a.running == None && Genuine(t, m) && m.device == a.device && m.id !in a.seen
    ensures ProcessOk(t, a.(running := Some(m), runs := a.runs + multiset{m.id}))
  {
    assert m.id !in a.runs;
  }

  lemma {:induction false} StartKeepsInv(s: World, p: ProcessId, a: Process)
    requires Inv(s) && p in s.processes && ProcessOk(s.table, a)
    requires a.device == s.processes[p].device && a.seen == s.processes[p].seen
    ensures Inv(s.(processes := s.processes[p := a]))
  {
    var t := s.(processes := s.processes[p := a]);
    OneMemoGrows(s, t, p);
    ProcessKeepsInv(s, t, p);
  }

  /** What rests on the processes and the unmarked sends alone. */
  lemma {:induction false} SameProcesses(s: World, t: World, id: CommandId, c: Command)
    requires t.processes == s.processes && t.unmarked == s.unmarked && RecordOk(s, id, c)
    ensures RecordOk(t, id, c)
  {
    if c.state == Succeeded || c.state == Failed {
      WitnessKept(s, t, c.device, id, Result(c.state == Succeeded, c.result));
    }
  }

  lemma {:induction false} WitnessIs(s: World, p: ProcessId, r: Report)
    requires p in s.processes && s.processes[p].device == r.device
    requires r.id in s.processes[p].seen && s.processes[p].seen[r.id] == r.result
    ensures Witnessed(s, r.device, r.id, r.result)
  {
  }

  lemma {:induction false} SameWitness(s: World, t: World, r: Report)
    requires t.processes == s.processes && Witnessed(s, r.device, r.id, r.result)
    ensures Witnessed(t, r.device, r.id, r.result)
  {
    WitnessKept(s, t, r.device, r.id, r.result);
  }

  lemma {:induction false} ReportKeepsInv(s: World, r: Report)
    requires Inv(s) && Witnessed(s, r.device, r.id, r.result)
    ensures Inv(s.(reports := s.reports + {r}))
  {
    var t := s.(reports := s.reports + {r});
    forall x | x in t.reports
      ensures Witnessed(t, x.device, x.id, x.result)
    {
      SameWitness(s, t, x);
    }
    forall id | id in t.table
      ensures RecordOk(t, id, t.table[id])
    {
      SameProcesses(s, t, id, s.table[id]);
    }
  }

  lemma {:induction false} HandleKeepsInv(s: World, p: ProcessId, m: Message)
    requires Inv(s) && p in s.processes && s.processes[p].running == None && Genuine(s.table, m)
    ensures Inv(Handled(s, p, m))
  {
    var a := s.processes[p];
    if Accepts(a.device, m, s.clock) {
      if m.id in a.seen {
        WitnessIs(s, p, Report(a.device, m.id, a.seen[m.id]));
        ReportKeepsInv(s, Report(a.device, m.id, a.seen[m.id]));
      } else {
        assert ProcessOk(s.table, a);
        StartIsOk(s.table, a, m);
        StartKeepsInv(s, p, a.(running := Some(m), runs := a.runs + multiset{m.id}));
      }
    }
  }

  lemma {:induction false} EndedIsOk(t: Table, a: Process, error: Option<string>)
    requires ProcessOk(t, a) && a.running.Some?
    ensures ProcessOk(t, Ended(a, error))
    ensures forall id :: id in a.seen ==> id in Ended(a, error).seen && Ended(a, error).seen[id] == a.seen[id]
  {
    var m := a.running.value;
    assert Answers(m.kind, error, ResultOf(m.kind, error));
  }

  lemma {:induction false} OneMemoGrows(s: World, t: World, p: ProcessId)
    requires p in s.processes && p in t.processes && t.processes == s.processes[p := t.processes[p]]
    requires t.processes[p].device == s.processes[p].device
    requires forall id :: id in s.processes[p].seen ==> id in t.processes[p].seen && t.processes[p].seen[id] == s.processes[p].seen[id]
    ensures MemoGrows(s, t)
  {
  }

  lemma {:induction false} FinishKeepsInv(s: World, p: ProcessId, error: Option<string>)
    requires Inv(s) && p in s.processes && s.processes[p].running.Some?
    ensures Inv(EndRun(s, p, error))
  {
    var a := s.processes[p];
    var u := s.(processes := s.processes[p := Ended(a, error)]);
    EndedIsOk(s.table, a, error);
    OneMemoGrows(s, u, p);
    ProcessKeepsInv(s, u, p);
    var r := Report(a.device, a.running.value.id, ResultOf(a.running.value.kind, error));
    WitnessIs(u, p, r);
    ReportKeepsInv(u, r);
  }

  lemma {:induction false} NewMemoGrows(s: World, t: World, p: ProcessId, a: Process)
    requires p !in s.processes && t.processes == s.processes[p := a]
    ensures MemoGrows(s, t)
  {
  }

  lemma {:induction false} RestartKeepsInv(s: World, device: DeviceId, p: ProcessId)
    requires Inv(s) && Enabled(s, Restart(device, p))
    ensures Inv(Apply(s, Restart(device, p)))
  {
    var t, a := Apply(s, Restart(device, p)), Process(device, None, map[], multiset{}, map[]);
    NewMemoGrows(s, t, p, a);
    assert ProcessOk(s.table, a);
    ProcessKeepsInv(s, t, p);
  }

  lemma {:induction false} CompletedIsOk(s: World, report: Report, id: CommandId)
    requires id in s.table && RecordOk(s, id, s.table[id]) && Witnessed(s, report.device, report.id, report.result)
    ensures id in Completed(s.table, report.device, report.id, report.result, s.clock)
    ensures RecordOk(s, id, Completed(s.table, report.device, report.id, report.result, s.clock)[id])
  {
    assert Result(report.result.success, report.result.message) == report.result;
  }

  /** Only a report of a process that ran the command can finish it. */
  lemma {:induction false} RecordKeepsInv(s: World, report: Report)
    requires Inv(s) && report in s.reports
    ensures Inv(s.(table := Completed(s.table, report.device, report.id, report.result, s.clock)))
  {
    var t := s.(table := Completed(s.table, report.device, report.id, report.result, s.clock));
    forall id | id in t.table
      ensures RecordOk(s, id, t.table[id])
    {
      CompletedIsOk(s, report, id);
    }
    TableKeepsInv(s, t);
  }

  lemma {:induction false} IssueKeepsInv(s: World, id: CommandId, device: DeviceId, kind: Kind)
    requires Inv(s) && id !in s.table
    ensures Inv(s.(table := s.table[id := Created(device, kind, s.clock)]))
  {
    var t := s.(table := s.table[id := Created(device, kind, s.clock)]);
    assert id !in s.unmarked;
    forall x | x in t.table
      ensures RecordOk(s, x, t.table[x])
    {
      assert x == id || RecordOk(s, x, s.table[x]);
    }
    TableKeepsInv(s, t);
  }

  lemma {:induction false} MarkKeepsInv(s: World, id: CommandId)
    requires Inv(s) && id in s.unmarked
    ensures Inv(s.(table := MarkedSent(s.table, id), unmarked := s.unmarked - {id}))
  {
    var t := s.(table := MarkedSent(s.table, id), unmarked := s.unmarked - {id});
    forall x | x in t.table
      ensures RecordOk(s, x, t.table[x])
    {
      assert RecordOk(s, x, s.table[x]);
    }
    TableKeepsInv(s, t);
  }

  lemma {:induction false} SweepKeepsInv(s: World)
    requires Inv(s)
    ensures Inv(s.(table := Swept(s.table, s.clock)))
  {
    var t := s.(table := Swept(s.table, s.clock));
    forall x | x in t.table
      ensures RecordOk(s, x, t.table[x])
    {
      assert RecordOk(s, x, s.table[x]);
    }
    TableKeepsInv(s, t);
  }

  lemma {:induction false} StepKeepsInv(s: World, step: Step)
    requires Inv(s) && Enabled(s, step)
    ensures Inv(Apply(s, step))
  {
    match step
    case Send(id) => SendKeepsInv(s, id);
    case Lose(conn) => DropKeepsInv(s, conn);
    case Receive(conn) =>
      var m := s.conns[conn].buffer[0];
      assert Genuine(s.table, m);
      DropKeepsInv(s, conn);
      HandleKeepsInv(Dropped(s, conn), s.agents[s.conns[conn].device], m);
    case FinishRun(p, error) => FinishKeepsInv(s, p, error);
    case Restart(device, p) => RestartKeepsInv(s, device, p);
    case Record(report) => RecordKeepsInv(s, report);
    case Issue(id, device, kind) => IssueKeepsInv(s, id, device, kind);
    case MarkSent(id) => MarkKeepsInv(s, id);
    case Sweep => SweepKeepsInv(s);
    case Advance(_) => LinksKeepInv(s, Apply(s, step));
    case Connect(_, _) => LinksKeepInv(s, Apply(s, step));
    case Disconnect(_) => LinksKeepInv(s, Apply(s, step));
  }

  // ---- Whole runs ------------------------------------------------------------------------------

  lemma {:induction false} RunKeepsInv(s: World, steps: seq<Step>)
    requires Inv(s) && Run(s, steps)
    ensures Inv(Final(s, steps))
    decreases |steps|
  {
    if steps != [] {
      StepKeepsInv(s, steps[0]);
      RunKeepsInv(Apply(s, steps[0]), steps[1..]);
    }
  }

  /** Under any interleaving of sends, losses, redeliveries, late marks, repeated reports,
      restarts and sweeps: an agent process starts a command's action at most once and only
      if it is addressed to its device, and a recorded success or failure, with its message,
      is what the one run of it in some process of that device returned. */
  lemma {:induction false} CommandProtocol(steps: seq<Step>)
    requires Run(START, steps)
    ensures var s := Final(START, steps);
      && (forall p, id :: p in s.processes && id in s.processes[p].runs ==>
            s.processes[p].runs[id] == 1 && id in s.table && s.table[id].device == s.processes[p].device)
      && (forall id :: id in s.table && (s.table[id].state == Succeeded || s.table[id].state == Failed) ==>
            exists p :: && p in s.processes && s.processes[p].device == s.table[id].device
                        && id in s.processes[p].runs && id in s.processes[p].seen
                        && s.processes[p].seen[id] == Result(s.table[id].state == Succeeded, s.table[id].result))
  {
    RunKeepsInv(START, steps);
    var s := Final(START, steps);
    forall p, id | p in s.processes && id in s.processes[p].runs
      ensures s.processes[p].runs[id] == 1 && id in s.table && s.table[id].device == s.processes[p].device
    {
      assert ProcessOk(s.table, s.processes[p]);
    }
    forall id | id in s.table && (s.table[id].state == Succeeded || s.table[id].state == Failed)
      ensures exists p :: && p in s.processes && s.processes[p].device == s.table[id].device
                          && id in s.processes[p].runs && id in s.processes[p].seen
                          && s.processes[p].seen[id] == Result(s.table[id].state == Succeeded, s.table[id].result)
    {
      assert RecordOk(s, id, s.table[id]);
      var p :| && p in s.processes && s.processes[p].device == s.table[id].device && id in s.processes[p].seen
               && s.processes[p].seen[id] == Result(s.table[id].state == Succeeded, s.table[id].result);
      assert ProcessOk(s.table, s.processes[p]);
    }
  }

  /** The process that stands behind a recorded result. */
  lemma {:induction false} WitnessEnds(s: World, id: CommandId) returns (p: ProcessId)
    requires id in s.table && forall q :: q in s.processes ==> ProcessOk(s.table, s.processes[q])
    requires Witnessed(s, s.table[id].device, id, Result(s.table[id].state == Succeeded, s.table[id].result))
    ensures var c := s.table[id];
      && c.kind != Unspecified
      && p in s.processes && s.processes[p].device == c.device && s.processes[p].runs[id] == 1 && id in s.processes[p].ends
      && Answers(c.kind, s.processes[p].ends[id], Result(c.state == Succeeded, c.result))
  {
    p :| && p in s.processes && s.processes[p].device == s.table[id].device && id in s.processes[p].seen
         && s.processes[p].seen[id] == Result(s.table[id].state == Succeeded, s.table[id].result);
    assert ProcessOk(s.table, s.processes[p]);
  }

  /** In every run a command is recorded as succeeded only if it is a ping, or its one run in a
      process of its device ended without an error; and as failed only if that run ended with
      an error, whose text is the stored result. */
  lemma {:induction false} RecordedAsEnded(steps: seq<Step>, id: CommandId)
    requires Run(START, steps) && id in Final(START, steps).table
    requires Final(START, steps).table[id].state == Succeeded || Final(START, steps).table[id].state == Failed
    ensures var s := Final(START, steps);
      var c := s.table[id];
      && c.kind != Unspecified
      && exists p :: && p in s.processes && s.processes[p].device == c.device
                     && s.processes[p].runs[id] == 1 && id in s.processes[p].ends
                     && (c.kind == Ping ==> c.state == Succeeded && c.result == "pong")
                     && (c.kind != Ping && c.state == Succeeded ==> s.processes[p].ends[id] == None && c.result == "done")
                     && (c.kind != Ping && c.state == Failed ==> s.processes[p].ends[id] == Some(c.result))
  {
    RunKeepsInv(START, steps);
    var s := Final(START, steps);
    assert RecordOk(s, id, s.table[id]);
    var p := WitnessEnds(s, id);
  }

  /** A delivered command starts its action if and only if it is addressed to the device of
      the process, its time ran out at most five minutes ago, and it was not finished before. */
  lemma {:induction false} ReceiveStarts(s: World, conn: ConnId)
    requires Enabled(s, Receive(conn))
    ensures var t, p, m := Apply(s, Receive(conn)), s.agents[s.conns[conn].device], s.conns[conn].buffer[0];
      var a := s.processes[p];
      var starts := m.device == a.device && s.clock <= m.expiresAt + 300 && m.id !in a.seen;
      && p in t.processes && t.table == s.table
      && t.processes[p].runs == (if starts then a.runs + multiset{m.id} else a.runs)
      && t.processes[p].running == (if starts then Some(m) else None)
  {
  }

  /** What the statements write, column by column: a new command is pending for a day; only a
      pending one becomes sent; a report finishes an open command of the reporting device and
      nothing else, as a success or a failure as it says. */
  lemma {:induction false} StatementsWrite(s: World, step: Step, id: CommandId)
    requires Enabled(s, step) && id in Apply(s, step).table
    ensures var c := Apply(s, step).table[id];
      && (step.Issue? && id == step.id ==>
            c == Command(step.device, step.kind, s.clock + 86400, Pending, "", None))
      && (id !in s.table ==> step.Issue? && id == step.id)
      && (id in s.table ==>
            var was := s.table[id];
            var open := was.state == Pending || was.state == Sent;
            && c.device == was.device && c.kind == was.kind && c.expiresAt == was.expiresAt
            && (step.Record? && step.report.id == id && step.report.device == was.device && open ==>
                  && (step.report.result.success ==> c.state == Succeeded)
                  && (!step.report.result.success ==> c.state == Failed)
                  && c.result == step.report.result.message && c.completedAt == Some(s.clock))
            && (step.Sweep? && open && was.expiresAt <= s.clock ==> c == was.(state := Expired))
            && (step.MarkSent? && step.id == id && was.state == Pending ==> c == was.(state := Sent))
            && (c != was ==>
                  || (step.Record? && step.report.id == id && step.report.device == was.device && open)
                  || (step.Sweep? && open && was.expiresAt <= s.clock)
                  || (step.MarkSent? && step.id == id && was.state == Pending)))
  {
  }

  ghost predicate FitsBuffers(conns: map<ConnId, Conn>) {
    forall k :: k in conns ==> |conns[k].buffer| <= 64
  }

  lemma {:induction false} HandledKeepsConns(s: World, p: ProcessId, m: Message)
    requires p in s.processes
    ensures Handled(s, p, m).conns == s.conns
  {
  }

  lemma {:induction false} StepFitsBuffers(s: World, step: Step)
    requires Enabled(s, step) && FitsBuffers(s.conns)
    ensures FitsBuffers(Apply(s, step).conns)
  {
    if step.Receive? {
      HandledKeepsConns(Dropped(s, step.conn), s.agents[s.conns[step.conn].device], s.conns[step.conn].buffer[0]);
    }
  }

  /** No run makes a link hold more than 64 messages. */
  lemma {:induction false} LinksAreBounded(s: World, steps: seq<Step>)
    requires Run(s, steps) && FitsBuffers(s.conns)
    ensures forall k :: k in Final(s, steps).conns ==> |Final(s, steps).conns[k].buffer| <= 64
    decreases |steps|
  {
    if steps != [] {
      StepFitsBuffers(s, steps[0]);
      LinksAreBounded(Apply(s, steps[0]), steps[1..]);
    }
  }

  lemma {:induction false} StepKeepsTerminal(s: World, step: Step, id: CommandId)
    requires Enabled(s, step) && id in s.table && !IsOpen(s.table[id])
    ensures id in Apply(s, step).table && Apply(s, step).table[id] == s.table[id]
  {
  }

  /** A finished command never changes again, in any column. */
  lemma {:induction false} TerminalIsFinal(s: World, steps: seq<Step>, id: CommandId)
    requires Run(s, steps) && id in s.table && !IsOpen(s.table[id])
    ensures id in Final(s, steps).table && Final(s, steps).table[id] == s.table[id]
    decreases |steps|
  {
    if steps != [] {
      StepKeepsTerminal(s, steps[0], id);
      TerminalIsFinal(Apply(s, steps[0]), steps[1..], id);
    }
  }

  lemma {:induction false} HandledKeepsMemo(s: World, q: ProcessId, m: Message, p: ProcessId, id: CommandId)
    requires q in s.processes && p in s.processes && id in s.processes[p].seen
    ensures var t := Handled(s, q, m);
      && p in t.processes && id in t.processes[p].seen
      && t.processes[p].seen[id] == s.processes[p].seen[id] && t.processes[p].runs[id] == s.processes[p].runs[id]
  {
  }

  lemma {:induction false} OthersKeepProcesses(s: World, step: Step)
    requires Enabled(s, step) && !step.Receive? && !step.FinishRun? && !step.Restart?
    ensures Apply(s, step).processes == s.processes
  {
  }

  lemma {:induction false} FinishKeepsMemo(s: World, q: ProcessId, error: Option<string>, p: ProcessId, id: CommandId)
    requires Inv(s) && q in s.processes && s.processes[q].running.Some? && p in s.processes && id in s.processes[p].seen
    ensures var t := EndRun(s, q, error);
      && p in t.processes && id in t.processes[p].seen
      && t.processes[p].seen[id] == s.processes[p].seen[id] && t.processes[p].runs[id] == s.processes[p].runs[id]
  {
    EndedIsOk(s.table, s.processes[q], error);
  }

  lemma {:induction false} StepKeepsMemo(s: World, step: Step, p: ProcessId, id: CommandId)
    requires Inv(s) && Enabled(s, step) && p in s.processes && id in s.processes[p].seen
    ensures p in Apply(s, step).processes && id in Apply(s, step).processes[p].seen
    ensures Apply(s, step).processes[p].seen[id] == s.processes[p].seen[id]
    ensures Apply(s, step).processes[p].runs[id] == s.processes[p].runs[id]
  {
    if step.Receive? {
      HandledKeepsMemo(Dropped(s, step.conn), s.agents[s.conns[step.conn].device], s.conns[step.conn].buffer[0], p, id);
    } else if step.FinishRun? {
      FinishKeepsMemo(s, step.process, step.error, p, id);
    } else if !step.Restart? {
      OthersKeepProcesses(s, step);
    }
  }

  /** Receiving a command that the process has finished adds exactly the report of the memo. */
  ghost predicate Replays(t: World, conn: ConnId, p: ProcessId, id: CommandId, r: Result)
    requires Enabled(t, Receive(conn)) && p in t.processes
  {
    var m := t.conns[conn].buffer[0];
    t.agents[t.conns[conn].device] == p && m.id == id && Accepts(t.processes[p].device, m, t.clock) ==>
      Apply(t, Receive(conn)) == Dropped(t, conn).(reports := t.reports + {Report(t.processes[p].device, id, r)})
  }

  lemma {:induction false} MemoStays(s: World, steps: seq<Step>, p: ProcessId, id: CommandId)
    requires Inv(s) && Run(s, steps) && p in s.processes && id in s.processes[p].seen
    ensures p in Final(s, steps).processes && id in Final(s, steps).processes[p].seen
    ensures Final(s, steps).processes[p].seen[id] == s.processes[p].seen[id]
    ensures Final(s, steps).processes[p].runs[id] == s.processes[p].runs[id]
    decreases |steps|
  {
    if steps != [] {
      StepKeepsMemo(s, steps[0], p, id);
      StepKeepsInv(s, steps[0]);
      MemoStays(Apply(s, steps[0]), steps[1..], p, id);
    }
  }

  lemma {:induction false} SeenIsReplayed(t: World, conn: ConnId, p: ProcessId, id: CommandId)
    requires Enabled(t, Receive(conn)) && p in t.processes && id in t.processes[p].seen
    ensures Replays(t, conn, p, id, t.processes[p].seen[id])
  {
  }

  /** Once a process has finished a command, every later delivery of it is answered with
      that first result and the action is not started again. */
  lemma {:induction false} MemoIsFinal(s: World, steps: seq<Step>, p: ProcessId, id: CommandId)
    requires Inv(s) && Run(s, steps) && p in s.processes && id in s.processes[p].seen
    ensures p in Final(s, steps).processes && id in Final(s, steps).processes[p].seen
    ensures Final(s, steps).processes[p].seen[id] == s.processes[p].seen[id]
    ensures Final(s, steps).processes[p].runs[id] == s.processes[p].runs[id]
    ensures forall conn :: Enabled(Final(s, steps), Receive(conn)) ==>
              Replays(Final(s, steps), conn, p, id, s.processes[p].seen[id])
  {
    MemoStays(s, steps, p, id);
    forall conn | Enabled(Final(s, steps), Receive(conn))
      ensures Replays(Final(s, steps), conn, p, id, s.processes[p].seen[id])
    {
      SeenIsReplayed(Final(s, steps), conn, p, id);
    }
  }

  /** A sweep closes exactly the open commands whose time has come. */
  lemma {:induction false} SweepCloses(s: World, id: CommandId)
    requires id in s.table
    ensures var t := Apply(s, Sweep).table;
      && id in t
      && (IsOpen(t[id]) <==> IsOpen(s.table[id]) && s.clock < s.table[id].expiresAt)
      && (t[id] != s.table[id] ==> t[id].state == Expired && t[id].result == s.table[id].result)
  {
  }
}
