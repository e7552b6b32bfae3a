/** A run of split steps in which a watermark passes an event that its node appends late. */
module TornEvents {
  import opened Text
  import opened Hlc
  import opened Model
  import opened EventLog
  import opened Pull
  import opened Cluster
  import opened Witnesses
  import opened Torn
  import opened TornLog

  /** B emits in millisecond 10; A ticks in millisecond 1 and appends much later. */
  const EARLY := LogEvent(A, 1, RunnerJoined, map[], HLC(1, 0))
  const RELAYED := LogEvent(B, 1, RunnerJoined, map[], HLC(10, 0))
  const JOIN := Emit(RunnerJoined, map[])

  const NO_MARKS := Request(map[], map[], ZERO, 0)

  /** The reply by which `server` sends `client` the one event it has. */
  ghost function Relay(client: Str, server: Str): Reply {
    Reply(Call(client, server, NO_MARKS), map[Event := ZERO], Response(server, [], map[], [RELAYED], 0))
  }

  ghost function Knowing(marks: Marks): Tables {
    Tables(map[], map[EventKeyOf(RELAYED) := RELAYED], marks)
  }

  ghost function BEmitted(): NodeState { NodeState(HLC(10, 0), Knowing(map[]), EPOCH, {}, [RELAYED], 10) }
  ghost function BHeard(): NodeState { BEmitted().(tables := Knowing(OneMark(A, Event, 10))) }
  ghost function ATicked(): NodeState { NodeState(HLC(1, 0), EMPTY, EPOCH, {}, [], 1) }
  ghost function AHeard(): NodeState { NodeState(HLC(10, 0), Knowing(OneMark(B, Event, 10)), EPOCH, {}, [], 1) }

  lemma FirstNumber(events: Events, n: Str)
    requires forall k :: k in events ==> k.runner != n
    ensures LastNum(events, n) == 0
  {
    assert KeysOf(events, n) == {};
  }

  lemma BEmits()
    ensures LocalNode(FRESH, B, 10, NoRow, JOIN) == BEmitted()
  {
    FirstNumber(EMPTY.events, B);
    assert EMPTY.rows + map[] == EMPTY.rows;
    assert [] + [RELAYED] == [RELAYED];
    var none: Rows := map[];
    assert none.Values == {};
  }

  lemma RelayIsAPart(client: Str, server: Str, t: Tables)
    requires t.rows == map[] && t.events == map[EventKeyOf(RELAYED) := RELAYED]
    ensures var rep := Relay(client, server); IsPart(t, rep.call.req, rep.starts, rep.resp)
  {
  }

  lemma TakeRelay(client: Str, server: Str, s: NodeState)
    requires s.tables.events == map[] || s.tables.events == map[EventKeyOf(RELAYED) := RELAYED]
    requires s.tables.rows == map[] && s.tables.marks == map[] && !After(s.clock, HLC(10, 0))
    ensures EventsTaken(s, Relay(client, server)) == s.(tables := Knowing(OneMark(server, Event, 10)), clock := HLC(10, 0))
  {
    var batch := [RELAYED];
    assert batch[..0] == [];
    assert InsertAll(s.tables.events, batch) == InsertEvent(InsertAll(s.tables.events, []), RELAYED);
    assert EventMax(ZERO, batch) == Max(EventMax(ZERO, []), RELAYED.hlc);
  }

  /** The steps: B emits, A ticks, A takes B's event, B takes it back from A, A appends. */
  ghost function LateSteps(): seq<TornStep> {
    [Whole(Local(B, 10, NoRow, JOIN)), TickOnly(A, 1),
     Whole(Ask(Relay(A, B).call)), Whole(Serve(Relay(A, B))), Whole(TakeEvents(Relay(A, B))),
     Whole(Ask(Relay(B, A).call)), Whole(Serve(Relay(B, A))), Whole(TakeEvents(Relay(B, A))),
     EmitLate(A, RunnerJoined, map[], HLC(1, 0))]
  }

  ghost function LateStart(): TornState { TornState(Duo(), {}, {}, {}, {}) }

  lemma BothTick() returns (states: seq<TornState>, d: TornState)
    ensures TornPath(states, LateSteps()[..2], LateStart(), d)
    ensures d.c.nodes == map[A := ATicked(), B := BEmitted()] && d.eventTicks == {(A, HLC(1, 0))}
  {
    BEmits();
    var t := TornDo(LateStart(), LateSteps()[0]);
    assert t.c.nodes == map[A := FRESH, B := BEmitted()];
    d := TornDo(t, LateSteps()[1]);
    assert d.c.nodes == map[A := ATicked(), B := BEmitted()];
    states := [LateStart(), t, d];
    assert TornStepAt(states, LateSteps()[..2], 0) && TornStepAt(states, LateSteps()[..2], 1);
  }

  /** One node takes the other's event. */
  lemma Relayed(t: TornState, client: Str, server: Str) returns (states: seq<TornState>, d: TornState)
    requires client in t.c.nodes && server in t.c.nodes
    requires t.c.nodes[server].tables.rows == map[] && t.c.nodes[server].tables.events == map[EventKeyOf(RELAYED) := RELAYED]
    requires t.c.nodes[client].tables.events == map[] || t.c.nodes[client].tables.events == map[EventKeyOf(RELAYED) := RELAYED]
    requires t.c.nodes[client].tables.rows == map[] && t.c.nodes[client].tables.marks == map[] && !After(t.c.nodes[client].clock, HLC(10, 0))
    requires !After(ZERO, Mark(t.c.nodes[client].tables.marks, server, Event))
    ensures var rep := Relay(client, server);
            TornPath(states, [Whole(Ask(rep.call)), Whole(Serve(rep)), Whole(TakeEvents(rep))], t, d)
    ensures d.c.nodes == t.c.nodes[client := t.c.nodes[client].(tables := Knowing(OneMark(server, Event, 10)), clock := HLC(10, 0))]
    ensures d.eventTicks == t.eventTicks
  {
    var rep := Relay(client, server);
    var steps := [Whole(Ask(rep.call)), Whole(Serve(rep)), Whole(TakeEvents(rep))];
    RelayIsAPart(client, server, t.c.nodes[server].tables);
    TakeRelay(client, server, t.c.nodes[client]);
    var asked := TornDo(t, steps[0]);
    var served := TornDo(asked, steps[1]);
    d := TornDo(served, steps[2]);
    states := [t, asked, served, d];
    assert TornStepAt(states, steps, 0) && TornStepAt(states, steps, 1) && TornStepAt(states, steps, 2);
  }

  lemma AppendsEarly(t: TornState) returns (states: seq<TornState>, d: TornState)
    requires t.c.nodes == map[A := AHeard(), B := BHeard()] && t.eventTicks == {(A, HLC(1, 0))}
    ensures TornPath(states, [EmitLate(A, RunnerJoined, map[], HLC(1, 0))], t, d)
    ensures A in d.c.nodes && B in d.c.nodes && d.c.nodes[A].log == [EARLY] && d.c.nodes[B] == BHeard()
  {
    FirstNumber(AHeard().tables.events, A);
    var step := EmitLate(A, RunnerJoined, map[], HLC(1, 0));
    states := TornOne(t, step);
    d := TornDo(t, step);
    assert [] + [EARLY] == [EARLY];
  }

  /** The relay in both directions, after the ticks. */
  lemma RelayedBothWays(t: TornState) returns (states: seq<TornState>, d: TornState)
    requires t.c.nodes == map[A := ATicked(), B := BEmitted()]
    ensures TornPath(states, LateSteps()[2..8], t, d)
    ensures d.c.nodes == map[A := AHeard(), B := BHeard()] && d.eventTicks == t.eventTicks
  {
    var s, m := Relayed(t, A, B);
    assert m.c.nodes == map[A := AHeard(), B := BEmitted()];
    var u, e := Relayed(m, B, A);
    assert e.c.nodes == map[A := AHeard(), B := BHeard()];
    var p := [Whole(Ask(Relay(A, B).call)), Whole(Serve(Relay(A, B))), Whole(TakeEvents(Relay(A, B)))];
    var q := [Whole(Ask(Relay(B, A).call)), Whole(Serve(Relay(B, A))), Whole(TakeEvents(Relay(B, A)))];
    states := TornJoin(s, p, u, q, t, m, e);
    assert p + q == LateSteps()[2..8];
    d := e;
  }

  lemma LateRun() returns (states: seq<TornState>)
    ensures IsTornRun(states, LateSteps()) && states[0] == LateStart()
    ensures var d := states[9].c;
            A in d.nodes && B in d.nodes && d.nodes[A].log == [EARLY] && d.nodes[B] == BHeard()
  {
    var s, m := BothTick();
    var u, e := RelayedBothWays(m);
    var v, d := AppendsEarly(e);
    var p, q, r := LateSteps()[..2], LateSteps()[2..8], [EmitLate(A, RunnerJoined, map[], HLC(1, 0))];
    var su := TornJoin(s, p, u, q, LateStart(), m, e);
    states := TornJoin(su, p + q, v, r, LateStart(), e, d);
    assert p + q + r == LateSteps();
  }

  /** A has one emitter, which ticks and then appends; in between, A hands B an event of B's
      own with a later stamp. B's watermark for A is then above A's event, which B lacks. */
  lemma LateEventIsSkipped() returns (states: seq<TornState>, steps: seq<TornStep>, e: LogEvent)
    ensures IsTornRun(states, steps) && TornInit(states[0]) && OneEmitter(states, steps)
    ensures var d := states[|steps|].c;
            && A in d.nodes && B in d.nodes && e in d.nodes[A].log
            && !After(e.hlc, Mark(d.nodes[B].tables.marks, A, Event)) && !HoldsEvent(d.nodes[B].tables.events, e)
  {
    StartsAreInit();
    states := LateRun();
    steps, e := LateSteps(), EARLY;
    assert TornStepAt(states, steps, 0);
    assert AppendsInTurn(states, steps, 1, 8);
  }
}
