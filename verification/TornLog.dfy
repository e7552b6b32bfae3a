/** The event log over runs of split steps: numbering holds in all of them, order and
    completeness where emissions keep to what was heard, and a lock is enough for that. */
module TornLog {
  import opened Text
  import opened Hlc
  import opened Model
  import opened Merge
  import opened EventLog
  import opened Sync
  import opened Cluster
  import opened Dominance
  import opened Coverage
  import opened LogInvariant
  import opened LogConvergence
  import opened Torn
  import opened TornRuns
  import opened TornCoverage

  // ------------------------------------------------------------ kinds of steps

  /** The events a step emits, and the node that emits them. */
  ghost function Emits(t: TornState, step: TornStep): seq<LogEvent> {
    match step
    case Whole(Local(n, now, _, emission)) =>
      if n in t.c.nodes then Emitted(t.c.nodes[n].tables.events, n, emission, TickFrom(t.c.nodes[n].clock, now)) else []
    case EmitLate(n, kind, payload, h) =>
      if n in t.c.nodes then Emitted(t.c.nodes[n].tables.events, n, Emit(kind, payload), h) else []
    case _ => []
  }

  predicate IsEmission(step: TornStep) {
    step.EmitLate? || (step.Whole? && step.step.Local?)
  }

  function Emitter(step: TornStep): Str
    requires IsEmission(step)
  {
    if step.EmitLate? then step.node else step.step.node
  }

  predicate StoresEvents(step: TornStep) {
    step.MergeEvents? || (step.Whole? && step.step.TakeEvents?)
  }

  function EventReply(step: TornStep): Reply
    requires StoresEvents(step)
  {
    if step.MergeEvents? then step.reply else step.step.reply
  }

  predicate Answers(step: TornStep) {
    step.Whole? && step.step.Serve?
  }

  /** No log, no event table and no event mark changed, and no reply was made. */
  ghost predicate EventsUntouched(c: State, c': State) {
    && c'.nodes.Keys == c.nodes.Keys && c'.replies <= c.replies
    && forall n :: n in c.nodes ==>
         && c'.nodes[n].log == c.nodes[n].log && c'.nodes[n].tables.events == c.nodes[n].tables.events
         && forall p :: Mark(c'.nodes[n].tables.marks, p, Event) == Mark(c.nodes[n].tables.marks, p, Event)
  }

  /** Taking rows moves no event mark. */
  lemma RowsLeaveEventMarks(t: TornState, rep: Reply)
    requires TornStructured(t) && rep in t.c.replies && rep.call.client in t.c.nodes
    ensures var marks := t.c.nodes[rep.call.client].tables.marks;
            forall p :: Mark(AdvanceMarks(marks, rep.call.server, rep.resp.rows), p, Event) == Mark(marks, p, Event)
  {
    var marks := t.c.nodes[rep.call.client].tables.marks;
    StructuredReply(t.c, rep);
    forall p ensures Mark(AdvanceMarks(marks, rep.call.server, rep.resp.rows), p, Event) == Mark(marks, p, Event) {
      RowsMoveNoEventMark(marks, rep.call.server, rep, p);
    }
  }

  lemma NodeEventsUntouched(t: TornState, step: TornStep, t': TornState, n: Str)
    requires TornStructured(t) && TornEnabled(t, step) && t' == TornDo(t, step) && n in t.c.nodes && n in t'.c.nodes
    requires !IsEmission(step) && !StoresEvents(step)
    ensures t'.c.nodes[n].log == t.c.nodes[n].log && t'.c.nodes[n].tables.events == t.c.nodes[n].tables.events
    ensures forall p :: Mark(t'.c.nodes[n].tables.marks, p, Event) == Mark(t.c.nodes[n].tables.marks, p, Event)
  {
    if step.MergeRows? {
      RowsLeaveEventMarks(t, step.reply);
    } else if step.Whole? && step.step.TakeRows? {
      RowsLeaveEventMarks(t, step.step.reply);
    }
  }

  lemma OtherStepsTouchNoEvents(t: TornState, step: TornStep, t': TornState)
    requires TornStructured(t) && TornEnabled(t, step) && t' == TornDo(t, step)
    requires !IsEmission(step) && !StoresEvents(step) && !Answers(step)
    ensures EventsUntouched(t.c, t'.c)
  {
    forall n | n in t.c.nodes
      ensures t'.c.nodes[n].log == t.c.nodes[n].log && t'.c.nodes[n].tables.events == t.c.nodes[n].tables.events
      ensures forall p :: Mark(t'.c.nodes[n].tables.marks, p, Event) == Mark(t.c.nodes[n].tables.marks, p, Event)
    {
      NodeEventsUntouched(t, step, t', n);
    }
  }

  lemma UntouchedKeepsNumbers(c: State, c': State)
    requires NumberInv(c) && EventsUntouched(c, c')
    ensures NumberInv(c')
  {
    forall e | Logged(c, e) ensures Logged(c', e) {
    }
    forall n | n in c'.nodes ensures OwnLog(c'.nodes[n], n) {
      assert OwnLog(c.nodes[n], n);
    }
  }

  lemma UntouchedKeepsLogInv(c: State, c': State)
    requires LogInv(c) && EventsUntouched(c, c')
    ensures LogInv(c')
  {
    UntouchedKeepsNumbers(c, c');
    forall a, b, e | a in c'.nodes && b in c'.nodes && SkippableEvent(c'.nodes[a], b, c'.nodes[b], e)
      ensures EventKeyOf(e) in c'.nodes[a].tables.events
    {
      assert SkippableEvent(c.nodes[a], b, c.nodes[b], e);
    }
    forall rep, e | rep in c'.replies && rep.call.server in c'.nodes && ClaimedEvent(rep, c'.nodes[rep.call.server], e)
      ensures e in rep.resp.events
    {
      assert ClaimedEvent(rep, c.nodes[rep.call.server], e);
    }
  }

  lemma EmissionGrew(t: TornState, step: TornStep)
    requires NumberInv(t.c) && TornEnabled(t, step) && IsEmission(step)
    ensures LogGrew(t.c, TornDo(t, step).c, Emitter(step), Emits(t, step))
  {
    if step.EmitLate? {
      EmissionGrowsLog(t.c, step.node, Emit(step.kind, step.payload), step.h);
    } else {
      LocalGrowsLog(t.c, step.step);
    }
  }

  lemma StoredAt(t: TornState, step: TornStep)
    requires TornEnabled(t, step) && StoresEvents(step)
    ensures EventsMergedAt(t.c, TornDo(t, step).c, EventReply(step))
  {
  }

  // ------------------------------------------------------------ numbering

  lemma AnswerKeepsNumbers(c: State, rep: Reply)
    requires NumberInv(c) && Enabled(c, Serve(rep))
    ensures NumberInv(Do(c, Serve(rep)))
  {
    var c' := Do(c, Serve(rep));
    forall e | Logged(c, e) ensures Logged(c', e) {
    }
    forall e | e in rep.resp.events ensures Logged(c, e) {
      AnswerLogged(c, rep, e);
    }
  }

  lemma StepKeepsNumbers(t: TornState, step: TornStep)
    requires TornStructured(t) && NumberInv(t.c) && TornEnabled(t, step)
    ensures NumberInv(TornDo(t, step).c)
  {
    var c, c' := t.c, TornDo(t, step).c;
    if IsEmission(step) {
      EmissionGrew(t, step);
      GrowthKeepsNumbers(c, c', Emitter(step), Emits(t, step));
    } else if StoresEvents(step) {
      StoredAt(t, step);
      EventsMergedTook(c, c', EventReply(step));
      TakingKeepsNumbers(c, c', EventReply(step).call.client);
    } else if Answers(step) {
      AnswerKeepsNumbers(c, step.step.reply);
    } else {
      OtherStepsTouchNoEvents(t, step, TornDo(t, step));
      UntouchedKeepsNumbers(c, c');
    }
  }

  lemma {:induction false} ReachableNumbers(states: seq<TornState>, steps: seq<TornStep>, i: nat)
    requires IsTornRun(states, steps) && TornInit(states[0]) && i < |states|
    ensures NumberInv(states[i].c)
  {
    if i > 0 {
      ReachableNumbers(states, steps, i - 1);
      ReachableStructured(states, steps, i - 1);
      assert TornStepAt(states, steps, i - 1);
      StepKeepsNumbers(states[i - 1], steps[i - 1]);
    }
  }

  /** Numbering in every run of split steps, however late events are appended: the origin's
      table holds its events under 1, 2, ..., n and no others of its own, and whatever any
      store holds under a runner and number is what that runner emitted under it. */
  lemma TornNumbering(states: seq<TornState>, steps: seq<TornStep>, i: nat, m: Str, n: Str)
    requires IsTornRun(states, steps) && TornInit(states[0]) && i < |states|
    requires m in states[i].c.nodes && n in states[i].c.nodes
    ensures var s := states[i].c.nodes[n];
            && (forall x :: EventKey(n, x) in s.tables.events <==> 1 <= x <= |s.log|)
            && (forall x :: 1 <= x <= |s.log| ==> s.tables.events[EventKey(n, x)] == s.log[x - 1])
    ensures forall k :: k in states[i].c.nodes[m].tables.events && k in states[i].c.nodes[n].tables.events ==>
              states[i].c.nodes[m].tables.events[k] == states[i].c.nodes[n].tables.events[k]
  {
    ReachableNumbers(states, steps, i);
    OwnNumbers(states[i].c, n);
    forall k | k in states[i].c.nodes[m].tables.events && k in states[i].c.nodes[n].tables.events
      ensures states[i].c.nodes[m].tables.events[k] == states[i].c.nodes[n].tables.events[k]
    {
      StoredLogged(states[i].c, m, k);
      StoredLogged(states[i].c, n, k);
    }
  }

  // ------------------------------------------------------------ order

  /** Stamps of an origin's log are positive and, like the ticks that events still to come
      will carry, at or below its clock. */
  ghost predicate LogsIssued(t: TornState) {
    && (forall n, e :: n in t.c.nodes && e in t.c.nodes[n].log ==> After(e.hlc, ZERO) && !After(e.hlc, t.c.nodes[n].clock))
    && (forall n, h :: (n, h) in t.eventTicks && n in t.c.nodes ==> After(h, ZERO) && !After(h, t.c.nodes[n].clock))
  }

  lemma EmittedStamp(t: TornState, step: TornStep, e: LogEvent)
    requires TornClockInv(t) && LogsIssued(t) && TornEnabled(t, step) && IsEmission(step) && e in Emits(t, step)
    ensures After(e.hlc, ZERO) && !After(e.hlc, TornDo(t, step).c.nodes[Emitter(step)].clock)
  {
    assert NodeBelow(t.c.nodes[Emitter(step)], Pending(t, Emitter(step)));
  }

  /** What a step does to n's log. */
  lemma LogAfter(t: TornState, step: TornStep, t': TornState, n: Str)
    requires NumberInv(t.c) && TornStructured(t) && TornEnabled(t, step) && t' == TornDo(t, step)
    requires n in t.c.nodes && n in t'.c.nodes
    ensures t'.c.nodes[n].log == t.c.nodes[n].log + (if IsEmission(step) && Emitter(step) == n then Emits(t, step) else [])
  {
    if IsEmission(step) {
      EmissionGrew(t, step);
    } else if StoresEvents(step) {
      StoredAt(t, step);
    } else {
      NodeEventsUntouched(t, step, t', n);
    }
  }

  lemma LogStaysIssued(t: TornState, step: TornStep, t': TornState, n: Str, e: LogEvent)
    requires TornClockInv(t) && LogsIssued(t) && TornEnabled(t, step) && t' == TornDo(t, step) && n in t.c.nodes && n in t'.c.nodes
    requires e in t.c.nodes[n].log || (IsEmission(step) && Emitter(step) == n && e in Emits(t, step))
    ensures After(e.hlc, ZERO) && !After(e.hlc, t'.c.nodes[n].clock)
  {
    if e in t.c.nodes[n].log {
      TornClockMoves(t, step, n);
    } else {
      EmittedStamp(t, step, e);
    }
  }

  lemma TickStaysIssued(t: TornState, step: TornStep, t': TornState, n: Str, h: HLC)
    requires TornClockInv(t) && LogsIssued(t) && TornEnabled(t, step) && t' == TornDo(t, step)
    requires n in t.c.nodes && n in t'.c.nodes && (n, h) in t'.eventTicks
    ensures After(h, ZERO) && !After(h, t'.c.nodes[n].clock)
  {
    TornClockMoves(t, step, n);
    assert NodeBelow(t.c.nodes[n], Pending(t, n));
  }

  lemma StepKeepsLogsIssued(t: TornState, step: TornStep, t': TornState)
    requires TornClockInv(t) && TornStructured(t) && NumberInv(t.c) && LogsIssued(t) && TornEnabled(t, step) && t' == TornDo(t, step)
    ensures LogsIssued(t')
  {
    forall n, e | n in t'.c.nodes && e in t'.c.nodes[n].log ensures After(e.hlc, ZERO) && !After(e.hlc, t'.c.nodes[n].clock) {
      LogAfter(t, step, t', n);
      LogStaysIssued(t, step, t', n, e);
    }
    forall n, h | (n, h) in t'.eventTicks && n in t'.c.nodes ensures After(h, ZERO) && !After(h, t'.c.nodes[n].clock) {
      TickStaysIssued(t, step, t', n, h);
    }
  }

  lemma {:induction false} ReachableLogsIssued(states: seq<TornState>, steps: seq<TornStep>, i: nat)
    requires IsTornRun(states, steps) && TornInit(states[0]) && i < |states|
    ensures LogsIssued(states[i])
  {
    if i > 0 {
      ReachableLogsIssued(states, steps, i - 1);
      ReachableNumbers(states, steps, i - 1);
      ReachableStructured(states, steps, i - 1);
      ReachableTornClock(states, steps, i - 1);
      assert TornStepAt(states, steps, i - 1);
      StepKeepsLogsIssued(states[i - 1], steps[i - 1], states[i]);
    }
  }

  lemma MergeKeepsKeys(c: State, c': State, rep: Reply, n: Str)
    requires EventsMergedAt(c, c', rep) && n in c.nodes && n in c'.nodes
    ensures c.nodes[n].tables.events.Keys <= c'.nodes[n].tables.events.Keys
  {
    if n == rep.call.client {
      InsertAllAdds(c.nodes[n].tables.events, rep.resp.events);
    }
  }

  lemma EventKeysStay(t: TornState, step: TornStep, t': TornState, n: Str)
    requires TornStructured(t) && NumberInv(t.c) && TornEnabled(t, step) && t' == TornDo(t, step) && n in t.c.nodes && n in t'.c.nodes
    ensures t.c.nodes[n].tables.events.Keys <= t'.c.nodes[n].tables.events.Keys
  {
    if IsEmission(step) {
      EmissionGrew(t, step);
      GrowthKeepsTables(t.c, t'.c, Emitter(step), Emits(t, step), n);
    } else if StoresEvents(step) {
      StoredAt(t, step);
      MergeKeepsKeys(t.c, t'.c, EventReply(step), n);
    } else {
      NodeEventsUntouched(t, step, t', n);
    }
  }

  lemma NextLog(states: seq<TornState>, steps: seq<TornStep>, i: nat, n: Str)
    requires IsTornRun(states, steps) && TornInit(states[0]) && i < |steps| && n in states[i].c.nodes
    ensures n in states[i + 1].c.nodes
    ensures !(IsEmission(steps[i]) && Emitter(steps[i]) == n && Emits(states[i], steps[i]) != []) ==>
              states[i + 1].c.nodes[n].log == states[i].c.nodes[n].log
    ensures states[i].c.nodes[n].tables.events.Keys <= states[i + 1].c.nodes[n].tables.events.Keys
  {
    ReachableNumbers(states, steps, i);
    ReachableStructured(states, steps, i);
    TornNodesFixed(states, steps, i);
    TornNodesFixed(states, steps, i + 1);
    assert TornStepAt(states, steps, i);
    LogAfter(states[i], steps[i], states[i + 1], n);
    EventKeysStay(states[i], steps[i], states[i + 1], n);
  }

  /** An event appended late, under a tick at or below the last event of its node. */
  ghost predicate EmitsBehind(t: TornState, step: TornStep, n: Str)
    requires n in t.c.nodes
  {
    var log := t.c.nodes[n].log;
    step.EmitLate? && step.node == n && log != [] && !After(step.h, log[|log| - 1].hlc)
  }

  lemma EmissionOrder(t: TornState, step: TornStep)
    requires LogsIssued(t) && TornEnabled(t, step) && IsEmission(step) && Ordered(t.c.nodes[Emitter(step)].log)
    ensures Ordered(t.c.nodes[Emitter(step)].log + Emits(t, step)) <==> !EmitsBehind(t, step, Emitter(step))
  {
    var log := t.c.nodes[Emitter(step)].log;
    GrowthKeepsOrderExactly(log, Emits(t, step));
    if log != [] {
      assert log[|log| - 1] in log;
    }
  }

  lemma OrderStep(t: TornState, step: TornStep, t': TornState, n: Str)
    requires TornStructured(t) && NumberInv(t.c) && LogsIssued(t) && TornEnabled(t, step) && t' == TornDo(t, step)
    requires n in t.c.nodes && n in t'.c.nodes && Ordered(t.c.nodes[n].log)
    ensures Ordered(t'.c.nodes[n].log) <==> !EmitsBehind(t, step, n)
  {
    LogAfter(t, step, t', n);
    if IsEmission(step) && Emitter(step) == n {
      EmissionOrder(t, step);
    } else {
      assert t.c.nodes[n].log + [] == t.c.nodes[n].log;
    }
  }

  /** Exactly when an origin's stamps stop growing with its numbers, in every run of split
      steps: when an event is appended under a tick at or below the last one's. */
  lemma TornOrderExactly(states: seq<TornState>, steps: seq<TornStep>, i: nat, n: Str)
    requires IsTornRun(states, steps) && TornInit(states[0]) && i < |steps| && n in states[i].c.nodes
    requires Ordered(states[i].c.nodes[n].log)
    ensures n in states[i + 1].c.nodes && (Ordered(states[i + 1].c.nodes[n].log) <==> !EmitsBehind(states[i], steps[i], n))
  {
    ReachableNumbers(states, steps, i);
    ReachableStructured(states, steps, i);
    ReachableLogsIssued(states, steps, i);
    assert TornStepAt(states, steps, i);
    OrderStep(states[i], steps[i], states[i + 1], n);
  }

  /** Step i appends an event of n's under the tick of step j, and n emitted nothing in
      between: one thread ticks and then appends (internal/agent/agent.go:111-139). */
  ghost predicate AppendsInTurn(states: seq<TornState>, steps: seq<TornStep>, j: nat, i: nat)
    requires i < |steps| < |states|
  {
    && j < i && steps[i].EmitLate? && steps[j].TickOnly? && steps[j].node == steps[i].node
    && steps[i].node in states[j].c.nodes && steps[i].h == TickFrom(states[j].c.nodes[steps[i].node].clock, steps[j].now)
    && forall m :: j < m < i ==> !(IsEmission(steps[m]) && Emitter(steps[m]) == steps[i].node && Emits(states[m], steps[m]) != [])
  }

  ghost predicate OneEmitter(states: seq<TornState>, steps: seq<TornStep>) {
    forall i :: 0 <= i < |steps| < |states| && steps[i].EmitLate? ==> exists j :: AppendsInTurn(states, steps, j, i)
  }

  lemma {:induction false} LogBetween(states: seq<TornState>, steps: seq<TornStep>, j: nat, i: nat, m: nat)
    requires IsTornRun(states, steps) && TornInit(states[0]) && i < |steps| && AppendsInTurn(states, steps, j, i) && j < m <= i
    ensures steps[i].node in states[m].c.nodes
    ensures states[m].c.nodes[steps[i].node].log == states[j].c.nodes[steps[i].node].log
    decreases m
  {
    if m - 1 > j {
      LogBetween(states, steps, j, i, m - 1);
    }
    NextLog(states, steps, m - 1, steps[i].node);
  }

  lemma InTurnIsInOrder(states: seq<TornState>, steps: seq<TornStep>, j: nat, i: nat)
    requires IsTornRun(states, steps) && TornInit(states[0]) && i < |steps| && AppendsInTurn(states, steps, j, i)
    ensures steps[i].node in states[i].c.nodes && !EmitsBehind(states[i], steps[i], steps[i].node)
  {
    var n := steps[i].node;
    var log := states[j].c.nodes[n].log;
    LogBetween(states, steps, j, i, i);
    ReachableLogsIssued(states, steps, j);
    if log != [] {
      assert log[|log| - 1] in log;
    }
  }

  /** With one emitting thread per node, stamps grow with the numbers in every run. */
  lemma {:induction false} OneEmitterKeepsOrder(states: seq<TornState>, steps: seq<TornStep>, i: nat, n: Str)
    requires IsTornRun(states, steps) && TornInit(states[0]) && OneEmitter(states, steps) && i < |states| && n in states[i].c.nodes
    ensures Ordered(states[i].c.nodes[n].log)
  {
    if i > 0 {
      TornNodesFixed(states, steps, i - 1);
      TornNodesFixed(states, steps, i);
      OneEmitterKeepsOrder(states, steps, i - 1, n);
      TornOrderExactly(states, steps, i - 1, n);
      if steps[i - 1].EmitLate? {
        var j :| AppendsInTurn(states, steps, j, i - 1);
        InTurnIsInOrder(states, steps, j, i - 1);
      }
    }
  }

  // ------------------------------------------------------------ completeness

  /** No mark or reply has passed what the step emits. */
  ghost predicate DisciplinedEvents(t: TornState, step: TornStep) {
    IsEmission(step) ==> forall e :: e in Emits(t, step) ==> Unheard(t.c, Emitter(step), e)
  }

  ghost predicate EventDiscipline(states: seq<TornState>, steps: seq<TornStep>) {
    forall i :: 0 <= i < |steps| && i < |states| ==> DisciplinedEvents(states[i], steps[i])
  }

  lemma StepKeepsLogExactly(t: TornState, step: TornStep, t': TornState)
    requires TornStructured(t) && LogsIssued(t) && LogInv(t.c) && TornEnabled(t, step) && t' == TornDo(t, step)
    ensures LogInv(t'.c) <==> DisciplinedEvents(t, step)
  {
    var c, c' := t.c, t'.c;
    if IsEmission(step) {
      EmissionGrew(t, step);
      GrowthKeepsLogExactly(c, c', Emitter(step), Emits(t, step));
    } else if StoresEvents(step) {
      StoredAt(t, step);
      EventsMergedKeepsLogInv(c, c', EventReply(step));
    } else if Answers(step) {
      ServeKeepsLogInv(c, step.step.reply);
    } else {
      OtherStepsTouchNoEvents(t, step, t');
      UntouchedKeepsLogInv(c, c');
    }
  }

  /** Exactly when event watermarks stop being complete, in every run of split steps: when
      an event is appended that a peer's mark, or a reply in flight, has already passed. */
  lemma TornLogExactly(states: seq<TornState>, steps: seq<TornStep>, i: nat)
    requires IsTornRun(states, steps) && TornInit(states[0]) && i < |steps| && LogInv(states[i].c)
    ensures LogInv(states[i + 1].c) <==> DisciplinedEvents(states[i], steps[i])
  {
    ReachableStructured(states, steps, i);
    ReachableLogsIssued(states, steps, i);
    assert TornStepAt(states, steps, i);
    StepKeepsLogExactly(states[i], steps[i], states[i + 1]);
  }

  lemma {:induction false} ReachableTornLog(states: seq<TornState>, steps: seq<TornStep>, i: nat)
    requires IsTornRun(states, steps) && TornInit(states[0]) && EventDiscipline(states, steps) && i < |states|
    ensures LogInv(states[i].c)
  {
    if i == 0 {
      InitLogInv(states[0].c);
    } else {
      ReachableTornLog(states, steps, i - 1);
      TornLogExactly(states, steps, i - 1);
    }
  }

  /** Event watermark completeness in every split run whose emissions are above what was
      heard of their node. */
  lemma TornEventCompleteness(states: seq<TornState>, steps: seq<TornStep>, i: nat, a: Str, b: Str, e: LogEvent)
    requires IsTornRun(states, steps) && TornInit(states[0]) && EventDiscipline(states, steps) && i < |states|
    requires a in states[i].c.nodes && b in states[i].c.nodes && e in states[i].c.nodes[b].log
    requires !After(e.hlc, Mark(states[i].c.nodes[a].tables.marks, b, Event))
    ensures HoldsEvent(states[i].c.nodes[a].tables.events, e)
  {
    ReachableTornLog(states, steps, i);
    assert SkippableEvent(states[i].c.nodes[a], b, states[i].c.nodes[b], e);
    FiledIsLogged(states[i].c, a, b, e);
  }

  // ------------------------------------------------------------ convergence

  ghost predicate TornSilent(states: seq<TornState>, steps: seq<TornStep>, t: nat) {
    forall i :: t <= i < |steps| && i < |states| ==> Emits(states[i], steps[i]) == []
  }

  /** Step j has b answer with events for a call of a's, and step k has a store them. */
  ghost predicate TornEventPull(steps: seq<TornStep>, a: Str, b: Str, j: nat, k: nat) {
    && j < k < |steps|
    && Answers(steps[j]) && StoresEvents(steps[k]) && EventReply(steps[k]) == steps[j].step.reply
    && var rep := steps[j].step.reply;
       rep.call.client == a && rep.call.server == b && Event in rep.starts
  }

  ghost predicate TornEventPulls(steps: seq<TornStep>, t: nat, a: Str, b: Str) {
    exists j, k :: t <= j && TornEventPull(steps, a, b, j, k)
  }

  ghost predicate TornEventMesh(steps: seq<TornStep>, t: nat, nodes: set<Str>) {
    forall a, b :: a in nodes && b in nodes && a != b ==> TornEventPulls(steps, t, a, b)
  }

  lemma {:induction false} TornLogFrozen(states: seq<TornState>, steps: seq<TornStep>, t: nat, i: nat, j: nat, n: Str)
    requires IsTornRun(states, steps) && TornInit(states[0]) && TornSilent(states, steps, t) && t <= i <= j < |states|
    requires n in states[i].c.nodes
    ensures n in states[j].c.nodes && states[j].c.nodes[n].log == states[i].c.nodes[n].log
    decreases j
  {
    if i < j {
      TornLogFrozen(states, steps, t, i, j - 1, n);
      NextLog(states, steps, j - 1, n);
    }
  }

  lemma {:induction false} TornEventsStay(states: seq<TornState>, steps: seq<TornStep>, i: nat, j: nat, n: Str, k: EventKey)
    requires IsTornRun(states, steps) && TornInit(states[0]) && i <= j < |states|
    requires n in states[i].c.nodes && k in states[i].c.nodes[n].tables.events
    ensures n in states[j].c.nodes && k in states[j].c.nodes[n].tables.events
    decreases j
  {
    if i < j {
      TornEventsStay(states, steps, i, j - 1, n, k);
      NextLog(states, steps, j - 1, n);
    }
  }

  lemma EventAnswered(t: TornState, rep: Reply, e: LogEvent)
    requires TornStructured(t) && LogsIssued(t) && LogInv(t.c) && TornEnabled(t, Whole(Serve(rep))) && Event in rep.starts
    requires e in t.c.nodes[rep.call.server].log
    ensures rep.call.client in t.c.nodes
    ensures EventKeyOf(e) in t.c.nodes[rep.call.client].tables.events || e in rep.resp.events
  {
    EventAnswerOrAlreadyThere(t.c, rep, e);
  }

  lemma TornEventAnswered(states: seq<TornState>, steps: seq<TornStep>, j: nat, rep: Reply, e: LogEvent)
    requires IsTornRun(states, steps) && TornInit(states[0]) && EventDiscipline(states, steps)
    requires j < |steps| && steps[j] == Whole(Serve(rep)) && Event in rep.starts
    requires rep.call.server in states[j].c.nodes && e in states[j].c.nodes[rep.call.server].log
    ensures rep.call.client in states[j].c.nodes
    ensures EventKeyOf(e) in states[j].c.nodes[rep.call.client].tables.events || e in rep.resp.events
  {
    ReachableTornLog(states, steps, j);
    ReachableStructured(states, steps, j);
    ReachableLogsIssued(states, steps, j);
    assert TornStepAt(states, steps, j);
    EventAnswered(states[j], rep, e);
  }

  lemma TornEventTaken(states: seq<TornState>, steps: seq<TornStep>, k: nat, e: LogEvent)
    requires IsTornRun(states, steps) && k < |steps| && StoresEvents(steps[k]) && e in EventReply(steps[k]).resp.events
    ensures var a := EventReply(steps[k]).call.client;
            a in states[k + 1].c.nodes && EventKeyOf(e) in states[k + 1].c.nodes[a].tables.events
  {
    assert TornStepAt(states, steps, k);
    StoredAt(states[k], steps[k]);
    InsertAllAdds(states[k].c.nodes[EventReply(steps[k]).call.client].tables.events, EventReply(steps[k]).resp.events);
  }

  lemma TornEventDelivered(states: seq<TornState>, steps: seq<TornStep>, a: Str, b: Str, j: nat, k: nat, e: LogEvent)
    requires IsTornRun(states, steps) && TornInit(states[0]) && EventDiscipline(states, steps)
    requires TornEventPull(steps, a, b, j, k) && b in states[j].c.nodes && e in states[j].c.nodes[b].log
    ensures a in states[|steps|].c.nodes && EventKeyOf(e) in states[|steps|].c.nodes[a].tables.events
  {
    TornEventAnswered(states, steps, j, steps[j].step.reply, e);
    if EventKeyOf(e) in states[j].c.nodes[a].tables.events {
      TornEventsStay(states, steps, j, |steps|, a, EventKeyOf(e));
    } else {
      TornEventTaken(states, steps, k, e);
      TornEventsStay(states, steps, k + 1, |steps|, a, EventKeyOf(e));
    }
  }

  lemma TornMeshHolds(states: seq<TornState>, steps: seq<TornStep>, t: nat, a: Str, b: Str, e: LogEvent)
    requires IsTornRun(states, steps) && TornInit(states[0]) && EventDiscipline(states, steps)
    requires t <= |steps| && TornSilent(states, steps, t) && TornEventMesh(steps, t, states[0].c.nodes.Keys)
    requires a in states[|steps|].c.nodes && b in states[|steps|].c.nodes && e in states[|steps|].c.nodes[b].log
    ensures HoldsEvent(states[|steps|].c.nodes[a].tables.events, e)
  {
    TornNodesFixed(states, steps, |steps|);
    ReachableTornLog(states, steps, |steps|);
    if a == b {
      assert OwnLog(states[|steps|].c.nodes[a], a);
    } else {
      assert TornEventPulls(steps, t, a, b);
      var j, k :| t <= j && TornEventPull(steps, a, b, j, k);
      TornNodesFixed(states, steps, j);
      TornLogFrozen(states, steps, t, j, |steps|, b);
      TornEventDelivered(states, steps, a, b, j, k, e);
      FiledIsLogged(states[|steps|].c, a, b, e);
    }
  }

  /** Log convergence of split runs: if emissions are above what was heard of their node,
      then, after the last emission and a full mesh, each log is exactly the union of what
      all runners emitted. */
  lemma TornLogsConverge(states: seq<TornState>, steps: seq<TornStep>, t: nat, n: Str)
    requires IsTornRun(states, steps) && TornInit(states[0]) && EventDiscipline(states, steps)
    requires t <= |steps| && TornSilent(states, steps, t) && TornEventMesh(steps, t, states[0].c.nodes.Keys)
    requires n in states[|steps|].c.nodes
    ensures forall e :: HoldsEvent(states[|steps|].c.nodes[n].tables.events, e) <==> Logged(states[|steps|].c, e)
  {
    var last := states[|steps|].c;
    ReachableNumbers(states, steps, |steps|);
    forall e | HoldsEvent(last.nodes[n].tables.events, e) ensures Logged(last, e) {
      StoredLogged(last, n, EventKeyOf(e));
    }
    forall e | Logged(last, e) ensures HoldsEvent(last.nodes[n].tables.events, e) {
      assert e in last.nodes[e.runner].log;
      TornMeshHolds(states, steps, t, n, e.runner, e);
    }
  }

  // ------------------------------------------------------------ a lock is enough

  /** The replies whose events n has stored and not yet shown to its clock. */
  ghost function PendingEvents(t: TornState, n: Str): set<Reply> {
    set rep | rep in t.mergedEvents && rep.call.client == n
  }

  /** h is at or below n's clock, or below an event that a pending reply brought to n. */
  ghost predicate EventReached(t: TornState, n: Str, h: HLC)
    requires n in t.c.nodes
  {
    !After(h, t.c.nodes[n].clock) || exists rep :: rep in PendingEvents(t, n) && !After(h, EventMax(ZERO, rep.resp.events))
  }

  ghost predicate StoredReached(t: TornState) {
    forall n, k :: n in t.c.nodes && k in t.c.nodes[n].tables.events ==> EventReached(t, n, t.c.nodes[n].tables.events[k].hlc)
  }

  ghost predicate MarksReached(t: TornState) {
    forall a, n :: a in t.c.nodes && n in t.c.nodes ==> EventReached(t, n, Mark(t.c.nodes[a].tables.marks, n, Event))
  }

  ghost predicate AnswersReached(t: TornState) {
    forall rep, e :: rep in t.c.replies && rep.call.server in t.c.nodes && e in rep.resp.events ==>
      EventReached(t, rep.call.server, e.hlc)
  }

  /** Every event n stores, has in flight or is remembered for is reached by n. */
  ghost predicate EventHeardInv(t: TornState) {
    StoredReached(t) && MarksReached(t) && AnswersReached(t)
  }

  lemma EventReachedLater(t: TornState, step: TornStep, t': TornState, n: Str, h: HLC)
    requires TornClockInv(t) && TornEnabled(t, step) && t' == TornDo(t, step) && n in t.c.nodes && n in t'.c.nodes
    requires EventReached(t, n, h)
    ensures EventReached(t', n, h)
  {
    TornClockMoves(t, step, n);
    assert NodeBelow(t.c.nodes[n], Pending(t, n));
    if After(h, t'.c.nodes[n].clock) {
      var rep :| rep in PendingEvents(t, n) && !After(h, EventMax(ZERO, rep.resp.events));
      assert step != ShowEvents(rep);
      assert rep in PendingEvents(t', n);
    }
  }

  /** The event mark that a holds for n after a step. */
  lemma EventMarkReached(t: TornState, step: TornStep, t': TornState, a: Str, n: Str)
    requires TornClockInv(t) && TornStructured(t) && NumberInv(t.c) && MarksReached(t) && AnswersReached(t)
    requires TornEnabled(t, step) && t' == TornDo(t, step)
    requires a in t.c.nodes && n in t.c.nodes && a in t'.c.nodes
    ensures EventReached(t, n, Mark(t'.c.nodes[a].tables.marks, n, Event))
  {
    if IsEmission(step) {
      EmissionGrew(t, step);
    } else if StoresEvents(step) {
      StoredAt(t, step);
      if a == EventReply(step).call.client {
        StoredMarkReached(t, EventReply(step), n);
      }
    } else {
      NodeEventsUntouched(t, step, t', a);
    }
  }

  lemma StoredMarkReached(t: TornState, rep: Reply, n: Str)
    requires TornClockInv(t) && TornStructured(t) && MarksReached(t) && AnswersReached(t)
    requires rep in t.c.replies && n in t.c.nodes && rep.call.client in t.c.nodes
    ensures var taken := EventsApplied(t.c.nodes[rep.call.client].tables, rep.call.server, rep.call.req.evMark, rep.resp.events);
            EventReached(t, n, Mark(taken.marks, n, Event))
  {
    StructuredReply(t.c, rep);
    CallWithin(t.c, rep.call, Event);
    EventMarkAfter(t.c.nodes[rep.call.client].tables, rep, n);
    assert NodeBelow(t.c.nodes[n], Pending(t, n));
    EventMaxIsMax(ZERO, rep.resp.events);
  }

  /** Where an event that a step puts into n's table comes from. */
  lemma NewEvent(t: TornState, step: TornStep, t': TornState, n: Str, k: EventKey)
    requires TornStructured(t) && NumberInv(t.c) && TornEnabled(t, step) && t' == TornDo(t, step)
    requires n in t.c.nodes && n in t'.c.nodes && k in t'.c.nodes[n].tables.events
    ensures
      (k in t.c.nodes[n].tables.events && t'.c.nodes[n].tables.events[k] == t.c.nodes[n].tables.events[k])
      || (IsEmission(step) && Emitter(step) == n && t'.c.nodes[n].tables.events[k] in Emits(t, step))
      || (StoresEvents(step) && EventReply(step).call.client == n && k !in t.c.nodes[n].tables.events)
  {
    if IsEmission(step) {
      EmissionGrew(t, step);
    } else if StoresEvents(step) {
      StoredAt(t, step);
      InsertAllAdds(t.c.nodes[EventReply(step).call.client].tables.events, EventReply(step).resp.events);
    } else {
      NodeEventsUntouched(t, step, t', n);
    }
  }

  lemma StoredEventReached(t: TornState, step: TornStep, t': TornState, n: Str, k: EventKey)
    requires TornClockInv(t) && TornStructured(t) && NumberInv(t.c) && LogsIssued(t) && StoredReached(t)
    requires TornEnabled(t, step) && t' == TornDo(t, step) && n in t.c.nodes && n in t'.c.nodes
    requires k in t'.c.nodes[n].tables.events
    ensures EventReached(t', n, t'.c.nodes[n].tables.events[k].hlc)
  {
    var was, now := t.c.nodes[n].tables.events, t'.c.nodes[n].tables.events;
    NewEvent(t, step, t', n, k);
    if k in was && now[k] == was[k] {
      EventReachedLater(t, step, t', n, was[k].hlc);
    } else if IsEmission(step) {
      EmittedStamp(t, step, now[k]);
    } else {
      BroughtEventReached(t, step, t', n, k);
    }
  }

  lemma BroughtEventReached(t: TornState, step: TornStep, t': TornState, n: Str, k: EventKey)
    requires TornClockInv(t) && TornEnabled(t, step) && t' == TornDo(t, step) && StoresEvents(step)
    requires n in t.c.nodes && n in t'.c.nodes && n == EventReply(step).call.client
    requires k in t'.c.nodes[n].tables.events && k !in t.c.nodes[n].tables.events
    ensures EventReached(t', n, t'.c.nodes[n].tables.events[k].hlc)
  {
    var rep := EventReply(step);
    InsertAllAdds(t.c.nodes[n].tables.events, rep.resp.events);
    EventMaxIsMax(ZERO, rep.resp.events);
    assert t'.c.nodes[n].tables.events[k] in rep.resp.events;
    if step.MergeEvents? {
      assert rep in PendingEvents(t', n);
    }
  }

  lemma ReplyEventReached(t: TornState, step: TornStep, t': TornState, rep: Reply, e: LogEvent)
    requires TornClockInv(t) && StoredReached(t) && AnswersReached(t) && TornEnabled(t, step) && t' == TornDo(t, step)
    requires rep in t'.c.replies && rep.call.server in t.c.nodes && rep.call.server in t'.c.nodes && e in rep.resp.events
    ensures EventReached(t', rep.call.server, e.hlc)
  {
    if rep !in t.c.replies {
      assert HoldsEvent(t.c.nodes[rep.call.server].tables.events, e);
    }
    EventReachedLater(t, step, t', rep.call.server, e.hlc);
  }

  lemma StoredStayReached(t: TornState, step: TornStep, t': TornState)
    requires TornClockInv(t) && TornStructured(t) && NumberInv(t.c) && LogsIssued(t) && StoredReached(t)
    requires TornEnabled(t, step) && t' == TornDo(t, step)
    ensures StoredReached(t')
  {
    forall n, k | n in t'.c.nodes && k in t'.c.nodes[n].tables.events ensures EventReached(t', n, t'.c.nodes[n].tables.events[k].hlc) {
      StoredEventReached(t, step, t', n, k);
    }
  }

  lemma MarksStayReached(t: TornState, step: TornStep, t': TornState)
    requires TornClockInv(t) && TornStructured(t) && NumberInv(t.c) && MarksReached(t) && AnswersReached(t)
    requires TornEnabled(t, step) && t' == TornDo(t, step)
    ensures MarksReached(t')
  {
    forall a, n | a in t'.c.nodes && n in t'.c.nodes ensures EventReached(t', n, Mark(t'.c.nodes[a].tables.marks, n, Event)) {
      EventMarkReached(t, step, t', a, n);
      EventReachedLater(t, step, t', n, Mark(t'.c.nodes[a].tables.marks, n, Event));
    }
  }

  lemma AnswersStayReached(t: TornState, step: TornStep, t': TornState)
    requires TornClockInv(t) && StoredReached(t) && AnswersReached(t) && TornEnabled(t, step) && t' == TornDo(t, step)
    ensures AnswersReached(t')
  {
    forall rep, e | rep in t'.c.replies && rep.call.server in t'.c.nodes && e in rep.resp.events
      ensures EventReached(t', rep.call.server, e.hlc)
    {
      ReplyEventReached(t, step, t', rep, e);
    }
  }

  lemma StepKeepsEventHeard(t: TornState, step: TornStep, t': TornState)
    requires TornClockInv(t) && TornStructured(t) && NumberInv(t.c) && LogsIssued(t) && EventHeardInv(t)
    requires TornEnabled(t, step) && t' == TornDo(t, step)
    ensures EventHeardInv(t')
  {
    StoredStayReached(t, step, t');
    MarksStayReached(t, step, t');
    AnswersStayReached(t, step, t');
  }

  lemma {:induction false} ReachableEventHeard(states: seq<TornState>, steps: seq<TornStep>, i: nat)
    requires IsTornRun(states, steps) && TornInit(states[0]) && i < |states|
    ensures EventHeardInv(states[i])
  {
    if i > 0 {
      ReachableEventHeard(states, steps, i - 1);
      ReachableLogsIssued(states, steps, i - 1);
      ReachableNumbers(states, steps, i - 1);
      ReachableStructured(states, steps, i - 1);
      ReachableTornClock(states, steps, i - 1);
      assert TornStepAt(states, steps, i - 1);
      StepKeepsEventHeard(states[i - 1], steps[i - 1], states[i]);
    }
  }

  /** No event is appended late, and a node emits only when it has shown its clock all the
      events it stored. */
  ghost predicate EmissionLocked(t: TornState, step: TornStep) {
    match step
    case Whole(Local(n, _, _, emission)) => emission.Silent? || PendingEvents(t, n) == {}
    case EmitLate(_, _, _, _) => false
    case _ => true
  }

  lemma LockedEmission(t: TornState, step: TornStep)
    requires TornClockInv(t) && EventHeardInv(t) && TornEnabled(t, step) && EmissionLocked(t, step)
    ensures DisciplinedEvents(t, step)
  {
    if IsEmission(step) {
      var n := Emitter(step);
      forall e | e in Emits(t, step) ensures Unheard(t.c, n, e) {
        FreshIsUnheardOf(t, n, e);
      }
    }
  }

  lemma FreshIsUnheardOf(t: TornState, n: Str, e: LogEvent)
    requires TornClockInv(t) && EventHeardInv(t) && n in t.c.nodes && PendingEvents(t, n) == {} && After(e.hlc, t.c.nodes[n].clock)
    ensures Unheard(t.c, n, e)
  {
    assert NodeBelow(t.c.nodes[n], Pending(t, n));
    forall a | a in t.c.nodes ensures After(e.hlc, Mark(t.c.nodes[a].tables.marks, n, Event)) {
      assert EventReached(t, n, Mark(t.c.nodes[a].tables.marks, n, Event));
    }
    forall rep | rep in t.c.replies && rep.call.server == n ensures After(e.hlc, EventMax(ZERO, rep.resp.events)) {
      EventMaxIsMax(ZERO, rep.resp.events);
      if EventMax(ZERO, rep.resp.events) != ZERO {
        var f :| f in rep.resp.events && f.hlc == EventMax(ZERO, rep.resp.events);
        assert EventReached(t, n, f.hlc);
      }
    }
  }

  ghost predicate EmissionLockedRun(states: seq<TornState>, steps: seq<TornStep>) {
    forall i :: 0 <= i < |steps| && i < |states| ==> EmissionLocked(states[i], steps[i])
  }

  /** Locks are enough for the log as well: if no event is appended late and no node emits
      while events it stored are not yet shown to its clock, all logs converge. */
  lemma LockedLogsConverge(states: seq<TornState>, steps: seq<TornStep>, t: nat, n: Str)
    requires IsTornRun(states, steps) && TornInit(states[0]) && EmissionLockedRun(states, steps)
    requires t <= |steps| && TornSilent(states, steps, t) && TornEventMesh(steps, t, states[0].c.nodes.Keys)
    requires n in states[|steps|].c.nodes
    ensures forall e :: HoldsEvent(states[|steps|].c.nodes[n].tables.events, e) <==> Logged(states[|steps|].c, e)
  {
    forall i | 0 <= i < |steps| ensures DisciplinedEvents(states[i], steps[i]) {
      assert TornStepAt(states, steps, i);
      ReachableTornClock(states, steps, i);
      ReachableEventHeard(states, steps, i);
      assert EmissionLocked(states[i], steps[i]);
      LockedEmission(states[i], steps[i]);
    }
    TornLogsConverge(states, steps, t, n);
  }
}
