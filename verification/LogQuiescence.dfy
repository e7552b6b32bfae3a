/** Quiescence of the event log: once every log is the union, pulls carry no events. */
module LogQuiescence {
  import opened Text
  import opened Hlc
  import opened Model
  import opened EventLog
  import opened Sorting
  import opened Storage
  import opened Pull
  import opened Sync
  import opened Cluster
  import opened Dominance
  import opened LogInvariant
  import opened Runs
  import opened Convergence
  import opened LogConvergence

  /** Every log holds everything emitted so far. */
  ghost predicate LogsComplete(c: State) {
    forall n, e :: n in c.nodes && Logged(c, e) ==> EventKeyOf(e) in c.nodes[n].tables.events
  }

  // ------------------------------------------------------------ settled logs stay

  lemma {:induction false} QuietLogged(states: seq<State>, steps: seq<Step>, t: nat, i: nat, e: LogEvent)
    requires IsRun(states, steps) && EventQuiet(steps, t) && t <= i < |states|
    ensures Logged(states[i], e) <==> Logged(states[t], e)
  {
    NodesFixed(states, steps, t);
    NodesFixed(states, steps, i);
    if e.runner in states[t].nodes {
      LogFrozen(states, steps, t, t, i, e.runner);
    }
  }

  /** From a complete state on, every table holds exactly what had been emitted by then. */
  lemma CompleteStays(states: seq<State>, steps: seq<Step>, t: nat, i: nat, n: Str, e: LogEvent)
    requires IsRun(states, steps) && Init(states[0]) && EventQuiet(steps, t) && t <= i < |states|
    requires LogsComplete(states[t]) && n in states[t].nodes
    ensures n in states[i].nodes && (HoldsEvent(states[i].nodes[n].tables.events, e) <==> Logged(states[t], e))
  {
    NodesFixed(states, steps, t);
    NodesFixed(states, steps, i);
    ReachableLogged(states, steps, i);
    QuietLogged(states, steps, t, i, e);
    if Logged(states[t], e) {
      EventsNeverLost(states, steps, t, i, n, EventKeyOf(e));
      StoredIsTheLogged(states[i], n, e);
    } else if HoldsEvent(states[i].nodes[n].tables.events, e) {
      StoredLogged(states[i], n, EventKeyOf(e));
    }
  }

  lemma StoredIsTheLogged(c: State, n: Str, e: LogEvent)
    requires EventsLogged(c) && n in c.nodes && Logged(c, e) && EventKeyOf(e) in c.nodes[n].tables.events
    ensures HoldsEvent(c.nodes[n].tables.events, e)
  {
    StoredLogged(c, n, EventKeyOf(e));
  }

  lemma SettledTablesEqual(states: seq<State>, steps: seq<Step>, t: nat, i: nat, j: nat, m: Str, n: Str)
    requires IsRun(states, steps) && Init(states[0]) && EventQuiet(steps, t) && t <= i < |states| && t <= j < |states|
    requires LogsComplete(states[t]) && m in states[t].nodes && n in states[t].nodes
    ensures m in states[i].nodes && n in states[j].nodes
    ensures states[i].nodes[m].tables.events == states[j].nodes[n].tables.events
    ensures WellKeyedEvents(states[j].nodes[n].tables.events)
  {
    NodesFixed(states, steps, t);
    NodesFixed(states, steps, i);
    NodesFixed(states, steps, j);
    ReachableClock(states, steps, i);
    ReachableClock(states, steps, j);
    DominatedNode(states[i], m);
    DominatedNode(states[j], n);
    var a, b := states[i].nodes[m].tables.events, states[j].nodes[n].tables.events;
    forall e ensures HoldsEvent(a, e) <==> HoldsEvent(b, e) {
      CompleteStays(states, steps, t, i, m, e);
      CompleteStays(states, steps, t, j, n, e);
    }
    SameHoldingsSameTable(a, b);
  }

  // ------------------------------------------------------------ marks

  /** An answer's greatest stamp, with the asked mark, reaches everything the server held. */
  lemma EventAnswerReaches(events: Events, start: HLC, out: seq<LogEvent>, k: EventKey, mark: HLC)
    requires WellKeyedEvents(events) && k in events && IsEventsSince(events, start, out)
    requires !After(start, mark) && !After(EventMax(ZERO, out), mark)
    ensures !After(events[k].hlc, mark)
  {
    if After(events[k].hlc, start) {
      assert HoldsEvent(events, events[k]) && events[k] in out;
      EventMaxIsMax(ZERO, out);
    }
  }

  lemma TakenEventMark(states: seq<State>, steps: seq<Step>, k: nat)
    requires IsRun(states, steps) && Init(states[0]) && k < |steps| && steps[k].TakeEvents?
    ensures var rep := steps[k].reply;
            && rep.call.client in states[k + 1].nodes
            && var m := Mark(states[k + 1].nodes[rep.call.client].tables.marks, rep.call.server, Event);
               !After(rep.call.req.evMark, m) && !After(EventMax(ZERO, rep.resp.events), m)
  {
    ReachableClock(states, steps, k);
    assert StepAt(states, steps, k);
    EventMarkAfterTake(states[k], steps[k].reply);
  }

  lemma EventMarkAfterTake(c: State, rep: Reply)
    requires ClockInv(c) && rep in c.replies
    ensures rep.call.client in c.nodes
    ensures var m := Mark(EventsTaken(c.nodes[rep.call.client], rep).tables.marks, rep.call.server, Event);
            !After(rep.call.req.evMark, m) && !After(EventMax(ZERO, rep.resp.events), m)
  {
    DominatedReply(c, rep);
    CallWithin(c, rep.call, Event);
    MarkAfterEvents(c, rep, rep.call.server, Event);
  }

  lemma EventBelowMark(states: seq<State>, steps: seq<Step>, a: Str, b: Str, j: nat, k: nat, l: nat, x: EventKey)
    requires IsRun(states, steps) && Init(states[0]) && EventPull(steps, a, b, j, k) && k < l < |states|
    requires b in states[j].nodes && x in states[j].nodes[b].tables.events
    ensures a in states[l].nodes
    ensures !After(states[j].nodes[b].tables.events[x].hlc, Mark(states[l].nodes[a].tables.marks, b, Event))
  {
    TakenEventMark(states, steps, k);
    MarksNeverGoBack(states, steps, k + 1, l, a, b, Event);
    AnsweredEventReached(states, steps, j, x, Mark(states[l].nodes[a].tables.marks, b, Event));
  }

  lemma AnsweredEventReached(states: seq<State>, steps: seq<Step>, j: nat, x: EventKey, mark: HLC)
    requires IsRun(states, steps) && Init(states[0]) && j < |steps| && steps[j].Serve?
    requires var rep := steps[j].reply;
             && rep.call.server in states[j].nodes && x in states[j].nodes[rep.call.server].tables.events
             && Event in rep.starts
             && !After(rep.call.req.evMark, mark) && !After(EventMax(ZERO, rep.resp.events), mark)
    ensures !After(states[j].nodes[steps[j].reply.call.server].tables.events[x].hlc, mark)
  {
    var rep := steps[j].reply;
    ReachableClock(states, steps, j);
    DominatedNode(states[j], rep.call.server);
    assert StepAt(states, steps, j);
    EventMaxIsMax(ZERO, rep.resp.events);
    EventAnswerReaches(states[j].nodes[rep.call.server].tables.events, rep.starts[Event], rep.resp.events, x, mark);
  }

  /** Equal logs with nothing above the mark: the checksums agree and nothing is sent. */
  lemma QuietEventAnswerIsEmpty(client: Tables, server: Tables, peer: Str, resp: Response)
    requires client.events == server.events && WellKeyedEvents(server.events)
    requires forall k :: k in server.events ==> !After(server.events[k].hlc, Mark(client.marks, peer, Event))
    requires IsAnswer(server, RequestFor(client, peer), resp)
    ensures resp.events == []
  {
    forall e ensures e !in resp.events {
      assert HoldsEvent(server.events, e) ==> !After(e.hlc, Mark(client.marks, peer, Event));
    }
    EmptyOrFirst(resp.events);
  }

  /** Event quiescence, in every run: from a state on in which all logs are complete, with
      nothing emitted, once a has taken one more event pull from b, every later request a
      builds for b is answered without events, however late the answer is made. */
  lemma NoMoreEvents(states: seq<State>, steps: seq<Step>, t: nat, a: Str, b: Str, j: nat, k: nat, l: nat, m: nat, resp: Response)
    requires IsRun(states, steps) && Init(states[0]) && t < |states| && EventQuiet(steps, t)
    requires LogsComplete(states[t]) && a in states[t].nodes && b in states[t].nodes
    requires t <= j && EventPull(steps, a, b, j, k) && k < l <= m < |states|
    requires a in states[l].nodes && b in states[m].nodes
    requires IsAnswer(states[m].nodes[b].tables, RequestFor(states[l].nodes[a].tables, b), resp)
    ensures resp.events == []
  {
    SettledTablesEqual(states, steps, t, j, m, b, b);
    SettledTablesEqual(states, steps, t, l, m, a, b);
    var client, server := states[l].nodes[a].tables, states[m].nodes[b].tables;
    forall x | x in server.events ensures !After(server.events[x].hlc, Mark(client.marks, b, Event)) {
      EventBelowMark(states, steps, a, b, j, k, l, x);
    }
    QuietEventAnswerIsEmpty(client, server, b, resp);
  }
}
