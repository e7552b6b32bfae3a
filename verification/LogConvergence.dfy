/** Convergence of the event log, in every run, collection and pruning included. */
module LogConvergence {
  import opened Text
  import opened Hlc
  import opened Model
  import opened EventLog
  import opened Pull
  import opened Cluster
  import opened Dominance
  import opened LogInvariant
  import opened Runs
  import opened Convergence

  /** From step t on, nobody emits an event. */
  ghost predicate EventQuiet(steps: seq<Step>, t: nat) {
    forall i :: t <= i < |steps| && steps[i].Local? ==> steps[i].emission.Silent?
  }

  ghost predicate EventPull(steps: seq<Step>, a: Str, b: Str, j: nat, k: nat) {
    && j < k < |steps|
    && steps[j].Serve? && steps[j].reply.call.client == a && steps[j].reply.call.server == b
    && Event in steps[j].reply.starts
    && steps[k] == TakeEvents(steps[j].reply)
  }

  ghost predicate PullsEvents(steps: seq<Step>, t: nat, a: Str, b: Str) {
    exists j, k :: t <= j && EventPull(steps, a, b, j, k)
  }

  ghost predicate FullEventMesh(steps: seq<Step>, t: nat, nodes: set<Str>) {
    forall a, b :: a in nodes && b in nodes && a != b ==> PullsEvents(steps, t, a, b)
  }

  /** All stores, always, agree on the content of (runner, number); what they hold is
      what the runner emitted under that number. */
  lemma LogsAgree(states: seq<State>, steps: seq<Step>, i: nat, m: Str, n: Str, k: EventKey)
    requires IsRun(states, steps) && Init(states[0]) && i < |states|
    requires m in states[i].nodes && n in states[i].nodes
    requires k in states[i].nodes[m].tables.events && k in states[i].nodes[n].tables.events
    ensures states[i].nodes[m].tables.events[k] == states[i].nodes[n].tables.events[k]
    ensures Logged(states[i], states[i].nodes[m].tables.events[k])
  {
    ReachableLogged(states, steps, i);
    StoredLogged(states[i], m, k);
    StoredLogged(states[i], n, k);
  }

  lemma ReachableLogged(states: seq<State>, steps: seq<Step>, i: nat)
    requires IsRun(states, steps) && Init(states[0]) && i < |states|
    ensures EventsLogged(states[i])
  {
    ReachableLog(states, steps, i);
  }

  lemma StoredLogged(c: State, n: Str, k: EventKey)
    requires EventsLogged(c) && n in c.nodes && k in c.nodes[n].tables.events
    ensures Logged(c, c.nodes[n].tables.events[k]) && EventKeyOf(c.nodes[n].tables.events[k]) == k
  {
  }

  /** In every state the origin's table holds its events numbered 1, 2, ..., n, all of
      them and no others of its own, with strictly increasing stamps. */
  lemma OriginNumbersItsEvents(states: seq<State>, steps: seq<Step>, i: nat, n: Str)
    requires IsRun(states, steps) && Init(states[0]) && i < |states| && n in states[i].nodes
    ensures var s := states[i].nodes[n];
            && (forall x :: EventKey(n, x) in s.tables.events <==> 1 <= x <= |s.log|)
            && (forall x :: 1 <= x <= |s.log| ==> s.tables.events[EventKey(n, x)] == s.log[x - 1])
            && (forall x, y :: 0 <= x < y < |s.log| ==> After(s.log[y].hlc, s.log[x].hlc))
  {
    ReachableLog(states, steps, i);
    ReachableOrder(states, steps, i, n);
    OwnNumbers(states[i], n);
  }

  /** A tick's event is above all events of its node. */
  lemma StepKeepsOrder(c: State, step: Step, n: Str)
    requires n in c.nodes && NodeDominates(c.nodes[n]) && Enabled(c, step) && Ordered(c.nodes[n].log)
    ensures Ordered(Do(c, step).nodes[n].log)
  {
    var s := c.nodes[n];
    if step.Local? && step.node == n {
      var es := Emitted(s.tables.events, n, step.emission, TickFrom(s.clock, step.now));
      GrowthKeepsOrderExactly(s.log, es);
      if s.log != [] {
        assert s.log[|s.log| - 1] in s.log;
      }
    }
  }

  lemma {:induction false} ReachableOrder(states: seq<State>, steps: seq<Step>, i: nat, n: Str)
    requires IsRun(states, steps) && Init(states[0]) && i < |states| && n in states[i].nodes
    ensures Ordered(states[i].nodes[n].log)
  {
    if i > 0 {
      assert StepAt(states, steps, i - 1);
      ReachableOrder(states, steps, i - 1, n);
      ReachableClock(states, steps, i - 1);
      DominatedNode(states[i - 1], n);
      StepKeepsOrder(states[i - 1], steps[i - 1], n);
    }
  }

  lemma OwnNumbers(c: State, n: Str)
    requires NumberInv(c) && n in c.nodes
    ensures var s := c.nodes[n];
            && (forall x :: EventKey(n, x) in s.tables.events <==> 1 <= x <= |s.log|)
            && (forall x :: 1 <= x <= |s.log| ==> s.tables.events[EventKey(n, x)] == s.log[x - 1])
  {
    var s := c.nodes[n];
    assert OwnLog(s, n);
    forall x | 1 <= x <= |s.log| ensures EventKey(n, x) in s.tables.events && s.tables.events[EventKey(n, x)] == s.log[x - 1] {
      assert HoldsEvent(s.tables.events, s.log[x - 1]);
    }
    forall x | EventKey(n, x) in s.tables.events ensures 1 <= x <= |s.log| {
      assert Logged(c, s.tables.events[EventKey(n, x)]);
    }
  }

  /** The event watermark skips nothing the peer emitted itself. */
  lemma EventWatermarkCompleteness(states: seq<State>, steps: seq<Step>, i: nat, a: Str, b: Str, e: LogEvent)
    requires IsRun(states, steps) && Init(states[0]) && i < |states|
    requires a in states[i].nodes && b in states[i].nodes && e in states[i].nodes[b].log
    requires !After(e.hlc, Mark(states[i].nodes[a].tables.marks, b, Event))
    ensures HoldsEvent(states[i].nodes[a].tables.events, e)
  {
    ReachableLog(states, steps, i);
    assert SkippableEvent(states[i].nodes[a], b, states[i].nodes[b], e);
    FiledIsLogged(states[i], a, b, e);
  }

  lemma FiledIsLogged(c: State, a: Str, b: Str, e: LogEvent)
    requires OwnLogs(c) && EventsLogged(c) && a in c.nodes && b in c.nodes
    requires e in c.nodes[b].log && EventKeyOf(e) in c.nodes[a].tables.events
    ensures HoldsEvent(c.nodes[a].tables.events, e)
  {
    assert OwnLog(c.nodes[b], b);
    assert Logged(c, c.nodes[a].tables.events[EventKeyOf(e)]);
  }

  // ------------------------------------------------------------ convergence

  lemma SilentStepKeepsLog(c: State, step: Step, n: Str)
    requires Enabled(c, step) && n in c.nodes && (step.Local? ==> step.emission.Silent?)
    ensures n in Do(c, step).nodes && Do(c, step).nodes[n].log == c.nodes[n].log
  {
  }

  lemma {:induction false} LogFrozen(states: seq<State>, steps: seq<Step>, t: nat, i: nat, j: nat, n: Str)
    requires IsRun(states, steps) && EventQuiet(steps, t) && t <= i <= j < |states| && n in states[i].nodes
    ensures n in states[j].nodes && states[j].nodes[n].log == states[i].nodes[n].log
    decreases j
  {
    if i < j {
      LogFrozen(states, steps, t, i, j - 1, n);
      assert StepAt(states, steps, j - 1);
      SilentStepKeepsLog(states[j - 1], steps[j - 1], n);
    }
  }

  lemma StepKeepsEventKey(c: State, step: Step, n: Str, k: EventKey)
    requires Enabled(c, step) && n in c.nodes && k in c.nodes[n].tables.events
    ensures k in Do(c, step).nodes[n].tables.events
  {
    if step.TakeEvents? && step.reply.call.client == n {
      InsertAllAdds(c.nodes[n].tables.events, step.reply.resp.events);
    }
  }

  lemma {:induction false} EventsNeverLost(states: seq<State>, steps: seq<Step>, i: nat, j: nat, n: Str, k: EventKey)
    requires IsRun(states, steps) && i <= j < |states| && n in states[i].nodes && k in states[i].nodes[n].tables.events
    ensures n in states[j].nodes && k in states[j].nodes[n].tables.events
    decreases j
  {
    if i < j {
      EventsNeverLost(states, steps, i, j - 1, n, k);
      assert StepAt(states, steps, j - 1);
      StepKeepsEventKey(states[j - 1], steps[j - 1], n, k);
    }
  }

  lemma EventAnswerOrAlreadyThere(c: State, rep: Reply, e: LogEvent)
    requires CallsWithin(c) && OwnLogs(c) && EventMarksCover(c)
    requires rep.call in c.calls && rep.call.server in c.nodes
    requires IsPart(c.nodes[rep.call.server].tables, rep.call.req, rep.starts, rep.resp) && Event in rep.starts
    requires e in c.nodes[rep.call.server].log && After(e.hlc, ZERO)
    ensures rep.call.client in c.nodes
    ensures EventKeyOf(e) in c.nodes[rep.call.client].tables.events || e in rep.resp.events
  {
    var a, b := rep.call.client, rep.call.server;
    if After(e.hlc, rep.call.req.evMark) {
      AnswerHoldsLog(c.nodes[b], b, rep, e);
    } else {
      assert MarksWithin(c.nodes[a].tables, b, rep.call.req);
      assert SkippableEvent(c.nodes[a], b, c.nodes[b], e);
    }
  }

  lemma EventPullAnswered(states: seq<State>, steps: seq<Step>, j: nat, e: LogEvent)
    requires IsRun(states, steps) && Init(states[0]) && j < |steps| && steps[j].Serve?
    requires var rep := steps[j].reply;
             rep.call.server in states[j].nodes && e in states[j].nodes[rep.call.server].log && Event in rep.starts
    ensures steps[j].reply.call.client in states[j].nodes
    ensures EventKeyOf(e) in states[j].nodes[steps[j].reply.call.client].tables.events || e in steps[j].reply.resp.events
  {
    ReachableClock(states, steps, j);
    ReachableLog(states, steps, j);
    assert StepAt(states, steps, j);
    DominatedNode(states[j], steps[j].reply.call.server);
    EventAnswerOrAlreadyThere(states[j], steps[j].reply, e);
  }

  lemma EventPullTaken(states: seq<State>, steps: seq<Step>, k: nat, e: LogEvent)
    requires IsRun(states, steps) && k < |steps| && steps[k].TakeEvents? && e in steps[k].reply.resp.events
    ensures var a := steps[k].reply.call.client;
            a in states[k + 1].nodes && EventKeyOf(e) in states[k + 1].nodes[a].tables.events
  {
    assert StepAt(states, steps, k);
    InsertAllAdds(states[k].nodes[steps[k].reply.call.client].tables.events, steps[k].reply.resp.events);
  }

  lemma EventPullDelivers(states: seq<State>, steps: seq<Step>, a: Str, b: Str, j: nat, k: nat, e: LogEvent)
    requires IsRun(states, steps) && Init(states[0]) && EventPull(steps, a, b, j, k)
    requires b in states[j].nodes && e in states[j].nodes[b].log
    ensures a in states[|steps|].nodes && EventKeyOf(e) in states[|steps|].nodes[a].tables.events
  {
    EventPullAnswered(states, steps, j, e);
    if EventKeyOf(e) in states[j].nodes[a].tables.events {
      EventsNeverLost(states, steps, j, |steps|, a, EventKeyOf(e));
    } else {
      EventPullTaken(states, steps, k, e);
      EventsNeverLost(states, steps, k + 1, |steps|, a, EventKeyOf(e));
    }
  }

  /** Whatever b emitted, a holds at the end. */
  lemma MeshHolds(states: seq<State>, steps: seq<Step>, t: nat, a: Str, b: Str, e: LogEvent)
    requires IsRun(states, steps) && Init(states[0]) && t <= |steps| && EventQuiet(steps, t)
    requires a in states[|steps|].nodes && b in states[|steps|].nodes && e in states[|steps|].nodes[b].log
    requires a != b ==> PullsEvents(steps, t, a, b)
    ensures HoldsEvent(states[|steps|].nodes[a].tables.events, e)
  {
    ReachableLog(states, steps, |steps|);
    if a == b {
      assert OwnLog(states[|steps|].nodes[a], a);
    } else {
      var j, k :| t <= j && EventPull(steps, a, b, j, k);
      NodesFixed(states, steps, j);
      NodesFixed(states, steps, |steps|);
      LogFrozen(states, steps, t, j, |steps|, b);
      EventPullDelivers(states, steps, a, b, j, k, e);
      FiledIsLogged(states[|steps|], a, b, e);
    }
  }

  /** Log convergence: once emission stops and every node completes one further event
      pull from every other, each log is exactly the union of what all runners emitted. */
  lemma LogsConverge(states: seq<State>, steps: seq<Step>, t: nat, n: Str)
    requires IsRun(states, steps) && Init(states[0]) && t <= |steps|
    requires EventQuiet(steps, t) && FullEventMesh(steps, t, states[0].nodes.Keys) && n in states[|steps|].nodes
    ensures forall e :: HoldsEvent(states[|steps|].nodes[n].tables.events, e) <==> Logged(states[|steps|], e)
  {
    var last := states[|steps|];
    ReachableLog(states, steps, |steps|);
    NodesFixed(states, steps, |steps|);
    forall e | HoldsEvent(last.nodes[n].tables.events, e) ensures Logged(last, e) {
      assert Logged(last, last.nodes[n].tables.events[EventKeyOf(e)]);
    }
    forall e | Logged(last, e) ensures HoldsEvent(last.nodes[n].tables.events, e) {
      assert e in last.nodes[e.runner].log;
      MeshHolds(states, steps, t, n, e.runner, e);
    }
  }

  /** Hence any two nodes end with the same event table. */
  lemma LogsEqual(states: seq<State>, steps: seq<Step>, t: nat, m: Str, n: Str)
    requires IsRun(states, steps) && Init(states[0]) && t <= |steps|
    requires EventQuiet(steps, t) && FullEventMesh(steps, t, states[0].nodes.Keys)
    requires m in states[|steps|].nodes && n in states[|steps|].nodes
    ensures states[|steps|].nodes[m].tables.events == states[|steps|].nodes[n].tables.events
  {
    LogsConverge(states, steps, t, m);
    LogsConverge(states, steps, t, n);
    ReachableClock(states, steps, |steps|);
    var a, b := states[|steps|].nodes[m].tables.events, states[|steps|].nodes[n].tables.events;
    assert NodeDominates(states[|steps|].nodes[m]) && NodeDominates(states[|steps|].nodes[n]);
    SameHoldingsSameTable(a, b);
  }

  lemma SameHoldingsSameTable(a: Events, b: Events)
    requires WellKeyedEvents(a) && WellKeyedEvents(b)
    requires forall e :: HoldsEvent(a, e) <==> HoldsEvent(b, e)
    ensures a == b
  {
    forall k | k in a ensures k in b && a[k] == b[k] {
      assert HoldsEvent(a, a[k]);
    }
    forall k | k in b ensures k in a {
      assert HoldsEvent(b, b[k]);
    }
  }
}
