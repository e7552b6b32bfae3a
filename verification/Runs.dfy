/** What holds over whole runs: every reachable state, every pair of moments. */
module Runs {
  import opened Text
  import opened Hlc
  import opened Model
  import opened Merge
  import opened Sync
  import opened Cluster
  import opened Dominance
  import opened Stamps
  import opened Coverage
  import opened LogInvariant

  // ------------------------------------------------------------ reachable states

  lemma {:induction false} ReachableClock(states: seq<State>, steps: seq<Step>, i: nat)
    requires IsRun(states, steps) && Init(states[0]) && i < |states|
    ensures ClockInv(states[i])
  {
    if i == 0 {
      InitClockInv(states[0]);
    } else {
      ReachableClock(states, steps, i - 1);
      assert StepAt(states, steps, i - 1);
      StepKeepsClockInv(states[i - 1], steps[i - 1]);
    }
  }

  lemma {:induction false} ReachableOrigin(states: seq<State>, steps: seq<Step>, i: nat)
    requires IsRun(states, steps) && Init(states[0]) && i < |states|
    ensures OriginInv(states[i])
  {
    if i > 0 {
      ReachableOrigin(states, steps, i - 1);
      assert StepAt(states, steps, i - 1);
      StepKeepsOriginInv(states[i - 1], steps[i - 1]);
    }
  }

  lemma {:induction false} ReachableLog(states: seq<State>, steps: seq<Step>, i: nat)
    requires IsRun(states, steps) && Init(states[0]) && i < |states|
    ensures LogInv(states[i])
  {
    if i == 0 {
      InitLogInv(states[0]);
    } else {
      ReachableLog(states, steps, i - 1);
      assert StepAt(states, steps, i - 1);
      ReachableClock(states, steps, i - 1);
      StepKeepsLogInv(states[i - 1], steps[i - 1]);
    }
  }

  /** If no collection removes anything, the coverage invariant holds as well. */
  lemma {:induction false} ReachableCover(states: seq<State>, steps: seq<Step>, i: nat)
    requires IsRun(states, steps) && Init(states[0]) && NothingCollected(states, steps) && i < |states|
    ensures CoverInv(states[i])
  {
    if i == 0 {
      InitCoverInv(states[0]);
    } else {
      ReachableClock(states, steps, i - 1);
      assert StepAt(states, steps, i - 1);
      ReachableCover(states, steps, i - 1);
      StepKeepsCoverInv(states[i - 1], steps[i - 1]);
    }
  }

  /** Without pruning, no two rows share a stamp. */
  lemma {:induction false} ReachableStamps(states: seq<State>, steps: seq<Step>, i: nat)
    requires IsRun(states, steps) && Init(states[0]) && NoPrune(steps) && i < |states|
    ensures OwnStampsInv(states[i])
  {
    if i > 0 {
      ReachableClock(states, steps, i - 1);
      assert StepAt(states, steps, i - 1);
      ReachableStamps(states, steps, i - 1);
      StepKeepsOwnStamps(states[i - 1], steps[i - 1]);
    }
  }

  // ------------------------------------------------------------ clock dominance

  /** h is above every stamp in the node's tables and histories. */
  ghost predicate AboveNode(s: NodeState, h: HLC) {
    && (forall k :: k in s.tables.rows ==> After(h, s.tables.rows[k].hlc))
    && (forall k :: k in s.tables.events ==> After(h, s.tables.events[k].hlc))
    && (forall w :: w in s.writes ==> After(h, w.hlc))
    && (forall e :: e in s.log ==> After(h, e.hlc))
  }

  ghost predicate AboveReply(rep: Reply, h: HLC) {
    && (forall r :: r in rep.resp.rows ==> After(h, r.hlc))
    && (forall e :: e in rep.resp.events ==> After(h, e.hlc))
  }

  /** h is above all that node n stores, has in flight, or is remembered for. */
  ghost predicate AboveAll(c: State, n: Str, h: HLC)
    requires n in c.nodes
  {
    && AboveNode(c.nodes[n], h)
    && (forall a, kind :: a in c.nodes ==> After(h, Mark(c.nodes[a].tables.marks, n, kind)))
    && (forall rep :: rep in c.replies && rep.call.server == n ==> AboveReply(rep, h))
  }

  lemma AboveClockIsAboveNode(s: NodeState, h: HLC)
    requires NodeDominates(s) && After(h, s.clock)
    ensures AboveNode(s, h)
  {
  }

  lemma AboveClockIsAboveReply(rep: Reply, k: HLC, h: HLC)
    requires ReplyIssued(rep, k) && After(h, k)
    ensures AboveReply(rep, h)
  {
  }

  lemma AboveClockIsAboveAll(c: State, n: Str, h: HLC)
    requires ClockInv(c) && n in c.nodes && After(h, c.nodes[n].clock)
    ensures AboveAll(c, n, h)
  {
    DominatedNode(c, n);
    AboveClockIsAboveNode(c.nodes[n], h);
    forall a, kind | a in c.nodes ensures After(h, Mark(c.nodes[a].tables.marks, n, kind)) {
      DominatedMark(c, a, n, kind);
    }
    forall rep | rep in c.replies && rep.call.server == n ensures AboveReply(rep, h) {
      DominatedReply(c, rep);
      AboveClockIsAboveReply(rep, c.nodes[n].clock, h);
    }
  }

  /** In every run, a tick issues a stamp above everything its node stores, above
      everything it has in flight, and above every watermark any peer holds for it. */
  lemma TicksDominate(states: seq<State>, steps: seq<Step>, i: nat)
    requires IsRun(states, steps) && Init(states[0]) && i < |steps| && StepAt(states, steps, i) && steps[i].Local?
    ensures AboveAll(states[i], steps[i].node, TickFrom(states[i].nodes[steps[i].node].clock, steps[i].now))
  {
    ReachableClock(states, steps, i);
    AboveClockIsAboveAll(states[i], steps[i].node, TickFrom(states[i].nodes[steps[i].node].clock, steps[i].now));
  }

  lemma StepMovesClock(c: State, step: Step, n: Str)
    requires Enabled(c, step) && n in c.nodes
    ensures !After(c.nodes[n].clock, Do(c, step).nodes[n].clock)
  {
  }

  lemma {:induction false} ClocksNeverGoBack(states: seq<State>, steps: seq<Step>, i: nat, j: nat, n: Str)
    requires IsRun(states, steps) && i <= j < |states| && n in states[i].nodes
    ensures n in states[j].nodes && !After(states[i].nodes[n].clock, states[j].nodes[n].clock)
    decreases j
  {
    if i < j {
      ClocksNeverGoBack(states, steps, i, j - 1, n);
      assert StepAt(states, steps, j - 1);
      StepMovesClock(states[j - 1], steps[j - 1], n);
    }
  }

  /** A write that its node made after holding row r. */
  ghost predicate WritesAfterHolding(states: seq<State>, steps: seq<Step>, r: Row, i: nat, w: Row, j: nat)
    requires IsRun(states, steps)
  {
    && i <= j < |steps| && StepAt(states, steps, j) && steps[j].Local?
    && steps[j].node in states[i].nodes && Holds(states[i].nodes[steps[j].node].tables.rows, r)
    && w.hlc == TickFrom(states[j].nodes[steps[j].node].clock, steps[j].now)
  }

  lemma HeldIsBelow(c: State, n: Str, r: Row)
    requires ClockInv(c) && n in c.nodes && Holds(c.nodes[n].tables.rows, r)
    ensures !After(r.hlc, c.nodes[n].clock)
  {
    assert NodeDominates(c.nodes[n]);
  }

  lemma CausalStep(states: seq<State>, steps: seq<Step>, r: Row, i: nat, w: Row, j: nat)
    requires IsRun(states, steps) && Init(states[0])
    requires WritesAfterHolding(states, steps, r, i, w, j)
    ensures After(w.hlc, r.hlc)
  {
    var n := steps[j].node;
    ReachableClock(states, steps, i);
    ClocksNeverGoBack(states, steps, i, j, n);
    HeldIsBelow(states[i], n, r);
  }

  /** Causality: along any chain of rows in which each was written by a node that had
      held the one before, stamps strictly increase, however many nodes it crosses. */
  lemma {:induction false} CausalChain(states: seq<State>, steps: seq<Step>, rows: seq<Row>, held: seq<nat>, written: seq<nat>)
    requires IsRun(states, steps) && Init(states[0])
    requires |rows| >= 2 && |held| == |rows| && |written| == |rows|
    requires forall m :: 0 < m < |rows| ==> WritesAfterHolding(states, steps, rows[m - 1], held[m], rows[m], written[m])
    ensures After(rows[|rows| - 1].hlc, rows[0].hlc)
  {
    var m := |rows| - 1;
    CausalStep(states, steps, rows[m - 1], held[m], rows[m], written[m]);
    if m > 1 {
      CausalChain(states, steps, rows[..m], held[..m], written[..m]);
    }
  }

  // ------------------------------------------------------------ blind writes

  /** Two rows of a table and a fresh delta never share key and stamp. */
  lemma FreshDeltaDetermines(s: NodeState, n: Str, op: RowOp, h: HLC)
    requires NodeDominates(s) && OpAllowed(s, n, op) && After(h, s.clock)
    ensures StampsDetermine(s.tables.rows.Values + Delta(s.tables.rows, op, h).Values)
  {
    DeltaStamped(s, n, op, h);
  }

  lemma FreshDeltaIsJoin(s: NodeState, n: Str, op: RowOp, h: HLC)
    requires NodeDominates(s) && OpAllowed(s, n, op) && After(h, s.clock) && NothingRemoved(s.tables.rows, op, h)
    ensures IsJoin(s.tables.rows, Delta(s.tables.rows, op, h).Values, RowsAfter(s.tables.rows, op, h))
  {
    var rows, d := s.tables.rows, Delta(s.tables.rows, op, h);
    DeltaStamped(s, n, op, h);
    KeptRows(rows, op, h);
    var out := rows + d;
    forall k | k in rows ensures AtLeast(out[k], rows[k]) {
      AtLeastReflexive(rows[k]);
    }
    forall r | r in d.Values ensures Covers(out, r) {
      AtLeastReflexive(r);
    }
  }

  /** In every reachable state a blind write, a delete and a prune change the table
      exactly as the guarded merge of the rows they write, in whatever order. */
  lemma BlindWritesRefineMerge(states: seq<State>, steps: seq<Step>, i: nat, batch: seq<Row>)
    requires IsRun(states, steps) && Init(states[0])
    requires i < |steps| && StepAt(states, steps, i) && steps[i].Local? && !Removes(states[i], steps[i])
    requires var s := states[i].nodes[steps[i].node];
             ToSet(batch) == Delta(s.tables.rows, steps[i].op, TickFrom(s.clock, steps[i].now)).Values
    ensures states[i + 1].nodes[steps[i].node].tables.rows
            == JoinBatch(states[i].nodes[steps[i].node].tables.rows, batch)
  {
    ReachableClock(states, steps, i);
    var n := steps[i].node;
    var s := states[i].nodes[n];
    var h := TickFrom(s.clock, steps[i].now);
    assert NodeDominates(s);
    FreshDeltaDetermines(s, n, steps[i].op, h);
    FreshDeltaIsJoin(s, n, steps[i].op, h);
    JoinBatchIsJoin(s.tables.rows, batch);
    JoinIsUnique(s.tables.rows, ToSet(batch), JoinBatch(s.tables.rows, batch), RowsAfter(s.tables.rows, steps[i].op, h));
  }

  /** In every run whose collections remove nothing, no key's row is ever lost or replaced by an
      older one. */
  lemma {:induction false} RowsNeverGoBack(states: seq<State>, steps: seq<Step>, i: nat, j: nat, n: Str, w: Row)
    requires IsRun(states, steps) && Init(states[0]) && NothingCollected(states, steps) && i <= j < |states|
    requires n in states[i].nodes && Covers(states[i].nodes[n].tables.rows, w)
    ensures n in states[j].nodes && Covers(states[j].nodes[n].tables.rows, w)
    decreases j
  {
    if i < j {
      RowsNeverGoBack(states, steps, i, j - 1, n, w);
      assert StepAt(states, steps, j - 1);
      ReachableClock(states, steps, j - 1);
      StepKeepsCover(states[j - 1], steps[j - 1], n, w);
    }
  }

  // ------------------------------------------------------------ watermarks and stamps

  /** Per-origin watermark completeness, in every state of every run without real
      collection. */
  lemma WatermarkCompleteness(states: seq<State>, steps: seq<Step>, i: nat, a: Str, b: Str, w: Row)
    requires IsRun(states, steps) && Init(states[0]) && NothingCollected(states, steps) && i < |states|
    requires a in states[i].nodes && b in states[i].nodes && w in states[i].nodes[b].writes
    requires !After(w.hlc, Mark(states[i].nodes[a].tables.marks, b, w.kind))
    ensures Covers(states[i].nodes[a].tables.rows, w)
  {
    ReachableCover(states, steps, i);
    assert Skippable(states[i].nodes[a], b, states[i].nodes[b], w);
  }

  /** r is stored at some node or travels in some reply. */
  ghost predicate Present(c: State, r: Row) {
    || (exists n :: n in c.nodes && Holds(c.nodes[n].tables.rows, r))
    || (exists rep :: rep in c.replies && r in rep.resp.rows)
  }

  lemma PresentIsWritten(c: State, r: Row)
    requires OriginInv(c) && Present(c, r)
    ensures Written(c, r)
  {
    if n :| n in c.nodes && Holds(c.nodes[n].tables.rows, r) {
      assert Written(c, c.nodes[n].tables.rows[KeyOf(r)]);
    }
  }

  /** Stamp uniqueness: in every run without pruning, rows stored or in flight with
      equal stamp and owner are one row, so `Newer` orders the versions of a key
      strictly and totally. */
  lemma StampUniqueness(states: seq<State>, steps: seq<Step>, i: nat, v: Row, w: Row)
    requires IsRun(states, steps) && Init(states[0]) && NoPrune(steps) && i < |states|
    requires Present(states[i], v) && Present(states[i], w)
    ensures v == w || Newer(v, w) || Newer(w, v)
  {
    ReachableOrigin(states, steps, i);
    ReachableStamps(states, steps, i);
    PresentIsWritten(states[i], v);
    PresentIsWritten(states[i], w);
    OwnStampsMakeUnique(states[i]);
    NewerTrichotomy(v, w);
  }

  // ------------------------------------------------------------ drift

  /** No clock is behind its node's last wall reading or ahead of the greatest
      reading any node has made. */
  ghost predicate DriftInv(c: State) {
    && c.maxWall >= 0
    && forall n :: n in c.nodes ==> c.nodes[n].wall <= c.nodes[n].clock.ts <= c.maxWall
  }

  /** Taking a reply moves the clock no further than its server's. */
  lemma TakenClockBound(c: State, rep: Reply)
    requires ClockInv(c) && rep in c.replies
    ensures rep.call.client in c.nodes && rep.call.server in c.nodes
    ensures var k, b := c.nodes[rep.call.client].clock, c.nodes[rep.call.server].clock;
            && !After(ClockAfterRows(k, rep.resp.rows), Max(k, b)) && !After(k, ClockAfterRows(k, rep.resp.rows))
            && !After(ClockAfterEvents(k, rep.resp.events), Max(k, b)) && !After(k, ClockAfterEvents(k, rep.resp.events))
  {
    DominatedReply(c, rep);
    ReplyMaxima(c, rep, Runner);
  }

  lemma StepKeepsDrift(c: State, step: Step)
    requires ClockInv(c) && DriftInv(c) && Enabled(c, step)
    ensures DriftInv(Do(c, step))
  {
    if step.TakeRows? || step.TakeEvents? {
      TakenClockBound(c, step.reply);
      TakenDrift(c, Do(c, step), step.reply);
    } else {
      OtherDrift(c, step);
    }
  }

  lemma OtherDrift(c: State, step: Step)
    requires DriftInv(c) && Enabled(c, step) && !step.TakeRows? && !step.TakeEvents?
    ensures DriftInv(Do(c, step))
  {
  }

  lemma TakenDrift(c: State, c': State, rep: Reply)
    requires DriftInv(c) && rep.call.client in c.nodes && rep.call.server in c.nodes && c'.maxWall == c.maxWall
    requires c'.nodes.Keys == c.nodes.Keys
    requires forall n :: n in c.nodes && n != rep.call.client ==> c'.nodes[n] == c.nodes[n]
    requires var s, s' := c.nodes[rep.call.client], c'.nodes[rep.call.client];
             && s'.wall == s.wall && !After(s.clock, s'.clock)
             && !After(s'.clock, Max(s.clock, c.nodes[rep.call.server].clock))
    ensures DriftInv(c')
  {
  }

  lemma {:induction false} ReachableDrift(states: seq<State>, steps: seq<Step>, i: nat)
    requires IsRun(states, steps) && Init(states[0]) && i < |states|
    ensures DriftInv(states[i])
  {
    if i > 0 {
      ReachableDrift(states, steps, i - 1);
      assert StepAt(states, steps, i - 1);
      ReachableClock(states, steps, i - 1);
      StepKeepsDrift(states[i - 1], steps[i - 1]);
    }
  }

  /** No timestamp at all exceeds `bound`. */
  ghost predicate AllWithin(c: State, bound: int) {
    && (forall n :: n in c.nodes ==> NodeWithin(c.nodes[n], bound))
    && (forall rep :: rep in c.replies ==> ReplyWithin(rep, bound))
  }

  ghost predicate NodeWithin(s: NodeState, bound: int) {
    && s.clock.ts <= bound
    && (forall k :: k in s.tables.rows ==> s.tables.rows[k].hlc.ts <= bound)
    && (forall k :: k in s.tables.events ==> s.tables.events[k].hlc.ts <= bound)
    && (forall p, kind :: Mark(s.tables.marks, p, kind).ts <= bound)
  }

  lemma DominatedWithin(s: NodeState, bound: int)
    requires NodeDominates(s) && s.clock.ts <= bound
    ensures NodeWithin(s, bound)
  {
  }

  ghost predicate ReplyWithin(rep: Reply, bound: int) {
    && (forall r :: r in rep.resp.rows ==> r.hlc.ts <= bound)
    && (forall e :: e in rep.resp.events ==> e.hlc.ts <= bound)
  }

  lemma IssuedWithin(rep: Reply, k: HLC, bound: int)
    requires ReplyIssued(rep, k) && k.ts <= bound
    ensures ReplyWithin(rep, bound)
  {
  }

  lemma DriftBounds(c: State)
    requires ClockInv(c) && DriftInv(c)
    ensures AllWithin(c, c.maxWall)
  {
    forall n | n in c.nodes ensures NodeWithin(c.nodes[n], c.maxWall) {
      DominatedNode(c, n);
      DominatedWithin(c.nodes[n], c.maxWall);
    }
    forall rep | rep in c.replies ensures ReplyWithin(rep, c.maxWall) {
      DominatedReply(c, rep);
      IssuedWithin(rep, c.nodes[rep.call.server].clock, c.maxWall);
    }
  }

  /** Bounded drift: a clock is never behind its node's last wall reading, and no
      timestamp anywhere exceeds zero and every wall reading made so far. */
  lemma BoundedDrift(states: seq<State>, steps: seq<Step>, i: nat)
    requires IsRun(states, steps) && Init(states[0]) && i < |states|
    ensures forall n :: n in states[i].nodes ==> states[i].nodes[n].wall <= states[i].nodes[n].clock.ts
    ensures AllWithin(states[i], states[i].maxWall)
  {
    ReachableDrift(states, steps, i);
    ReachableClock(states, steps, i);
    DriftBounds(states[i]);
  }

  /** The bound is tight: it is zero or a reading some node made. */
  lemma {:induction false} MaxWallWasRead(states: seq<State>, steps: seq<Step>, i: nat)
    requires IsRun(states, steps) && Init(states[0]) && i < |states|
    ensures states[i].maxWall == 0 || exists j :: 0 <= j < i && steps[j].Local? && steps[j].now == states[i].maxWall
  {
    if i > 0 {
      MaxWallWasRead(states, steps, i - 1);
      assert StepAt(states, steps, i - 1);
      if states[i].maxWall != states[i - 1].maxWall {
        assert steps[i - 1].Local? && steps[i - 1].now == states[i].maxWall;
      }
    }
  }
}
