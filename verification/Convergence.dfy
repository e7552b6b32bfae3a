/** Convergence of the row tables: after row writes stop, one further pull between
    every two nodes leaves every node with the greatest row ever written to each key. */
module Convergence {
  import opened Text
  import opened Hlc
  import opened Model
  import opened Merge
  import opened EventLog
  import opened Storage
  import opened Pull
  import opened Cluster
  import opened Dominance
  import opened Stamps
  import opened Coverage
  import opened Runs

  /** From step t on, nobody writes or removes rows. Ticks, events, pulls and collections
      that find nothing go on. */
  ghost predicate RowQuiet(states: seq<State>, steps: seq<Step>, t: nat) {
    forall i :: t <= i < |steps| && i < |states| ==> QuietStep(states[i], steps[i])
  }

  /** The step writes no row: it is not local, or a tick without a row operation, or a
      collection that finds nothing. */
  predicate QuietStep(c: State, step: Step) {
    step.Local? ==> step.op.NoRow? || (step.op.GcOp? && !Removes(c, step))
  }

  /** Step j has b answer the kind for a call of a's, and step k has a take that answer's
      rows. */
  ghost predicate RowPull(steps: seq<Step>, a: Str, b: Str, kind: Kind, j: nat, k: nat) {
    && j < k < |steps|
    && steps[j].Serve? && steps[j].reply.call.client == a && steps[j].reply.call.server == b
    && kind in steps[j].reply.starts
    && steps[k] == TakeRows(steps[j].reply)
  }

  /** a completes a pull of the kind from b that is answered at t or later. The call itself
      may be older, the other kind may be answered at another moment, and other steps may
      come in between. */
  ghost predicate PullsRows(steps: seq<Step>, t: nat, a: Str, b: Str, kind: Kind) {
    exists j, k :: t <= j && RowPull(steps, a, b, kind, j, k)
  }

  ghost predicate FullMesh(steps: seq<Step>, t: nat, nodes: set<Str>) {
    forall a, b, kind :: a in nodes && b in nodes && a != b && RowKind(kind) ==> PullsRows(steps, t, a, b, kind)
  }

  /** Every node is at or above every row ever written. */
  ghost predicate Converged(c: State) {
    forall n, w {:trigger Covers(c.nodes[n].tables.rows, w)} ::
      n in c.nodes && Written(c, w) ==> Covers(c.nodes[n].tables.rows, w)
  }

  // ------------------------------------------------------------ frozen histories

  lemma QuietStepKeepsHistory(c: State, step: Step, n: Str)
    requires Enabled(c, step) && n in c.nodes && QuietStep(c, step)
    ensures Do(c, step).nodes.Keys == c.nodes.Keys
    ensures Do(c, step).nodes[n].writes == c.nodes[n].writes
  {
  }

  lemma {:induction false} HistoryFrozen(states: seq<State>, steps: seq<Step>, t: nat, i: nat, j: nat, n: Str)
    requires IsRun(states, steps) && RowQuiet(states, steps, t) && t <= i <= j < |states| && n in states[i].nodes
    ensures n in states[j].nodes && states[j].nodes[n].writes == states[i].nodes[n].writes
    decreases j
  {
    if i < j {
      HistoryFrozen(states, steps, t, i, j - 1, n);
      assert StepAt(states, steps, j - 1);
      QuietStepKeepsHistory(states[j - 1], steps[j - 1], n);
    }
  }

  lemma {:induction false} NodesFixed(states: seq<State>, steps: seq<Step>, i: nat)
    requires IsRun(states, steps) && i < |states|
    ensures states[i].nodes.Keys == states[0].nodes.Keys
  {
    if i > 0 {
      NodesFixed(states, steps, i - 1);
      assert StepAt(states, steps, i - 1);
    }
  }

  // ------------------------------------------------------------ one pull delivers

  /** In the state where the server answers: what it wrote is already covered by the
      client, or covered by the answer. */
  lemma AnswerOrAlreadyThere(c: State, rep: Reply, w: Row)
    requires ClockInv(c) && CoverInv(c)
    requires rep.call in c.calls && rep.call.server in c.nodes
    requires IsPart(c.nodes[rep.call.server].tables, rep.call.req, rep.starts, rep.resp)
    requires w in c.nodes[rep.call.server].writes && w.kind in rep.starts
    ensures rep.call.client in c.nodes
    ensures Covers(c.nodes[rep.call.client].tables.rows, w) || CoveredBy(rep.resp.rows, w)
  {
    var a, b := rep.call.client, rep.call.server;
    DominatedNode(c, b);
    CallWithin(c, rep.call, w.kind);
    if After(w.hlc, ReqMark(rep.call.req, w.kind)) {
      DominatedIsStructured(c);
      AnswerCoversOrigin(c.nodes[b], rep, w);
    } else {
      SkippableByCall(c.nodes[a], b, c.nodes[b], rep.call.req, w);
    }
  }

  lemma SkippableByCall(s: NodeState, b: Str, origin: NodeState, q: Request, w: Row)
    requires w in origin.writes && !After(w.hlc, ReqMark(q, w.kind)) && NodeDominates(origin)
    requires RowKind(w.kind) ==> !After(ReqMark(q, w.kind), Mark(s.tables.marks, b, w.kind))
    ensures Skippable(s, b, origin, w)
  {
  }

  /** The state in which the answer is made. */
  lemma PullAnswered(states: seq<State>, steps: seq<Step>, j: nat, w: Row)
    requires IsRun(states, steps) && Init(states[0]) && NothingCollected(states, steps) && j < |steps| && steps[j].Serve?
    requires var rep := steps[j].reply;
             rep.call.server in states[j].nodes && w in states[j].nodes[rep.call.server].writes && w.kind in rep.starts
    ensures steps[j].reply.call.client in states[j].nodes
    ensures Covers(states[j].nodes[steps[j].reply.call.client].tables.rows, w) || CoveredBy(steps[j].reply.resp.rows, w)
  {
    ReachableClock(states, steps, j);
    ReachableCover(states, steps, j);
    assert StepAt(states, steps, j);
    AnswerOrAlreadyThere(states[j], steps[j].reply, w);
  }

  /** The state after the answer was taken. */
  lemma PullTaken(states: seq<State>, steps: seq<Step>, k: nat, w: Row)
    requires IsRun(states, steps) && k < |steps| && steps[k].TakeRows? && CoveredBy(steps[k].reply.resp.rows, w)
    ensures var a := steps[k].reply.call.client;
            a in states[k + 1].nodes && Covers(states[k + 1].nodes[a].tables.rows, w)
  {
    assert StepAt(states, steps, k);
    JoinCovers(states[k].nodes[steps[k].reply.call.client].tables.rows, steps[k].reply.resp.rows, w);
  }

  lemma PullDelivers(states: seq<State>, steps: seq<Step>, a: Str, b: Str, j: nat, k: nat, w: Row)
    requires IsRun(states, steps) && Init(states[0]) && NothingCollected(states, steps)
    requires RowPull(steps, a, b, w.kind, j, k)
    requires b in states[j].nodes && w in states[j].nodes[b].writes
    ensures a in states[|steps|].nodes && Covers(states[|steps|].nodes[a].tables.rows, w)
  {
    PullAnswered(states, steps, j, w);
    if Covers(states[j].nodes[a].tables.rows, w) {
      RowsNeverGoBack(states, steps, j, |steps|, a, w);
    } else {
      PullTaken(states, steps, k, w);
      RowsNeverGoBack(states, steps, k + 1, |steps|, a, w);
    }
  }

  lemma OwnRowsCovered(states: seq<State>, steps: seq<Step>, i: nat, n: Str, w: Row)
    requires IsRun(states, steps) && Init(states[0]) && NothingCollected(states, steps) && i < |states|
    requires n in states[i].nodes && w in states[i].nodes[n].writes
    ensures Covers(states[i].nodes[n].tables.rows, w)
  {
    ReachableCover(states, steps, i);
  }

  // ------------------------------------------------------------ the theorems

  /** In any run whose collections remove nothing, pruning allowed, quiet plus one full mesh of
      pulls brings every node to the greatest stamp ever written to each key. */
  lemma MeshCoversAll(states: seq<State>, steps: seq<Step>, t: nat)
    requires IsRun(states, steps) && Init(states[0]) && NothingCollected(states, steps)
    requires t <= |steps| && RowQuiet(states, steps, t) && FullMesh(steps, t, states[0].nodes.Keys)
    ensures Converged(states[|steps|])
  {
    var last := states[|steps|];
    NodesFixed(states, steps, |steps|);
    forall a, w | a in last.nodes && Written(last, w) ensures Covers(last.nodes[a].tables.rows, w) {
      var b :| b in last.nodes && w in last.nodes[b].writes;
      MeshCovers(states, steps, t, a, b, w);
    }
  }

  lemma MeshCovers(states: seq<State>, steps: seq<Step>, t: nat, a: Str, b: Str, w: Row)
    requires IsRun(states, steps) && Init(states[0]) && NothingCollected(states, steps)
    requires t <= |steps| && RowQuiet(states, steps, t)
    requires a in states[|steps|].nodes && b in states[|steps|].nodes && w in states[|steps|].nodes[b].writes
    requires a != b && RowKind(w.kind) ==> PullsRows(steps, t, a, b, w.kind)
    ensures Covers(states[|steps|].nodes[a].tables.rows, w)
  {
    if a == b {
      OwnRowsCovered(states, steps, |steps|, a, w);
    } else {
      WrittenKind(states, steps, b, w);
      var j, k :| t <= j && RowPull(steps, a, b, w.kind, j, k);
      NodesFixed(states, steps, j);
      NodesFixed(states, steps, |steps|);
      HistoryFrozen(states, steps, t, j, |steps|, b);
      PullDelivers(states, steps, a, b, j, k, w);
    }
  }

  lemma WrittenKind(states: seq<State>, steps: seq<Step>, b: Str, w: Row)
    requires IsRun(states, steps) && Init(states[0])
    requires b in states[|steps|].nodes && w in states[|steps|].nodes[b].writes
    ensures RowKind(w.kind)
  {
    ReachableClock(states, steps, |steps|);
    DominatedNode(states[|steps|], b);
  }

  /** In a converged state all nodes agree on the stamp of every key. */
  lemma ConvergedStampsAgree(c: State, m: Str, n: Str)
    requires OriginInv(c) && Converged(c) && m in c.nodes && n in c.nodes
    requires WellKeyed(c.nodes[m].tables.rows) && WellKeyed(c.nodes[n].tables.rows)
    ensures c.nodes[m].tables.rows.Keys == c.nodes[n].tables.rows.Keys
    ensures forall k :: k in c.nodes[m].tables.rows && k in c.nodes[n].tables.rows ==>
              SameStamp(c.nodes[m].tables.rows[k], c.nodes[n].tables.rows[k])
  {
    var rm, rn := c.nodes[m].tables.rows, c.nodes[n].tables.rows;
    forall k | k in rm ensures k in rn && AtLeast(rn[k], rm[k]) {
      assert Written(c, rm[k]);
      assert Covers(rn, rm[k]);
    }
    forall k | k in rn ensures k in rm && AtLeast(rm[k], rn[k]) {
      assert Written(c, rn[k]);
      assert Covers(rm, rn[k]);
    }
    forall k | k in rm && k in rn ensures SameStamp(rm[k], rn[k]) {
      NewerTrichotomy(rm[k], rn[k]);
    }
  }

  /** Stamp convergence, pruning included: all nodes hold the same keys with the same
      stamps, each the greatest ever written to its key. */
  lemma StampConvergence(states: seq<State>, steps: seq<Step>, t: nat, m: Str, n: Str)
    requires IsRun(states, steps) && Init(states[0]) && NothingCollected(states, steps)
    requires t <= |steps| && RowQuiet(states, steps, t) && FullMesh(steps, t, states[0].nodes.Keys)
    requires m in states[|steps|].nodes && n in states[|steps|].nodes
    ensures var last := states[|steps|];
            && Converged(last)
            && last.nodes[m].tables.rows.Keys == last.nodes[n].tables.rows.Keys
            && (forall k :: k in last.nodes[m].tables.rows && k in last.nodes[n].tables.rows ==>
                  SameStamp(last.nodes[m].tables.rows[k], last.nodes[n].tables.rows[k]))
  {
    MeshCoversAll(states, steps, t);
    ReachableClock(states, steps, |steps|);
    ReachableOrigin(states, steps, |steps|);
    DominatedNode(states[|steps|], m);
    DominatedNode(states[|steps|], n);
    ConvergedStampsAgree(states[|steps|], m, n);
  }

  /** r is the one greatest row ever written to its key. */
  ghost predicate Greatest(c: State, r: Row) {
    Written(c, r) && forall w :: Written(c, w) && KeyOf(w) == KeyOf(r) && w != r ==> Newer(r, w)
  }

  lemma ConvergedRowIsGreatest(c: State, n: Str, k: RowKey)
    requires StampUnique(c) && Converged(c) && n in c.nodes
    requires k in c.nodes[n].tables.rows && KeyOf(c.nodes[n].tables.rows[k]) == k
    requires Written(c, c.nodes[n].tables.rows[k])
    ensures Greatest(c, c.nodes[n].tables.rows[k])
  {
    var r := c.nodes[n].tables.rows[k];
    forall w | Written(c, w) && KeyOf(w) == k && w != r ensures Newer(r, w) {
      assert Covers(c.nodes[n].tables.rows, w);
      NewerTrichotomy(r, w);
    }
  }

  lemma ConvergedIsGreatest(c: State, n: Str)
    requires OriginInv(c) && StampUnique(c) && Converged(c) && n in c.nodes && WellKeyed(c.nodes[n].tables.rows)
    ensures forall k :: k in c.nodes[n].tables.rows ==> Greatest(c, c.nodes[n].tables.rows[k])
    ensures forall w :: Written(c, w) ==> KeyOf(w) in c.nodes[n].tables.rows
  {
    forall k | k in c.nodes[n].tables.rows ensures Greatest(c, c.nodes[n].tables.rows[k]) {
      ConvergedRowIsGreatest(c, n, k);
    }
    forall w | Written(c, w) ensures KeyOf(w) in c.nodes[n].tables.rows {
      assert Covers(c.nodes[n].tables.rows, w);
    }
  }

  lemma ConvergedTablesEqual(c: State, m: Str, n: Str)
    requires OriginInv(c) && StampUnique(c) && Converged(c) && m in c.nodes && n in c.nodes
    requires WellKeyed(c.nodes[m].tables.rows) && WellKeyed(c.nodes[n].tables.rows)
    ensures c.nodes[m].tables.rows == c.nodes[n].tables.rows
  {
    ConvergedStampsAgree(c, m, n);
    var rm, rn := c.nodes[m].tables.rows, c.nodes[n].tables.rows;
    forall k | k in rm ensures rm[k] == rn[k] {
      assert Written(c, rm[k]) && Written(c, rn[k]);
    }
  }

  /** Strong convergence: without pruning, all nodes hold one and the same table, and it
      has, for each key ever written, exactly the unique greatest row. */
  lemma StrongConvergence(states: seq<State>, steps: seq<Step>, t: nat, m: Str, n: Str)
    requires IsRun(states, steps) && Init(states[0]) && NothingCollected(states, steps) && NoPrune(steps)
    requires t <= |steps| && RowQuiet(states, steps, t) && FullMesh(steps, t, states[0].nodes.Keys)
    requires m in states[|steps|].nodes && n in states[|steps|].nodes
    ensures var last := states[|steps|];
            && last.nodes[m].tables.rows == last.nodes[n].tables.rows
            && (forall k :: k in last.nodes[n].tables.rows ==> Greatest(last, last.nodes[n].tables.rows[k]))
            && (forall w :: Written(last, w) ==> KeyOf(w) in last.nodes[n].tables.rows)
  {
    MeshCoversAll(states, steps, t);
    ReachableClock(states, steps, |steps|);
    ReachableOrigin(states, steps, |steps|);
    ReachableStamps(states, steps, |steps|);
    OwnStampsMakeUnique(states[|steps|]);
    DominatedNode(states[|steps|], m);
    DominatedNode(states[|steps|], n);
    ConvergedTablesEqual(states[|steps|], m, n);
    ConvergedIsGreatest(states[|steps|], n);
  }

  // ------------------------------------------------------------ quiescence

  /** Merging rows that are all covered already changes nothing. */
  lemma {:induction false} CoveredBatchIsNoOp(rows: Rows, batch: seq<Row>)
    requires forall r :: r in batch ==> Covers(rows, r)
    ensures JoinBatch(rows, batch) == rows
  {
    if batch != [] {
      CoveredBatchIsNoOp(rows, batch[..|batch| - 1]);
      assert batch[|batch| - 1] in batch;
    }
  }

  /** No reply in flight carries anything its client does not cover. */
  ghost predicate RepliesCovered(c: State) {
    forall rep, r :: rep in c.replies && r in rep.resp.rows && rep.call.client in c.nodes ==>
      Covers(c.nodes[rep.call.client].tables.rows, r)
  }

  lemma ConvergedCoversReplies(c: State)
    requires OriginInv(c) && Converged(c)
    ensures RepliesCovered(c)
  {
    forall rep, r | rep in c.replies && r in rep.resp.rows && rep.call.client in c.nodes
      ensures Covers(c.nodes[rep.call.client].tables.rows, r)
    {
      assert Written(c, r);
    }
  }

  lemma CoveredRepliesAreNoOps(c: State, step: Step, n: Str)
    requires RepliesCovered(c) && Enabled(c, step) && QuietStep(c, step) && n in c.nodes
    ensures Do(c, step).nodes[n].tables.rows == c.nodes[n].tables.rows
  {
    if step.TakeRows? {
      CoveredBatchIsNoOp(c.nodes[step.reply.call.client].tables.rows, step.reply.resp.rows);
    }
  }

  /** From a converged state, no step but a row operation changes any row; pulls of any
      age and order included. */
  lemma ConvergedIsStable(c: State, step: Step, n: Str)
    requires OriginInv(c) && Converged(c) && Enabled(c, step) && QuietStep(c, step)
    requires n in c.nodes
    ensures Do(c, step).nodes[n].tables.rows == c.nodes[n].tables.rows
  {
    ConvergedCoversReplies(c);
    CoveredRepliesAreNoOps(c, step, n);
  }

  lemma WrittenBefore(c: State, step: Step, w: Row)
    requires Enabled(c, step) && QuietStep(c, step) && Written(Do(c, step), w)
    ensures Written(c, w)
  {
    var m :| m in Do(c, step).nodes && w in Do(c, step).nodes[m].writes;
    QuietStepKeepsHistory(c, step, m);
  }

  lemma CoveredStaysConverged(c: State, step: Step)
    requires RepliesCovered(c) && Converged(c) && Enabled(c, step) && QuietStep(c, step)
    ensures Converged(Do(c, step))
  {
    var c' := Do(c, step);
    forall n, w | n in c'.nodes && Written(c', w) ensures Covers(c'.nodes[n].tables.rows, w) {
      CoveredRepliesAreNoOps(c, step, n);
      WrittenBefore(c, step, w);
    }
  }

  lemma ConvergedStays(c: State, step: Step)
    requires OriginInv(c) && Converged(c) && Enabled(c, step) && QuietStep(c, step)
    ensures Converged(Do(c, step))
  {
    ConvergedCoversReplies(c);
    CoveredStaysConverged(c, step);
  }

  lemma {:induction false} QuietTablesFrozen(states: seq<State>, steps: seq<Step>, t: nat, i: nat, n: Str)
    requires IsRun(states, steps) && Init(states[0]) && RowQuiet(states, steps, t) && t <= i < |states|
    requires Converged(states[t]) && n in states[t].nodes
    ensures Converged(states[i]) && n in states[i].nodes && states[i].nodes[n].tables.rows == states[t].nodes[n].tables.rows
    decreases i
  {
    if t < i {
      QuietTablesFrozen(states, steps, t, i - 1, n);
      assert StepAt(states, steps, i - 1);
      ReachableOrigin(states, steps, i - 1);
      ConvergedIsStable(states[i - 1], steps[i - 1], n);
      ConvergedStays(states[i - 1], steps[i - 1]);
    }
  }

  lemma StepKeepsMark(c: State, step: Step, n: Str, p: Str, kind: Kind)
    requires Enabled(c, step) && n in c.nodes
    ensures !After(Mark(c.nodes[n].tables.marks, p, kind), Mark(Do(c, step).nodes[n].tables.marks, p, kind))
  {
    if step.TakeRows? {
      AdvancedMark(c.nodes[n].tables.marks, step.reply.call.server, step.reply.resp.rows, p, kind);
    } else if step.TakeEvents? {
      SetMarkRaises(c.nodes[n].tables.marks, step.reply.call.server, EventMax(step.reply.call.req.evMark, step.reply.resp.events), p, kind);
    }
  }

  lemma SetMarkRaises(marks: Marks, peer: Str, h: HLC, p: Str, kind: Kind)
    ensures !After(Mark(marks, p, kind), Mark(SetMark(marks, peer, Event, h), p, kind))
  {
  }

  lemma {:induction false} MarksNeverGoBack(states: seq<State>, steps: seq<Step>, i: nat, j: nat, n: Str, p: Str, kind: Kind)
    requires IsRun(states, steps) && i <= j < |states| && n in states[i].nodes
    ensures n in states[j].nodes
    ensures !After(Mark(states[i].nodes[n].tables.marks, p, kind), Mark(states[j].nodes[n].tables.marks, p, kind))
    decreases j
  {
    if i < j {
      MarksNeverGoBack(states, steps, i, j - 1, n, p, kind);
      assert StepAt(states, steps, j - 1);
      StepKeepsMark(states[j - 1], steps[j - 1], n, p, kind);
    }
  }
}
