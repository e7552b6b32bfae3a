/** Convergence in runs that really collect: if each tombstone is collected only when
    nothing older than it is left, all nodes end with the same live rows. */
module LiveConvergence {
  import opened Text
  import opened Hlc
  import opened Model
  import opened Checksum
  import opened Storage
  import opened Pull
  import opened Sync
  import opened Cluster
  import opened Dominance
  import opened Stamps
  import opened Coverage
  import opened Runs
  import opened Convergence
  import opened Agreement
  import opened Collection

  // ------------------------------------------------------------ collecting safely

  /** The tombstones that the step removes. */
  ghost function Removed(c: State, step: Step): set<Row> {
    if IsGc(step) && step.node in c.nodes
    then RowsAt(c.nodes[step.node].tables.rows, GcLimit(TickFrom(c.nodes[step.node].clock, step.now)))
    else {}
  }

  ghost function RowsAt(rows: Rows, limit: HLC): set<Row> {
    set k | k in GcKeys(rows, limit) && k in rows :: rows[k]
  }

  /** Nothing older than x is stored or in flight, and every clock has passed it. */
  ghost predicate Safe(c: State, x: Row) {
    NothingOlder(c, x) && forall n :: n in c.nodes ==> !After(x.hlc, c.nodes[n].clock)
  }

  ghost predicate SafeStep(c: State, step: Step) {
    forall x :: x in Removed(c, step) ==> Safe(c, x)
  }

  ghost predicate SafelyCollected(states: seq<State>, steps: seq<Step>) {
    forall i :: 0 <= i < |steps| && i < |states| ==> SafeStep(states[i], steps[i])
  }

  /** It is enough that every node is at or above x and no reply in flight is older. */
  lemma AcknowledgedIsSafe(c: State, x: Row)
    requires ClockInv(c)
    requires forall n :: n in c.nodes ==> Covers(c.nodes[n].tables.rows, x)
    requires forall rep, v :: rep in c.replies && v in rep.resp.rows && KeyOf(v) == KeyOf(x) ==> !Newer(x, v)
    ensures Safe(c, x)
  {
    forall n | n in c.nodes ensures !After(x.hlc, c.nodes[n].clock) {
      DominatedNode(c, n);
      assert Covers(c.nodes[n].tables.rows, x);
    }
    forall v | Present(c, v) && KeyOf(v) == KeyOf(x) ensures !Newer(x, v) {
      if n :| n in c.nodes && Holds(c.nodes[n].tables.rows, v) {
        assert Covers(c.nodes[n].tables.rows, x);
      }
    }
  }

  /** gone[i] is all that was collected up to state i. */
  ghost predicate History(states: seq<State>, steps: seq<Step>, gone: seq<set<Row>>) {
    && |steps| + 1 == |states| == |gone| && gone[0] == {}
    && forall i :: 0 <= i < |steps| ==> GoneNext(states, steps, gone, i)
  }

  ghost predicate GoneNext(states: seq<State>, steps: seq<Step>, gone: seq<set<Row>>, i: nat)
    requires i < |steps| && |steps| + 1 == |states| == |gone|
  {
    gone[i + 1] == gone[i] + Removed(states[i], steps[i])
  }

  lemma {:induction false} HistoryExists(states: seq<State>, steps: seq<Step>) returns (gone: seq<set<Row>>)
    requires |states| == |steps| + 1
    ensures History(states, steps, gone)
    decreases |steps|
  {
    if steps == [] {
      gone := [{}];
    } else {
      var n := |steps| - 1;
      var was := HistoryExists(states[..n + 1], steps[..n]);
      gone := was + [was[n] + Removed(states[n], steps[n])];
      forall i | 0 <= i < |steps| ensures GoneNext(states, steps, gone, i) {
        if i < n {
          assert GoneNext(states[..n + 1], steps[..n], was, i);
        }
      }
    }
  }

  lemma {:induction false} GoneGrows(states: seq<State>, steps: seq<Step>, gone: seq<set<Row>>, i: nat, j: nat)
    requires History(states, steps, gone) && i <= j < |states|
    ensures gone[i] <= gone[j]
    decreases j
  {
    if i < j {
      GoneGrows(states, steps, gone, i, j - 1);
      assert GoneNext(states, steps, gone, j - 1);
    }
  }

  /** A collected tombstone is at or above w. */
  ghost predicate Forgotten(gone: set<Row>, w: Row) {
    exists x :: x in gone && KeyOf(x) == KeyOf(w) && AtLeast(x, w)
  }

  // ------------------------------------------------------------ what is gone stays gone

  ghost predicate RetiredInv(c: State, gone: set<Row>) {
    forall x :: x in gone ==> x.tombstone && Written(c, x) && Safe(c, x)
  }

  lemma StepKeepsSafe(c: State, step: Step, x: Row)
    requires ClockInv(c) && Enabled(c, step) && Safe(c, x)
    ensures Safe(Do(c, step), x)
  {
    var c' := Do(c, step);
    forall v | Present(c', v) && KeyOf(v) == KeyOf(x) ensures !Newer(x, v) {
      PresenceComesFromSomewhere(c, step, v);
      if !Present(c, v) {
        DominatedNode(c, step.node);
        FreshBeats(c.nodes[step.node], step, x, v);
        NewerTrichotomy(x, v);
      }
    }
    forall n | n in c'.nodes ensures !After(x.hlc, c'.nodes[n].clock) {
      StepMovesClock(c, step, n);
    }
  }

  lemma RemovedIsRetired(c: State, step: Step, x: Row)
    requires OriginInv(c) && x in Removed(c, step)
    ensures x.tombstone && Written(c, x)
  {
  }

  lemma StepKeepsRetired(c: State, step: Step, gone: set<Row>)
    requires ClockInv(c) && OriginInv(c) && Enabled(c, step) && RetiredInv(c, gone)
    requires SafeStep(c, step)
    ensures RetiredInv(Do(c, step), gone + Removed(c, step))
  {
    forall x | x in gone + Removed(c, step) ensures x.tombstone && Written(Do(c, step), x) && Safe(Do(c, step), x) {
      if x in Removed(c, step) {
        RemovedIsRetired(c, step, x);
      }
      WrittenStays(c, step, x);
      StepKeepsSafe(c, step, x);
    }
  }

  lemma {:induction false} ReachableRetired(states: seq<State>, steps: seq<Step>, gone: seq<set<Row>>, i: nat)
    requires History(states, steps, gone)
    requires IsRun(states, steps) && Init(states[0]) && SafelyCollected(states, steps) && i < |states|
    ensures RetiredInv(states[i], gone[i])
  {
    if i > 0 {
      ReachableRetired(states, steps, gone, i - 1);
      assert GoneNext(states, steps, gone, i - 1);
      RetiredStep(states, steps, i - 1, gone[i - 1], gone[i]);
    }
  }

  lemma RetiredStep(states: seq<State>, steps: seq<Step>, i: nat, gone: set<Row>, more: set<Row>)
    requires IsRun(states, steps) && Init(states[0]) && i < |steps| && RetiredInv(states[i], gone)
    requires SafeStep(states[i], steps[i]) && more == gone + Removed(states[i], steps[i])
    ensures RetiredInv(states[i + 1], more)
  {
    assert StepAt(states, steps, i);
    ReachableClock(states, steps, i);
    ReachableOrigin(states, steps, i);
    StepKeepsRetired(states[i], steps[i], gone);
  }

  // ------------------------------------------------------------ coverage without the forgotten

  ghost function Trimmed(s: NodeState, gone: set<Row>): NodeState {
    s.(writes := set w | w in s.writes && !Forgotten(gone, w))
  }

  /** The state with forgotten rows struck from the histories, which no step reads. */
  ghost function Trim(c: State, gone: set<Row>): State {
    c.(nodes := map n | n in c.nodes :: Trimmed(c.nodes[n], gone))
  }

  lemma TrimKeepsClockInv(c: State, gone: set<Row>)
    requires ClockInv(c)
    ensures ClockInv(Trim(c, gone))
  {
    var d := Trim(c, gone);
    forall n | n in d.nodes ensures NodeDominates(d.nodes[n]) {
      DominatedNode(c, n);
    }
    forall a, b, kind | a in d.nodes && b in d.nodes ensures !After(Mark(d.nodes[a].tables.marks, b, kind), d.nodes[b].clock) {
      DominatedMark(c, a, b, kind);
    }
  }

  /** Fresh rows are above everything retired. */
  lemma FreshIsRemembered(c: State, gone: set<Row>, step: Step, w: Row)
    requires ClockInv(c) && RetiredInv(c, gone) && step.Local? && Enabled(c, step)
    requires w in Delta(c.nodes[step.node].tables.rows, step.op, TickFrom(c.nodes[step.node].clock, step.now)).Values
    ensures !Forgotten(gone, w)
  {
    DominatedNode(c, step.node);
    forall x | x in gone ensures !AtLeast(x, w) {
      RetiredBelowClock(c, gone, x, step.node);
      FreshBeats(c.nodes[step.node], step, x, w);
    }
  }

  lemma RetiredBelowClock(c: State, gone: set<Row>, x: Row, n: Str)
    requires RetiredInv(c, gone) && x in gone && n in c.nodes
    ensures !After(x.hlc, c.nodes[n].clock)
  {
    assert Safe(c, x);
  }

  lemma FreshBeats(s: NodeState, step: Step, x: Row, w: Row)
    requires NodeDominates(s) && step.Local? && OpAllowed(s, step.node, step.op) && !After(x.hlc, s.clock)
    requires w in Delta(s.tables.rows, step.op, TickFrom(s.clock, step.now)).Values
    ensures !AtLeast(x, w)
  {
    DeltaStamped(s, step.node, step.op, TickFrom(s.clock, step.now));
  }

  lemma TrimmedStep(c: State, gone: set<Row>, step: Step, n: Str)
    requires ClockInv(c) && RetiredInv(c, gone) && Enabled(c, step) && n in c.nodes
    ensures Enabled(Trim(c, gone), step)
    ensures Trimmed(Do(c, step).nodes[n], gone) == Do(Trim(c, gone), step).nodes[n]
  {
    if step.Local? && step.node == n {
      var d := Delta(c.nodes[n].tables.rows, step.op, TickFrom(c.nodes[n].clock, step.now)).Values;
      forall w | w in d ensures !Forgotten(gone, w) {
        FreshIsRemembered(c, gone, step, w);
      }
      assert (set w | w in c.nodes[n].writes + d && !Forgotten(gone, w))
          == (set w | w in c.nodes[n].writes && !Forgotten(gone, w)) + d;
    }
  }

  lemma TrimCommutes(c: State, gone: set<Row>, step: Step)
    requires ClockInv(c) && RetiredInv(c, gone) && Enabled(c, step)
    ensures Enabled(Trim(c, gone), step) && Trim(Do(c, step), gone) == Do(Trim(c, gone), step)
  {
    EnabledWhenTrimmed(c, gone, step);
    var left, right := Trim(Do(c, step), gone), Do(Trim(c, gone), step);
    forall n | n in left.nodes ensures left.nodes[n] == right.nodes[n] {
      TrimmedStep(c, gone, step, n);
    }
    assert left.nodes == right.nodes;
  }

  lemma EnabledWhenTrimmed(c: State, gone: set<Row>, step: Step)
    requires Enabled(c, step)
    ensures Enabled(Trim(c, gone), step)
  {
  }

  /** Forgetting more only makes the coverage invariant easier. */
  lemma TrimMore(c: State, gone: set<Row>, more: set<Row>)
    requires CoverInv(Trim(c, gone)) && gone <= more
    ensures CoverInv(Trim(c, more))
  {
    var c1, c2 := Trim(c, gone), Trim(c, more);
    forall n, w | n in c2.nodes && w in c2.nodes[n].writes ensures w in c1.nodes[n].writes {
      assert !Forgotten(gone, w);
    }
    forall a, b, w | a in c2.nodes && b in c2.nodes && Skippable(c2.nodes[a], b, c2.nodes[b], w)
      ensures Covers(c2.nodes[a].tables.rows, w)
    {
      assert Skippable(c1.nodes[a], b, c1.nodes[b], w);
    }
    forall rep, w | rep in c2.replies && rep.call.server in c2.nodes && Claimed(rep, c2.nodes[rep.call.server], w)
      ensures CoveredBy(rep.resp.rows, w)
    {
      assert Claimed(rep, c1.nodes[rep.call.server], w);
    }
  }

  /** A row covered before a collection is covered after it or forgotten. */
  lemma CollectedOrCovered(c: State, step: Step, n: Str, w: Row)
    requires Enabled(c, step) && Removes(c, step) && n in c.nodes && Covers(c.nodes[n].tables.rows, w)
    requires WellKeyed(c.nodes[n].tables.rows)
    ensures Covers(Do(c, step).nodes[n].tables.rows, w) || Forgotten(Removed(c, step), w)
  {
    var k, rows := KeyOf(w), c.nodes[n].tables.rows;
    if !Covers(Do(c, step).nodes[n].tables.rows, w) {
      assert n == step.node && k in GcKeys(rows, GcLimit(TickFrom(c.nodes[n].clock, step.now)));
      assert rows[k] in Removed(c, step);
    }
  }

  /** The state after a collection, histories trimmed by what it removed. */
  lemma CollectionKeepsCover(c: State, step: Step, gone: set<Row>)
    requires Enabled(c, step) && Removes(c, step) && CoverInv(Trim(c, gone)) && WellKeyedNodes(c)
    ensures CoverInv(Trim(Do(c, step), gone + Removed(c, step)))
  {
    var more := gone + Removed(c, step);
    TrimMore(c, gone, more);
    var c1, c2 := Trim(c, more), Trim(Do(c, step), more);
    forall n, w | n in c2.nodes && w in c2.nodes[n].writes ensures Covers(c2.nodes[n].tables.rows, w) {
      assert w in c1.nodes[n].writes;
      CollectionKeepsCovers(c, step, gone, n, n, w);
    }
    forall a, b, w | a in c2.nodes && b in c2.nodes && Skippable(c2.nodes[a], b, c2.nodes[b], w)
      ensures Covers(c2.nodes[a].tables.rows, w)
    {
      assert Skippable(c1.nodes[a], b, c1.nodes[b], w);
      CollectionKeepsCovers(c, step, gone, a, b, w);
    }
    forall rep, w | rep in c2.replies && rep.call.server in c2.nodes && Claimed(rep, c2.nodes[rep.call.server], w)
      ensures CoveredBy(rep.resp.rows, w)
    {
      assert Claimed(rep, c1.nodes[rep.call.server], w);
    }
  }

  ghost predicate WellKeyedNodes(c: State) {
    forall n :: n in c.nodes ==> WellKeyed(c.nodes[n].tables.rows)
  }

  lemma CollectionKeepsCovers(c: State, step: Step, gone: set<Row>, a: Str, b: Str, w: Row)
    requires Enabled(c, step) && Removes(c, step) && a in c.nodes && b in c.nodes && WellKeyed(c.nodes[a].tables.rows)
    requires w in Trimmed(Do(c, step).nodes[b], gone + Removed(c, step)).writes
    requires Covers(c.nodes[a].tables.rows, w)
    ensures Covers(Do(c, step).nodes[a].tables.rows, w)
  {
    CollectedOrCovered(c, step, a, w);
  }

  lemma StepKeepsTrimmedCover(c: State, step: Step, gone: set<Row>)
    requires ClockInv(c) && RetiredInv(c, gone) && Enabled(c, step) && CoverInv(Trim(c, gone))
    ensures CoverInv(Trim(Do(c, step), gone + Removed(c, step)))
  {
    if Removes(c, step) {
      forall n | n in c.nodes ensures WellKeyed(c.nodes[n].tables.rows) {
        DominatedNode(c, n);
      }
      CollectionKeepsCover(c, step, gone);
    } else {
      TrimCommutes(c, gone, step);
      TrimKeepsClockInv(c, gone);
      StepKeepsCoverInv(Trim(c, gone), step);
      TrimMore(Do(c, step), gone, gone + Removed(c, step));
    }
  }

  lemma TrimmedInit(c: State)
    requires Init(c)
    ensures CoverInv(Trim(c, {}))
  {
    forall n | n in c.nodes ensures Trimmed(c.nodes[n], {}).writes == {} {
    }
  }

  lemma {:induction false} ReachableTrimmedCover(states: seq<State>, steps: seq<Step>, gone: seq<set<Row>>, i: nat)
    requires History(states, steps, gone)
    requires IsRun(states, steps) && Init(states[0]) && SafelyCollected(states, steps) && i < |states|
    ensures CoverInv(Trim(states[i], gone[i]))
  {
    if i == 0 {
      TrimmedInit(states[0]);
    } else {
      ReachableTrimmedCover(states, steps, gone, i - 1);
      assert GoneNext(states, steps, gone, i - 1);
      ReachableRetired(states, steps, gone, i - 1);
      TrimmedCoverStep(states, steps, i - 1, gone[i - 1], gone[i]);
    }
  }

  lemma TrimmedCoverStep(states: seq<State>, steps: seq<Step>, i: nat, gone: set<Row>, more: set<Row>)
    requires IsRun(states, steps) && Init(states[0]) && i < |steps| && RetiredInv(states[i], gone)
    requires CoverInv(Trim(states[i], gone)) && more == gone + Removed(states[i], steps[i])
    ensures CoverInv(Trim(states[i + 1], more))
  {
    assert StepAt(states, steps, i);
    ReachableClock(states, steps, i);
    StepKeepsTrimmedCover(states[i], steps[i], gone);
  }

  // ------------------------------------------------------------ the mesh

  /** From step t on, nobody writes a row. Collection goes on. */
  ghost predicate NoWrites(steps: seq<Step>, t: nat) {
    forall i :: t <= i < |steps| && steps[i].Local? ==> steps[i].op.NoRow? || steps[i].op.GcOp?
  }

  lemma {:induction false} WritesFrozen(states: seq<State>, steps: seq<Step>, t: nat, i: nat, j: nat, n: Str)
    requires IsRun(states, steps) && NoWrites(steps, t) && t <= i <= j < |states| && n in states[i].nodes
    ensures n in states[j].nodes && states[j].nodes[n].writes == states[i].nodes[n].writes
    decreases j
  {
    if i < j {
      WritesFrozen(states, steps, t, i, j - 1, n);
      assert StepAt(states, steps, j - 1);
      UnwrittenStep(states[j - 1], steps[j - 1], n);
    }
  }

  lemma UnwrittenStep(c: State, step: Step, n: Str)
    requires Enabled(c, step) && n in c.nodes && (step.Local? ==> step.op.NoRow? || step.op.GcOp?)
    ensures Do(c, step).nodes[n].writes == c.nodes[n].writes
  {
  }

  lemma ForgottenGrows(gone: set<Row>, more: set<Row>, w: Row)
    requires gone <= more && Forgotten(gone, w)
    ensures Forgotten(more, w)
  {
  }

  /** What a node covers, it covers later on or has forgotten. */
  lemma {:induction false} CoveredOrForgotten(states: seq<State>, steps: seq<Step>, gone: seq<set<Row>>, i: nat, j: nat, n: Str, w: Row)
    requires History(states, steps, gone)
    requires IsRun(states, steps) && Init(states[0]) && i <= j < |states|
    requires n in states[i].nodes && Covers(states[i].nodes[n].tables.rows, w)
    ensures n in states[j].nodes
    ensures Covers(states[j].nodes[n].tables.rows, w) || Forgotten(gone[j], w)
    decreases j
  {
    if i < j {
      CoveredOrForgotten(states, steps, gone, i, j - 1, n, w);
      if Forgotten(gone[j - 1], w) {
        ForgottenStep(states, steps, gone, j - 1, n, w);
      } else {
        CoverStep(states, steps, gone, j - 1, n, w);
      }
    }
  }

  lemma ForgottenStep(states: seq<State>, steps: seq<Step>, gone: seq<set<Row>>, j: nat, n: Str, w: Row)
    requires History(states, steps, gone)
    requires IsRun(states, steps) && j < |steps| && n in states[j].nodes && Forgotten(gone[j], w)
    ensures n in states[j + 1].nodes && Forgotten(gone[j + 1], w)
  {
    assert StepAt(states, steps, j);
    assert GoneNext(states, steps, gone, j);
    ForgottenGrows(gone[j], gone[j + 1], w);
  }

  lemma CoverStep(states: seq<State>, steps: seq<Step>, gone: seq<set<Row>>, j: nat, n: Str, w: Row)
    requires History(states, steps, gone)
    requires IsRun(states, steps) && Init(states[0]) && j < |steps| && n in states[j].nodes
    requires Covers(states[j].nodes[n].tables.rows, w)
    ensures n in states[j + 1].nodes
    ensures Covers(states[j + 1].nodes[n].tables.rows, w) || Forgotten(gone[j + 1], w)
  {
    assert StepAt(states, steps, j);
    ReachableClock(states, steps, j);
    if Removes(states[j], steps[j]) {
      DominatedNode(states[j], n);
      CollectedOrCovered(states[j], steps[j], n, w);
      if Forgotten(Removed(states[j], steps[j]), w) {
        assert GoneNext(states, steps, gone, j);
        ForgottenGrows(Removed(states[j], steps[j]), gone[j + 1], w);
      }
    } else {
      StepKeepsCover(states[j], steps[j], n, w);
    }
  }

  /** The state in which an answer is made, histories trimmed. */
  lemma TrimmedAnswer(c: State, gone: set<Row>, rep: Reply, w: Row)
    requires ClockInv(c) && CoverInv(Trim(c, gone)) && !Forgotten(gone, w)
    requires rep.call in c.calls && rep.call.server in c.nodes
    requires IsPart(c.nodes[rep.call.server].tables, rep.call.req, rep.starts, rep.resp)
    requires w in c.nodes[rep.call.server].writes && w.kind in rep.starts
    ensures rep.call.client in c.nodes
    ensures Covers(c.nodes[rep.call.client].tables.rows, w) || CoveredBy(rep.resp.rows, w)
  {
    TrimKeepsClockInv(c, gone);
    AnswerOrAlreadyThere(Trim(c, gone), rep, w);
  }

  lemma AnsweredOrForgotten(states: seq<State>, steps: seq<Step>, gone: seq<set<Row>>, j: nat, w: Row)
    requires History(states, steps, gone)
    requires IsRun(states, steps) && Init(states[0]) && SafelyCollected(states, steps) && j < |steps| && steps[j].Serve?
    requires var rep := steps[j].reply;
             rep.call.server in states[j].nodes && w in states[j].nodes[rep.call.server].writes && w.kind in rep.starts
    requires !Forgotten(gone[j], w)
    ensures steps[j].reply.call.client in states[j].nodes
    ensures Covers(states[j].nodes[steps[j].reply.call.client].tables.rows, w) || CoveredBy(steps[j].reply.resp.rows, w)
  {
    ReachableClock(states, steps, j);
    ReachableTrimmedCover(states, steps, gone, j);
    assert StepAt(states, steps, j);
    TrimmedAnswer(states[j], gone[j], steps[j].reply, w);
  }

  lemma DeliveredOrForgotten(states: seq<State>, steps: seq<Step>, gone: seq<set<Row>>, a: Str, b: Str, j: nat, k: nat, w: Row)
    requires History(states, steps, gone)
    requires IsRun(states, steps) && Init(states[0]) && SafelyCollected(states, steps)
    requires RowPull(steps, a, b, w.kind, j, k) && b in states[j].nodes && w in states[j].nodes[b].writes
    ensures a in states[|steps|].nodes
    ensures Covers(states[|steps|].nodes[a].tables.rows, w) || Forgotten(gone[|steps|], w)
  {
    if Forgotten(gone[j], w) {
      assert StepAt(states, steps, k);
      NodesFixed(states, steps, k);
      NodesFixed(states, steps, |steps|);
      GoneGrows(states, steps, gone, j, |steps|);
      ForgottenGrows(gone[j], gone[|steps|], w);
    } else {
      AnsweredOrForgotten(states, steps, gone, j, w);
      if Covers(states[j].nodes[a].tables.rows, w) {
        CoveredOrForgotten(states, steps, gone, j, |steps|, a, w);
      } else {
        PullTaken(states, steps, k, w);
        CoveredOrForgotten(states, steps, gone, k + 1, |steps|, a, w);
      }
    }
  }

  lemma OwnOrForgotten(states: seq<State>, steps: seq<Step>, gone: seq<set<Row>>, n: Str, w: Row)
    requires History(states, steps, gone)
    requires IsRun(states, steps) && Init(states[0]) && SafelyCollected(states, steps)
    requires n in states[|steps|].nodes && w in states[|steps|].nodes[n].writes
    ensures Covers(states[|steps|].nodes[n].tables.rows, w) || Forgotten(gone[|steps|], w)
  {
    ReachableTrimmedCover(states, steps, gone, |steps|);
    var all := gone[|steps|];
    if !Forgotten(all, w) {
      assert w in Trim(states[|steps|], all).nodes[n].writes;
    }
  }

  /** Every node is at or above every row ever written, or the row was collected away. */
  ghost predicate CoversOrForgets(c: State, gone: set<Row>) {
    forall n, w {:trigger Covers(c.nodes[n].tables.rows, w)} ::
      n in c.nodes && Written(c, w) ==> Covers(c.nodes[n].tables.rows, w) || Forgotten(gone, w)
  }

  lemma MeshCoversOrForgets(states: seq<State>, steps: seq<Step>, gone: seq<set<Row>>, t: nat)
    requires History(states, steps, gone)
    requires IsRun(states, steps) && Init(states[0]) && SafelyCollected(states, steps)
    requires t <= |steps| && NoWrites(steps, t) && FullMesh(steps, t, states[0].nodes.Keys)
    ensures CoversOrForgets(states[|steps|], gone[|steps|])
  {
    var last := states[|steps|];
    NodesFixed(states, steps, |steps|);
    forall a, w | a in last.nodes && Written(last, w)
      ensures Covers(last.nodes[a].tables.rows, w) || Forgotten(gone[|steps|], w)
    {
      var b :| b in last.nodes && w in last.nodes[b].writes;
      MeshDelivers(states, steps, gone, t, a, b, w);
    }
  }

  lemma MeshDelivers(states: seq<State>, steps: seq<Step>, gone: seq<set<Row>>, t: nat, a: Str, b: Str, w: Row)
    requires History(states, steps, gone)
    requires IsRun(states, steps) && Init(states[0]) && SafelyCollected(states, steps)
    requires t <= |steps| && NoWrites(steps, t)
    requires a in states[|steps|].nodes && b in states[|steps|].nodes && w in states[|steps|].nodes[b].writes
    requires a != b && RowKind(w.kind) ==> PullsRows(steps, t, a, b, w.kind)
    ensures Covers(states[|steps|].nodes[a].tables.rows, w) || Forgotten(gone[|steps|], w)
  {
    if a == b {
      OwnOrForgotten(states, steps, gone, a, w);
    } else {
      WrittenKind(states, steps, b, w);
      var j, k :| t <= j && RowPull(steps, a, b, w.kind, j, k);
      NodesFixed(states, steps, j);
      NodesFixed(states, steps, |steps|);
      WritesFrozen(states, steps, t, j, |steps|, b);
      DeliveredOrForgotten(states, steps, gone, a, b, j, k, w);
    }
  }

  // ------------------------------------------------------------ live rows

  /** A live row that is held is the greatest of its key. */
  lemma LiveIsTop(c: State, gone: set<Row>, n: Str, r: Row)
    requires OriginInv(c) && RetiredInv(c, gone) && CoversOrForgets(c, gone)
    requires n in c.nodes && Holds(c.nodes[n].tables.rows, r)
    ensures Top(c, r)
  {
    PresentIsWritten(c, r);
    forall v | Written(c, v) && KeyOf(v) == KeyOf(r) ensures !Newer(v, r) {
      assert Covers(c.nodes[n].tables.rows, v) || Forgotten(gone, v);
      if !Covers(c.nodes[n].tables.rows, v) {
        ForgottenIsNotNewer(c, gone, v, r);
      }
    }
  }

  lemma ForgottenIsNotNewer(c: State, gone: set<Row>, v: Row, r: Row)
    requires RetiredInv(c, gone) && Forgotten(gone, v) && Present(c, r) && KeyOf(r) == KeyOf(v)
    ensures !Newer(v, r)
  {
    var x :| x in gone && KeyOf(x) == KeyOf(v) && AtLeast(x, v);
    assert Safe(c, x);
    if Newer(v, r) {
      NewerTrichotomy(x, v);
      if Newer(x, v) {
        NewerTransitive(x, v, r);
      }
    }
  }

  /** No live top row ties with another row. */
  ghost predicate NoLiveTie(c: State) {
    forall v, w :: Top(c, v) && Top(c, w) && KeyOf(v) == KeyOf(w) && !v.tombstone ==> v == w
  }

  lemma SameStampIsTop(c: State, w: Row, r: Row)
    requires Top(c, w) && Written(c, r) && KeyOf(r) == KeyOf(w) && AtLeast(r, w)
    ensures SameStamp(r, w) && Top(c, r)
  {
    NewerTrichotomy(r, w);
  }

  /** Another greatest row, with w's stamp and owner. */
  ghost predicate TiesWith(c: State, w: Row, r: Row) {
    Top(c, r) && KeyOf(r) == KeyOf(w) && SameStamp(r, w) && r != w
  }

  /** A greatest row that a node lacks gave way to one that ties with it. */
  lemma TopIsHeldOrTied(c: State, gone: set<Row>, n: Str, w: Row)
    requires ClockInv(c) && OriginInv(c) && RetiredInv(c, gone) && CoversOrForgets(c, gone)
    requires n in c.nodes && Top(c, w) && !w.tombstone && !Holds(c.nodes[n].tables.rows, w)
    ensures exists r :: TiesWith(c, w, r) && (Holds(c.nodes[n].tables.rows, r) || r in gone)
  {
    DominatedNode(c, n);
    assert Covers(c.nodes[n].tables.rows, w) || Forgotten(gone, w);
    if Covers(c.nodes[n].tables.rows, w) {
      var r := c.nodes[n].tables.rows[KeyOf(w)];
      assert Written(c, r);
      SameStampIsTop(c, w, r);
      assert TiesWith(c, w, r);
    } else {
      var x :| x in gone && KeyOf(x) == KeyOf(w) && AtLeast(x, w);
      SameStampIsTop(c, w, x);
      assert TiesWith(c, w, x);
    }
  }

  lemma {:induction false} GoneWasCollected(states: seq<State>, steps: seq<Step>, gone: seq<set<Row>>, k: nat, x: Row)
    requires History(states, steps, gone) && k < |states| && x in gone[k]
    ensures Collected(states, steps, x)
  {
    assert k > 0;
    assert GoneNext(states, steps, gone, k - 1);
    if x in gone[k - 1] {
      GoneWasCollected(states, steps, gone, k - 1, x);
    }
  }

  ghost predicate Collected(states: seq<State>, steps: seq<Step>, x: Row) {
    exists i :: 0 <= i < |steps| && i < |states| && x in Removed(states[i], steps[i])
  }

  /** Whether there is a tie is decided by the last write. */
  lemma TiesSettled(states: seq<State>, steps: seq<Step>, t: nat)
    requires IsRun(states, steps) && t <= |steps| && NoWrites(steps, t)
    ensures NoLiveTie(states[|steps|]) <==> NoLiveTie(states[t])
  {
    NodesFixed(states, steps, t);
    NodesFixed(states, steps, |steps|);
    forall n | n in states[t].nodes ensures states[|steps|].nodes[n].writes == states[t].nodes[n].writes {
      WritesFrozen(states, steps, t, t, |steps|, n);
    }
    SameWritesSameTops(states[|steps|], states[t]);
  }

  /** Live convergence, collection, pruning and ties included: if each tombstone was
      collected only when nothing older was left and every clock had passed it, then, after
      the last write and a full mesh of pulls, every live row that is held is the greatest
      ever written to its key, and a node lacks such a row only for one that ties with it,
      which it holds or which was collected. */
  lemma LiveRowsUpToTies(states: seq<State>, steps: seq<Step>, t: nat, n: Str, r: Row)
    requires IsRun(states, steps) && Init(states[0]) && SafelyCollected(states, steps)
    requires t <= |steps| && NoWrites(steps, t) && FullMesh(steps, t, states[0].nodes.Keys)
    requires n in states[|steps|].nodes && !r.tombstone
    ensures Holds(states[|steps|].nodes[n].tables.rows, r) ==> Top(states[|steps|], r)
    ensures Top(states[|steps|], r) && !Holds(states[|steps|].nodes[n].tables.rows, r) ==>
              exists w :: TiesWith(states[|steps|], r, w)
                          && (Holds(states[|steps|].nodes[n].tables.rows, w) || Collected(states, steps, w))
  {
    var last := states[|steps|];
    var gone := HistoryExists(states, steps);
    MeshCoversOrForgets(states, steps, gone, t);
    ReachableClock(states, steps, |steps|);
    ReachableOrigin(states, steps, |steps|);
    ReachableRetired(states, steps, gone, |steps|);
    if Holds(last.nodes[n].tables.rows, r) {
      LiveIsTop(last, gone[|steps|], n, r);
    } else if Top(last, r) {
      TopIsHeldOrTied(last, gone[|steps|], n, r);
      var w :| TiesWith(last, r, w) && (Holds(last.nodes[n].tables.rows, w) || w in gone[|steps|]);
      if w in gone[|steps|] {
        GoneWasCollected(states, steps, gone, |steps|, w);
      }
    }
  }

  /** Without ties a live row is held by a node if and only if it is the greatest row ever
      written to its key. So all nodes list the same. */
  lemma LiveRowsConverge(states: seq<State>, steps: seq<Step>, t: nat, n: Str, r: Row)
    requires IsRun(states, steps) && Init(states[0]) && SafelyCollected(states, steps)
    requires t <= |steps| && NoWrites(steps, t) && FullMesh(steps, t, states[0].nodes.Keys)
    requires NoLiveTie(states[t]) && n in states[|steps|].nodes && !r.tombstone
    ensures Holds(states[|steps|].nodes[n].tables.rows, r) <==> Top(states[|steps|], r)
  {
    TiesSettled(states, steps, t);
    LiveRowsUpToTies(states, steps, t, n, r);
  }

  /** Hence any two nodes give the same listings and checksums. */
  lemma ListingsConverge(states: seq<State>, steps: seq<Step>, t: nat, m: Str, n: Str, kind: Kind, out: seq<Row>)
    requires IsRun(states, steps) && Init(states[0]) && SafelyCollected(states, steps)
    requires t <= |steps| && NoWrites(steps, t) && FullMesh(steps, t, states[0].nodes.Keys)
    requires NoLiveTie(states[t]) && m in states[|steps|].nodes && n in states[|steps|].nodes
    ensures IsListing(states[|steps|].nodes[m].tables.rows, kind, out) <==> IsListing(states[|steps|].nodes[n].tables.rows, kind, out)
    ensures RowsSum(states[|steps|].nodes[m].tables.rows, kind) == RowsSum(states[|steps|].nodes[n].tables.rows, kind)
  {
    var a, b := states[|steps|].nodes[m].tables.rows, states[|steps|].nodes[n].tables.rows;
    forall r: Row | !r.tombstone ensures Holds(a, r) <==> Holds(b, r) {
      LiveRowsConverge(states, steps, t, m, r);
      LiveRowsConverge(states, steps, t, n, r);
    }
    ReachableClock(states, steps, |steps|);
    DominatedNode(states[|steps|], m);
    DominatedNode(states[|steps|], n);
    SameLiveRows(a, b, kind, out);
  }

  lemma SameLiveRows(a: Rows, b: Rows, kind: Kind, out: seq<Row>)
    requires WellKeyed(a) && WellKeyed(b)
    requires forall r: Row :: !r.tombstone ==> (Holds(a, r) <==> Holds(b, r))
    ensures IsListing(a, kind, out) <==> IsListing(b, kind, out)
    ensures RowsSum(a, kind) == RowsSum(b, kind)
  {
    forall k | k in a && !a[k].tombstone ensures Holds(b, a[k]) {
      assert Holds(a, a[k]);
    }
    forall k | k in b && !b[k].tombstone ensures Holds(a, b[k]) {
      assert Holds(b, b[k]);
    }
    SumReadsLiveStampsOnly(a, b, kind);
  }

  // ------------------------------------------------------------ acknowledged tombstones

  /** The writer b's peers have all pulled b beyond x, and no older version is in flight. */
  ghost predicate AckedFrom(c: State, b: Str, x: Row) {
    && b in c.nodes && x in c.nodes[b].writes
    && (forall a :: a in c.nodes && a != b ==> !After(x.hlc, Mark(c.nodes[a].tables.marks, b, x.kind)))
    && (forall rep, v :: rep in c.replies && v in rep.resp.rows && KeyOf(v) == KeyOf(x) ==> !Newer(x, v))
  }

  ghost predicate AckedStep(c: State, step: Step) {
    forall x :: x in Removed(c, step) ==> exists b :: AckedFrom(c, b, x)
  }

  /** Each tombstone is collected only after all peers have acknowledged it. */
  ghost predicate AckedRun(states: seq<State>, steps: seq<Step>) {
    forall i :: 0 <= i < |steps| && i < |states| ==> AckedStep(states[i], steps[i])
  }

  /** A node that has pulled b beyond x covers x, or x was collected away. */
  lemma AckedIsCovered(c: State, gone: set<Row>, b: Str, x: Row, a: Str)
    requires CoverInv(Trim(c, gone)) && AckedFrom(c, b, x) && a in c.nodes
    ensures Covers(c.nodes[a].tables.rows, x) || Forgotten(gone, x)
  {
    var d := Trim(c, gone);
    if !Forgotten(gone, x) {
      assert x in d.nodes[b].writes;
      if a != b {
        assert Skippable(d.nodes[a], b, d.nodes[b], x);
      }
      assert Covers(d.nodes[a].tables.rows, x);
    }
  }

  lemma AckedBelowClock(c: State, gone: set<Row>, b: Str, x: Row, a: Str)
    requires ClockInv(c) && RetiredInv(c, gone) && CoverInv(Trim(c, gone)) && AckedFrom(c, b, x) && a in c.nodes
    ensures !After(x.hlc, c.nodes[a].clock)
  {
    AckedIsCovered(c, gone, b, x, a);
    if Covers(c.nodes[a].tables.rows, x) {
      DominatedNode(c, a);
    } else {
      var y :| y in gone && KeyOf(y) == KeyOf(x) && AtLeast(y, x);
      RetiredBelowClock(c, gone, y, a);
    }
  }

  lemma AckedIsSafe(c: State, gone: set<Row>, b: Str, x: Row)
    requires ClockInv(c) && RetiredInv(c, gone) && CoverInv(Trim(c, gone)) && AckedFrom(c, b, x)
    ensures Safe(c, x)
  {
    forall a | a in c.nodes ensures !After(x.hlc, c.nodes[a].clock) {
      AckedBelowClock(c, gone, b, x, a);
    }
    forall v | Present(c, v) && KeyOf(v) == KeyOf(x) ensures !Newer(x, v) {
      if a :| a in c.nodes && Holds(c.nodes[a].tables.rows, v) {
        AckedIsCovered(c, gone, b, x, a);
        if !Covers(c.nodes[a].tables.rows, x) {
          ForgottenIsNotNewer(c, gone, x, v);
        }
      }
    }
  }

  lemma AckedStepIsSafe(states: seq<State>, steps: seq<Step>, step: Step)
    requires IsRun(states, steps) && Init(states[0]) && SafelyCollected(states, steps) && AckedStep(states[|steps|], step)
    ensures SafeStep(states[|steps|], step)
  {
    var gone := HistoryExists(states, steps);
    ReachableClock(states, steps, |steps|);
    ReachableRetired(states, steps, gone, |steps|);
    ReachableTrimmedCover(states, steps, gone, |steps|);
    forall x | x in Removed(states[|steps|], step) ensures Safe(states[|steps|], x) {
      var b :| AckedFrom(states[|steps|], b, x);
      AckedIsSafe(states[|steps|], gone[|steps|], b, x);
    }
  }

  lemma PrefixIsRun(states: seq<State>, steps: seq<Step>, n: nat)
    requires IsRun(states, steps) && n <= |steps|
    ensures IsRun(states[..n + 1], steps[..n])
  {
    var s, p := states[..n + 1], steps[..n];
    forall i | 0 <= i < |p| ensures StepAt(s, p, i) {
      assert StepAt(states, steps, i);
    }
  }

  /** Acknowledgement makes collection safe: if each tombstone is collected only when every
      peer's watermark for its writer has reached it and no older version is in flight, then
      every collection of the run is safe. */
  lemma {:induction false} AckedRunsAreSafe(states: seq<State>, steps: seq<Step>)
    requires IsRun(states, steps) && Init(states[0]) && AckedRun(states, steps)
    ensures SafelyCollected(states, steps)
    decreases |steps|
  {
    if steps != [] {
      var n := |steps| - 1;
      var s, p := states[..n + 1], steps[..n];
      PrefixIsRun(states, steps, n);
      AckedRunsAreSafe(s, p);
      assert AckedStep(states[n], steps[n]);
      AckedStepIsSafe(s, p, steps[n]);
      forall i | 0 <= i < |steps| ensures SafeStep(states[i], steps[i]) {
        if i < n {
          assert SafeStep(s[i], p[i]);
        }
      }
    }
  }
}
