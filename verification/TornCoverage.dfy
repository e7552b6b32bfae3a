/** Completeness and convergence over runs of split steps: what the writes must keep to,
    and that a lock is enough for it. */
module TornCoverage {
  import opened Text
  import opened Hlc
  import opened Model
  import opened Merge
  import opened EventLog
  import opened Pull
  import opened Sync
  import opened Cluster
  import opened Dominance
  import opened Stamps
  import opened Coverage
  import opened Convergence
  import opened Torn
  import opened TornRuns

  // ------------------------------------------------------------ structure

  ghost predicate TornStructured(t: TornState) {
    && Structured(t.c)
    && (forall n, h :: (n, h) in t.ticks ==> After(h, ZERO))
  }

  /** Marks only grew, everything else that a call's check reads is as before. */
  lemma CallsStayWithin(c: State, c': State)
    requires CallsWithin(c) && c'.calls == c.calls && c'.nodes.Keys == c.nodes.Keys
    requires forall n, p, kind :: n in c.nodes ==> !After(Mark(c.nodes[n].tables.marks, p, kind), Mark(c'.nodes[n].tables.marks, p, kind))
    ensures CallsWithin(c')
  {
    forall call | call in c'.calls
      ensures call.client in c'.nodes && call.server in c'.nodes && MarksWithin(c'.nodes[call.client].tables, call.server, call.req)
    {
      WithinLater(c.nodes[call.client].tables, c'.nodes[call.client].tables, call.server, call.req);
    }
  }

  lemma WriteStructured(s: NodeState, n: Str, op: RowOp, h: HLC)
    requires NodeStructured(s) && OpAllowed(s, n, op) && After(h, ZERO)
    ensures var rows' := RowsAfter(s.tables.rows, op, h);
            forall k :: k in rows' ==> KeyOf(rows'[k]) == k && RowKind(k.kind) && After(rows'[k].hlc, ZERO)
    ensures forall w :: w in Delta(s.tables.rows, op, h).Values ==> RowKind(w.kind) && After(w.hlc, ZERO)
  {
    DeltaStamped(s, n, op, h);
  }

  lemma MergeStructured(s: NodeState, peer: Str, batch: seq<Row>)
    requires NodeStructured(s) && forall r :: r in batch ==> RowKind(r.kind) && After(r.hlc, ZERO)
    ensures NodeStructured(s.(tables := RowsApplied(s.tables, peer, batch)))
    ensures forall p, kind :: !After(Mark(s.tables.marks, p, kind), Mark(AdvanceMarks(s.tables.marks, peer, batch), p, kind))
  {
    JoinBatchIsJoin(s.tables.rows, batch);
    forall p, kind
      ensures !After(Mark(s.tables.marks, p, kind), Mark(AdvanceMarks(s.tables.marks, peer, batch), p, kind))
    {
      AdvancedMark(s.tables.marks, peer, batch, p, kind);
    }
  }

  /** A node after one split step: structured, with marks that only grew. */
  ghost predicate NodeFollows(s: NodeState, s': NodeState) {
    && NodeStructured(s')
    && forall p, kind :: !After(Mark(s.tables.marks, p, kind), Mark(s'.tables.marks, p, kind))
  }

  lemma LocalNodeFollows(s: NodeState, n: Str, now: int, op: RowOp, emission: Emission)
    requires NodeStructured(s) && OpAllowed(s, n, op) && !After(ZERO, s.clock)
    ensures NodeFollows(s, LocalNode(s, n, now, op, emission))
  {
    WriteStructured(s, n, op, TickFrom(s.clock, now));
  }

  lemma EventsNodeFollows(s: NodeState, rep: Reply)
    requires NodeStructured(s)
    ensures NodeFollows(s, EventsTaken(s, rep))
  {
    forall p, kind ensures !After(Mark(s.tables.marks, p, kind), Mark(EventsTaken(s, rep).tables.marks, p, kind)) {
      SetMarkRaises(s.tables.marks, rep.call.server, EventMax(rep.call.req.evMark, rep.resp.events), p, kind);
    }
  }

  lemma WholeNodeFollows(c: State, step: Step, n: Str)
    requires Enabled(c, step) && n in c.nodes && NodeStructured(c.nodes[n]) && !After(ZERO, c.nodes[n].clock)
    requires step.TakeRows? ==> ReplyStructured(step.reply)
    ensures NodeFollows(c.nodes[n], Do(c, step).nodes[n])
  {
    var s := c.nodes[n];
    if step.Local? && step.node == n {
      LocalNodeFollows(s, n, step.now, step.op, step.emission);
    } else if step.TakeRows? && step.reply.call.client == n {
      MergeStructured(s, step.reply.call.server, step.reply.resp.rows);
    } else if step.TakeEvents? && step.reply.call.client == n {
      EventsNodeFollows(s, step.reply);
    }
  }

  lemma HalfNodeFollows(t: TornState, step: TornStep, n: Str)
    requires TornStructured(t) && TornEnabled(t, step) && !step.Whole? && n in t.c.nodes
    ensures NodeFollows(t.c.nodes[n], TornDo(t, step).c.nodes[n])
  {
    var s := t.c.nodes[n];
    if step.WriteLate? && step.node == n {
      WriteStructured(s, n, step.op, step.h);
    } else if step.MergeRows? && step.reply.call.client == n {
      assert ReplyStructured(step.reply);
      MergeStructured(s, step.reply.call.server, step.reply.resp.rows);
    } else if step.MergeEvents? && step.reply.call.client == n {
      EventsNodeFollows(s, step.reply);
    }
  }

  lemma AnswerStructured(s: NodeState, rep: Reply)
    requires NodeStructured(s) && IsPart(s.tables, rep.call.req, rep.starts, rep.resp)
    ensures ReplyStructured(rep)
  {
    forall r | r in rep.resp.rows ensures RowKind(r.kind) && After(r.hlc, ZERO) {
      assert Holds(s.tables.rows, r);
    }
  }

  lemma StepNodesFollow(t: TornState, step: TornStep, n: Str)
    requires TornClockInv(t) && TornStructured(t) && TornEnabled(t, step) && n in t.c.nodes
    ensures NodeFollows(t.c.nodes[n], TornDo(t, step).c.nodes[n])
  {
    if step.Whole? {
      assert NodeBelow(t.c.nodes[n], Pending(t, n));
      WholeNodeFollows(t.c, step.step, n);
    } else {
      HalfNodeFollows(t, step, n);
    }
  }

  lemma FollowingKeepsStructured(c: State, c': State)
    requires Structured(c) && c'.nodes.Keys == c.nodes.Keys && c'.calls == c.calls && c'.replies == c.replies
    requires forall n :: n in c.nodes ==> NodeFollows(c.nodes[n], c'.nodes[n])
    ensures Structured(c')
  {
    forall n, p, kind | n in c.nodes
      ensures !After(Mark(c.nodes[n].tables.marks, p, kind), Mark(c'.nodes[n].tables.marks, p, kind))
    {
      assert NodeFollows(c.nodes[n], c'.nodes[n]);
    }
    CallsStayWithin(c, c');
  }

  lemma ServeKeepsStructured(c: State, rep: Reply)
    requires Structured(c) && Enabled(c, Serve(rep))
    ensures Structured(Do(c, Serve(rep)))
  {
    AnswerStructured(c.nodes[rep.call.server], rep);
  }

  lemma LoseKeepsStructured(c: State, rep: Reply)
    requires Structured(c)
    ensures Structured(c.(replies := c.replies - {rep}))
  {
  }

  lemma AskKeepsStructured(c: State, call: Call)
    requires Structured(c) && Enabled(c, Ask(call))
    ensures Structured(Do(c, Ask(call)))
  {
  }

  lemma TicksStayIssued(t: TornState, step: TornStep)
    requires TornClockInv(t) && TornStructured(t) && TornEnabled(t, step)
    ensures var t' := TornDo(t, step);
            forall n, h :: (n, h) in t'.ticks ==> After(h, ZERO)
  {
    if step.TickOnly? {
      assert NodeBelow(t.c.nodes[step.node], Pending(t, step.node));
    }
  }

  lemma StepKeepsStructured(t: TornState, step: TornStep, t': TornState)
    requires TornClockInv(t) && TornStructured(t) && TornEnabled(t, step) && t' == TornDo(t, step)
    ensures TornStructured(t')
  {
    TicksStayIssued(t, step);
    if step.Whole? && step.step.Ask? {
      AskKeepsStructured(t.c, step.step.call);
    } else if step.Whole? && step.step.Serve? {
      ServeKeepsStructured(t.c, step.step.reply);
    } else if step.Whole? && step.step.Lose? {
      LoseKeepsStructured(t.c, step.step.reply);
    } else {
      forall n | n in t.c.nodes ensures NodeFollows(t.c.nodes[n], t'.c.nodes[n]) {
        StepNodesFollow(t, step, n);
      }
      FollowingKeepsStructured(t.c, t'.c);
    }
  }

  // ------------------------------------------------------------ disciplined writes

  /** The rows a step writes, and the node that writes them. */
  ghost function Writes(t: TornState, step: TornStep): set<Row> {
    match step
    case Whole(Local(n, now, op, _)) =>
      if n in t.c.nodes then Delta(t.c.nodes[n].tables.rows, op, TickFrom(t.c.nodes[n].clock, now)).Values else {}
    case WriteLate(n, op, h) => if n in t.c.nodes then Delta(t.c.nodes[n].tables.rows, op, h).Values else {}
    case _ => {}
  }

  function Writer(step: TornStep): Str {
    match step
    case Whole(Local(n, _, _, _)) => n
    case WriteLate(n, _, _) => n
    case _ => []
  }

  /** The step loses no row of any node, and what it writes is above every watermark that
      peers hold for the writer and every reply the writer has made. */
  ghost predicate Disciplined(t: TornState, step: TornStep) {
    && (forall n :: n in t.c.nodes ==> !Loses(t, step, n))
    && (forall w :: w in Writes(t, step) ==> AboveHeard(t.c, Writer(step), w))
  }

  lemma WriteAtNode(rows: Rows, op: RowOp, h: HLC)
    requires WellKeyed(rows) && NothingRemoved(rows, op, h)
    ensures forall w :: w in Delta(rows, op, h).Values ==> Covers(RowsAfter(rows, op, h), w)
  {
    DeltaCarries(rows, op, h);
    KeptRows(rows, op, h);
    forall w | w in Delta(rows, op, h).Values ensures Covers(RowsAfter(rows, op, h), w) {
      AtLeastReflexive(w);
    }
  }

  lemma LocalKeepsTornCover(t: TornState, step: TornStep)
    requires TornClockInv(t) && TornEnabled(t, step) && Disciplined(t, step) && CoverInv(t.c)
    requires step.WriteLate? || (step.Whole? && step.step.Local?)
    ensures CoverInv(TornDo(t, step).c)
  {
    var n := Writer(step);
    var s := t.c.nodes[n];
    var op := if step.Whole? then step.step.op else step.op;
    var h := if step.Whole? then TickFrom(s.clock, step.step.now) else step.h;
    assert NodeBelow(s, Pending(t, n)) && !Loses(t, step, n);
    StepKeepsExactly(t, step, n);
    WriteAtNode(s.tables.rows, op, h);
    WriteKeepsCoverInv(t.c, TornDo(t, step).c, n, Writes(t, step));
  }

  /** The steps that neither write, nor answer, nor merge rows. */
  predicate LeavesRows(step: TornStep) {
    match step
    case Whole(Ask(_)) => true
    case Whole(TakeEvents(_)) => true
    case Whole(Lose(_)) => true
    case ShowClock(_) => true
    case TickOnly(_, _) => true
    case EmitLate(_, _, _, _) => true
    case MergeEvents(_) => true
    case ShowEvents(_) => true
    case _ => false
  }

  lemma LeavesRowsUntouched(t: TornState, step: TornStep)
    requires TornEnabled(t, step) && LeavesRows(step)
    ensures RowsUntouched(t.c, TornDo(t, step).c)
  {
    if step.Whole? && step.step.TakeEvents? {
      TakeEventsTouchesNoRows(t.c, step.step.reply);
    }
  }

  lemma StepKeepsTornCover(t: TornState, step: TornStep)
    requires TornClockInv(t) && TornStructured(t) && TornEnabled(t, step) && Disciplined(t, step) && CoverInv(t.c)
    ensures CoverInv(TornDo(t, step).c)
  {
    if LeavesRows(step) {
      LeavesRowsUntouched(t, step);
      UntouchedKeepsCoverInv(t.c, TornDo(t, step).c);
    } else if step.WriteLate? || (step.Whole? && step.step.Local?) {
      LocalKeepsTornCover(t, step);
    } else {
      AnswersKeepTornCover(t, step);
    }
  }

  lemma AnswersKeepTornCover(t: TornState, step: TornStep)
    requires Structured(t.c) && CoverInv(t.c) && TornEnabled(t, step)
    requires step.MergeRows? || (step.Whole? && (step.step.Serve? || step.step.TakeRows?))
    ensures CoverInv(TornDo(t, step).c)
  {
    match step
    case Whole(Serve(rep)) => ServeKeepsCoverInv(t.c, rep);
    case Whole(TakeRows(rep)) => MergedKeepsCoverInv(t.c, TornDo(t, step).c, rep);
    case MergeRows(rep) => MergedKeepsCoverInv(t.c, TornDo(t, step).c, rep);
  }

  ghost predicate DisciplinedRun(states: seq<TornState>, steps: seq<TornStep>) {
    forall i :: 0 <= i < |steps| && i < |states| ==> Disciplined(states[i], steps[i])
  }

  lemma {:induction false} ReachableStructured(states: seq<TornState>, steps: seq<TornStep>, i: nat)
    requires IsTornRun(states, steps) && TornInit(states[0]) && i < |states|
    ensures TornStructured(states[i])
  {
    if i > 0 {
      ReachableStructured(states, steps, i - 1);
      ReachableTornClock(states, steps, i - 1);
      assert TornStepAt(states, steps, i - 1);
      StepKeepsStructured(states[i - 1], steps[i - 1], states[i]);
    }
  }

  lemma {:induction false} ReachableTornCover(states: seq<TornState>, steps: seq<TornStep>, i: nat)
    requires IsTornRun(states, steps) && TornInit(states[0]) && DisciplinedRun(states, steps) && i < |states|
    ensures CoverInv(states[i].c)
  {
    if i == 0 {
      InitCoverInv(states[0].c);
    } else {
      ReachableTornCover(states, steps, i - 1);
      ReachableStructured(states, steps, i - 1);
      ReachableTornClock(states, steps, i - 1);
      assert TornStepAt(states, steps, i - 1);
      StepKeepsTornCover(states[i - 1], steps[i - 1]);
    }
  }

  /** Per-origin watermark completeness in every disciplined run of split steps. */
  lemma TornWatermarkCompleteness(states: seq<TornState>, steps: seq<TornStep>, i: nat, a: Str, b: Str, w: Row)
    requires IsTornRun(states, steps) && TornInit(states[0]) && DisciplinedRun(states, steps) && i < |states|
    requires a in states[i].c.nodes && b in states[i].c.nodes && w in states[i].c.nodes[b].writes
    requires !After(w.hlc, Mark(states[i].c.nodes[a].tables.marks, b, w.kind))
    ensures Covers(states[i].c.nodes[a].tables.rows, w)
  {
    ReachableTornCover(states, steps, i);
    assert Skippable(states[i].c.nodes[a], b, states[i].c.nodes[b], w);
  }

  // ------------------------------------------------------------ convergence

  /** From step t on, no split step writes a row. */
  ghost predicate TornQuiet(states: seq<TornState>, steps: seq<TornStep>, t: nat) {
    forall i :: t <= i < |steps| && i < |states| ==> Writes(states[i], steps[i]) == {}
  }

  /** Step j has b answer the kind for a call of a's, and step k has a merge the answer,
      whether or not the clock sees it at once. */
  ghost predicate TornPull(steps: seq<TornStep>, a: Str, b: Str, kind: Kind, j: nat, k: nat) {
    && j < k < |steps|
    && steps[j].Whole? && steps[j].step.Serve?
    && var rep := steps[j].step.reply;
       && rep.call.client == a && rep.call.server == b && kind in rep.starts
       && (steps[k] == Whole(TakeRows(rep)) || steps[k] == MergeRows(rep))
  }

  ghost predicate TornPulls(steps: seq<TornStep>, t: nat, a: Str, b: Str, kind: Kind) {
    exists j, k :: t <= j && TornPull(steps, a, b, kind, j, k)
  }

  ghost predicate TornMesh(steps: seq<TornStep>, t: nat, nodes: set<Str>) {
    forall a, b, kind :: a in nodes && b in nodes && a != b && RowKind(kind) ==> TornPulls(steps, t, a, b, kind)
  }

  lemma {:induction false} TornNodesFixed(states: seq<TornState>, steps: seq<TornStep>, i: nat)
    requires IsTornRun(states, steps) && i < |states|
    ensures states[i].c.nodes.Keys == states[0].c.nodes.Keys
  {
    if i > 0 {
      TornNodesFixed(states, steps, i - 1);
      assert TornStepAt(states, steps, i - 1);
    }
  }

  lemma TornStepHistory(t: TornState, step: TornStep, n: Str)
    requires TornEnabled(t, step) && n in t.c.nodes && Writes(t, step) == {}
    ensures TornDo(t, step).c.nodes[n].writes == t.c.nodes[n].writes
  {
  }

  lemma {:induction false} TornHistoryFrozen(states: seq<TornState>, steps: seq<TornStep>, t: nat, i: nat, j: nat, n: Str)
    requires IsTornRun(states, steps) && TornQuiet(states, steps, t) && t <= i <= j < |states| && n in states[i].c.nodes
    ensures n in states[j].c.nodes && states[j].c.nodes[n].writes == states[i].c.nodes[n].writes
    decreases j
  {
    if i < j {
      TornHistoryFrozen(states, steps, t, i, j - 1, n);
      assert TornStepAt(states, steps, j - 1);
      TornStepHistory(states[j - 1], steps[j - 1], n);
    }
  }

  lemma DisciplinedKeeps(states: seq<TornState>, steps: seq<TornStep>, i: nat, j: nat, n: Str, w: Row)
    requires IsTornRun(states, steps) && TornInit(states[0]) && DisciplinedRun(states, steps) && i <= j < |states|
    requires n in states[i].c.nodes && Covers(states[i].c.nodes[n].tables.rows, w)
    ensures n in states[j].c.nodes && Covers(states[j].c.nodes[n].tables.rows, w)
  {
    forall m | i <= m < j && n in states[m].c.nodes ensures !Loses(states[m], steps[m], n) {
      assert Disciplined(states[m], steps[m]);
    }
    OnlyHalvesLose(states, steps, i, j, n, w);
  }

  /** In the state where the server answers, as for whole steps. */
  lemma TornAnswer(c: State, rep: Reply, w: Row)
    requires Structured(c) && CoverInv(c) && rep.call in c.calls && rep.call.server in c.nodes
    requires IsPart(c.nodes[rep.call.server].tables, rep.call.req, rep.starts, rep.resp)
    requires w in c.nodes[rep.call.server].writes && w.kind in rep.starts
    ensures rep.call.client in c.nodes
    ensures Covers(c.nodes[rep.call.client].tables.rows, w) || CoveredBy(rep.resp.rows, w)
  {
    CallWithin(c, rep.call, w.kind);
    assert NodeStructured(c.nodes[rep.call.server]);
    if After(w.hlc, ReqMark(rep.call.req, w.kind)) {
      AnswerCoversOrigin(c.nodes[rep.call.server], rep, w);
    } else {
      assert Skippable(c.nodes[rep.call.client], rep.call.server, c.nodes[rep.call.server], w);
    }
  }

  lemma TornAnswered(states: seq<TornState>, steps: seq<TornStep>, j: nat, rep: Reply, w: Row)
    requires IsTornRun(states, steps) && TornInit(states[0]) && DisciplinedRun(states, steps)
    requires j < |steps| && steps[j] == Whole(Serve(rep)) && w.kind in rep.starts
    requires rep.call.server in states[j].c.nodes && w in states[j].c.nodes[rep.call.server].writes
    ensures rep.call.client in states[j].c.nodes
    ensures Covers(states[j].c.nodes[rep.call.client].tables.rows, w) || CoveredBy(rep.resp.rows, w)
  {
    ReachableTornCover(states, steps, j);
    ReachableStructured(states, steps, j);
    assert TornStepAt(states, steps, j);
    TornAnswer(states[j].c, rep, w);
  }

  lemma TornTaken(states: seq<TornState>, steps: seq<TornStep>, k: nat, rep: Reply, w: Row)
    requires IsTornRun(states, steps) && k < |steps| && CoveredBy(rep.resp.rows, w)
    requires steps[k] == Whole(TakeRows(rep)) || steps[k] == MergeRows(rep)
    ensures rep.call.client in states[k + 1].c.nodes && Covers(states[k + 1].c.nodes[rep.call.client].tables.rows, w)
  {
    assert TornStepAt(states, steps, k);
    JoinCovers(states[k].c.nodes[rep.call.client].tables.rows, rep.resp.rows, w);
  }

  lemma TornPullDelivers(states: seq<TornState>, steps: seq<TornStep>, a: Str, b: Str, j: nat, k: nat, w: Row)
    requires IsTornRun(states, steps) && TornInit(states[0]) && DisciplinedRun(states, steps)
    requires TornPull(steps, a, b, w.kind, j, k) && b in states[j].c.nodes && w in states[j].c.nodes[b].writes
    ensures a in states[|steps|].c.nodes && Covers(states[|steps|].c.nodes[a].tables.rows, w)
  {
    var rep := steps[j].step.reply;
    TornAnswered(states, steps, j, rep, w);
    if Covers(states[j].c.nodes[a].tables.rows, w) {
      DisciplinedKeeps(states, steps, j, |steps|, a, w);
    } else {
      TornTaken(states, steps, k, rep, w);
      DisciplinedKeeps(states, steps, k + 1, |steps|, a, w);
    }
  }

  lemma TornMeshCovers(states: seq<TornState>, steps: seq<TornStep>, t: nat, a: Str, b: Str, w: Row)
    requires IsTornRun(states, steps) && TornInit(states[0]) && DisciplinedRun(states, steps)
    requires t <= |steps| && TornQuiet(states, steps, t) && TornMesh(steps, t, states[0].c.nodes.Keys)
    requires a in states[|steps|].c.nodes && b in states[|steps|].c.nodes && w in states[|steps|].c.nodes[b].writes
    ensures Covers(states[|steps|].c.nodes[a].tables.rows, w)
  {
    TornNodesFixed(states, steps, |steps|);
    ReachableTornCover(states, steps, |steps|);
    ReachableStructured(states, steps, |steps|);
    assert NodeStructured(states[|steps|].c.nodes[b]);
    if a != b {
      assert TornPulls(steps, t, a, b, w.kind);
      var j, k :| t <= j && TornPull(steps, a, b, w.kind, j, k);
      TornNodesFixed(states, steps, j);
      TornHistoryFrozen(states, steps, t, j, |steps|, b);
      TornPullDelivers(states, steps, a, b, j, k, w);
    }
  }

  /** Convergence of split runs: if no step loses a row and every write is above what was
      heard of its node, then, after the last write and a full mesh of pulls, every node is
      at or above every row ever written. */
  lemma DisciplinedRunsConverge(states: seq<TornState>, steps: seq<TornStep>, t: nat)
    requires IsTornRun(states, steps) && TornInit(states[0]) && DisciplinedRun(states, steps)
    requires t <= |steps| && TornQuiet(states, steps, t) && TornMesh(steps, t, states[0].c.nodes.Keys)
    ensures Converged(states[|steps|].c)
  {
    var last := states[|steps|].c;
    forall a, w | a in last.nodes && Written(last, w) ensures Covers(last.nodes[a].tables.rows, w) {
      var b :| b in last.nodes && w in last.nodes[b].writes;
      TornMeshCovers(states, steps, t, a, b, w);
    }
  }

  // ------------------------------------------------------------ a lock is enough

  /** h is at or below n's clock, or below a row that a pending reply brought to n. */
  ghost predicate Reached(t: TornState, n: Str, h: HLC)
    requires n in t.c.nodes
  {
    !After(h, t.c.nodes[n].clock) || exists rep, r :: rep in Pending(t, n) && r in rep.resp.rows && !After(h, r.hlc)
  }

  /** Every mark that peers hold for n and every row in a reply of n's is reached by n. */
  ghost predicate HeardInv(t: TornState) {
    && (forall a, n, kind :: a in t.c.nodes && n in t.c.nodes && RowKind(kind) ==>
          Reached(t, n, Mark(t.c.nodes[a].tables.marks, n, kind)))
    && (forall rep, r :: rep in t.c.replies && rep.call.server in t.c.nodes && r in rep.resp.rows ==>
          Reached(t, rep.call.server, r.hlc))
  }

  lemma ReachedLater(t: TornState, step: TornStep, n: Str, h: HLC)
    requires TornClockInv(t) && TornEnabled(t, step) && n in t.c.nodes && Reached(t, n, h)
    ensures Reached(TornDo(t, step), n, h)
  {
    var t' := TornDo(t, step);
    TornClockMoves(t, step, n);
    if After(h, t'.c.nodes[n].clock) {
      var rep, r :| rep in Pending(t, n) && r in rep.resp.rows && !After(h, r.hlc);
      if step == ShowClock(rep) {
        RowsMaxIsMax(rep.resp.rows);
      } else {
        assert rep in Pending(t', n);
      }
    }
  }

  lemma TornClockMoves(t: TornState, step: TornStep, n: Str)
    requires TornClockInv(t) && TornEnabled(t, step) && n in t.c.nodes
    ensures !After(t.c.nodes[n].clock, TornDo(t, step).c.nodes[n].clock)
  {
    if step.Whole? {
      WholeKeepsBelow(t, step.step, n);
    } else {
      HalfKeepsBelow(t, step, n);
    }
  }

  /** A batch of reached rows raises a mark to something reached. */
  lemma RaisedIsReached(t: TornState, n: Str, marks: Marks, batch: seq<Row>, kind: Kind)
    requires n in t.c.nodes && !After(ZERO, t.c.nodes[n].clock) && Reached(t, n, Mark(marks, n, kind))
    requires forall r :: r in batch ==> Reached(t, n, r.hlc)
    ensures Reached(t, n, Mark(AdvanceMarks(marks, n, batch), n, kind))
  {
    AdvancedMark(marks, n, batch, n, kind);
    BatchMaxIsMax(batch, kind);
  }

  /** The mark that a holds for n after a step: the old one, or raised by a reply of n's. */
  lemma MarkReached(t: TornState, step: TornStep, a: Str, n: Str, kind: Kind)
    requires HeardInv(t) && TornEnabled(t, step)
    requires a in t.c.nodes && n in t.c.nodes && RowKind(kind) && !After(ZERO, t.c.nodes[n].clock)
    ensures Reached(t, n, Mark(TornDo(t, step).c.nodes[a].tables.marks, n, kind))
  {
    if LeavesRows(step) {
      LeavesRowsUntouched(t, step);
    } else if step.MergeRows? {
      MergedMarkReached(t, step.reply, a, n, kind);
    } else if step.Whole? && step.step.TakeRows? {
      MergedMarkReached(t, step.step.reply, a, n, kind);
    } else {
      MarksKept(t, step, a);
    }
  }

  lemma MarksKept(t: TornState, step: TornStep, a: Str)
    requires TornEnabled(t, step) && a in t.c.nodes
    requires step.WriteLate? || (step.Whole? && (step.step.Local? || step.step.Serve?))
    ensures TornDo(t, step).c.nodes[a].tables.marks == t.c.nodes[a].tables.marks
  {
  }

  lemma MergedMarkReached(t: TornState, rep: Reply, a: Str, n: Str, kind: Kind)
    requires HeardInv(t) && rep in t.c.replies && a in t.c.nodes && n in t.c.nodes && RowKind(kind)
    requires !After(ZERO, t.c.nodes[n].clock)
    ensures Reached(t, n, Mark(AdvanceMarks(t.c.nodes[a].tables.marks, rep.call.server, rep.resp.rows), n, kind))
    ensures Reached(t, n, Mark(t.c.nodes[a].tables.marks, n, kind))
  {
    if rep.call.server == n {
      RaisedIsReached(t, n, t.c.nodes[a].tables.marks, rep.resp.rows, kind);
    } else {
      AdvancedMark(t.c.nodes[a].tables.marks, rep.call.server, rep.resp.rows, n, kind);
    }
  }

  lemma ReplyReached(t: TornState, step: TornStep, rep: Reply, r: Row)
    requires TornClockInv(t) && TornStructured(t) && HeardInv(t) && TornEnabled(t, step)
    requires rep in TornDo(t, step).c.replies && rep.call.server in t.c.nodes && r in rep.resp.rows
    ensures Reached(t, rep.call.server, r.hlc)
  {
    if rep !in t.c.replies {
      var s := t.c.nodes[rep.call.server];
      assert Holds(s.tables.rows, r);
      assert NodeBelow(s, Pending(t, rep.call.server));
      assert Below(s.tables.rows[KeyOf(r)], s.clock, Pending(t, rep.call.server));
    }
  }

  lemma MarkReachedLater(t: TornState, step: TornStep, t': TornState, a: Str, n: Str, kind: Kind)
    requires TornClockInv(t) && HeardInv(t) && TornEnabled(t, step) && t' == TornDo(t, step)
    requires a in t.c.nodes && n in t.c.nodes && a in t'.c.nodes && n in t'.c.nodes && RowKind(kind)
    ensures Reached(t', n, Mark(t'.c.nodes[a].tables.marks, n, kind))
  {
    assert NodeBelow(t.c.nodes[n], Pending(t, n));
    MarkReached(t, step, a, n, kind);
    ReachedLater(t, step, n, Mark(t'.c.nodes[a].tables.marks, n, kind));
  }

  lemma StepKeepsHeard(t: TornState, step: TornStep, t': TornState)
    requires TornClockInv(t) && TornStructured(t) && HeardInv(t) && TornEnabled(t, step) && t' == TornDo(t, step)
    ensures HeardInv(t')
  {
    forall a, n, kind | a in t'.c.nodes && n in t'.c.nodes && RowKind(kind)
      ensures Reached(t', n, Mark(t'.c.nodes[a].tables.marks, n, kind))
    {
      MarkReachedLater(t, step, t', a, n, kind);
    }
    forall rep, r | rep in t'.c.replies && rep.call.server in t'.c.nodes && r in rep.resp.rows
      ensures Reached(t', rep.call.server, r.hlc)
    {
      ReplyReachedLater(t, step, t', rep, r);
    }
  }

  lemma ReplyReachedLater(t: TornState, step: TornStep, t': TornState, rep: Reply, r: Row)
    requires TornClockInv(t) && TornStructured(t) && HeardInv(t) && TornEnabled(t, step) && t' == TornDo(t, step)
    requires rep in t'.c.replies && rep.call.server in t.c.nodes && rep.call.server in t'.c.nodes && r in rep.resp.rows
    ensures Reached(t', rep.call.server, r.hlc)
  {
    ReplyReached(t, step, rep, r);
    ReachedLater(t, step, rep.call.server, r.hlc);
  }

  lemma {:induction false} ReachableHeard(states: seq<TornState>, steps: seq<TornStep>, i: nat)
    requires IsTornRun(states, steps) && TornInit(states[0]) && i < |states|
    ensures HeardInv(states[i])
  {
    if i > 0 {
      ReachableHeard(states, steps, i - 1);
      ReachableStructured(states, steps, i - 1);
      ReachableTornClock(states, steps, i - 1);
      assert TornStepAt(states, steps, i - 1);
      StepKeepsHeard(states[i - 1], steps[i - 1], states[i]);
    }
  }

  /** The step is not a late write, and a local write only where no merge is unfinished and
      nothing is removed. Merges of several peers may overlap, and clocks may lag. */
  ghost predicate Locked(t: TornState, step: TornStep) {
    match step
    case Whole(Local(n, _, op, _)) => (op.NoRow? || Pending(t, n) == {}) && !Removes(t.c, step.step)
    case WriteLate(_, _, _) => false
    case _ => true
  }

  lemma FreshIsAboveReached(t: TornState, n: Str, w: Row)
    requires TornStructured(t) && HeardInv(t) && n in t.c.nodes && Pending(t, n) == {} && RowKind(w.kind)
    requires After(w.hlc, t.c.nodes[n].clock) && !After(ZERO, t.c.nodes[n].clock)
    ensures AboveHeard(t.c, n, w)
  {
    forall a | a in t.c.nodes ensures After(w.hlc, Mark(t.c.nodes[a].tables.marks, n, w.kind)) {
      assert Reached(t, n, Mark(t.c.nodes[a].tables.marks, n, w.kind));
    }
    forall rep | rep in t.c.replies && rep.call.server == n ensures After(w.hlc, BatchMax(rep.resp.rows, w.kind)) {
      BatchMaxIsMax(rep.resp.rows, w.kind);
      if BatchMax(rep.resp.rows, w.kind) != ZERO {
        var r :| r in rep.resp.rows && r.kind == w.kind && r.hlc == BatchMax(rep.resp.rows, w.kind);
        assert Reached(t, n, r.hlc);
      }
    }
  }

  lemma LockedIsDisciplined(t: TornState, step: TornStep)
    requires TornClockInv(t) && TornStructured(t) && HeardInv(t) && TornEnabled(t, step) && Locked(t, step)
    ensures Disciplined(t, step)
  {
    if step.Whole? && step.step.Local? {
      var n := step.step.node;
      var s := t.c.nodes[n];
      assert NodeBelow(s, Pending(t, n)) && NodeStructured(s);
      if !step.step.op.NoRow? {
        LockedWritesLoseNothing(t, step.step, n);
        WriteStructured(s, n, step.step.op, TickFrom(s.clock, step.step.now));
        DeltaCarries(s.tables.rows, step.step.op, TickFrom(s.clock, step.step.now));
        forall w | w in Writes(t, step) ensures AboveHeard(t.c, n, w) {
          FreshIsAboveReached(t, n, w);
        }
      }
    }
  }

  ghost predicate LockedRun(states: seq<TornState>, steps: seq<TornStep>) {
    forall i :: 0 <= i < |steps| && i < |states| ==> Locked(states[i], steps[i])
  }

  lemma LockedRunIsDisciplined(states: seq<TornState>, steps: seq<TornStep>)
    requires IsTornRun(states, steps) && TornInit(states[0]) && LockedRun(states, steps)
    ensures DisciplinedRun(states, steps)
  {
    forall i | 0 <= i < |steps| ensures Disciplined(states[i], steps[i]) {
      assert TornStepAt(states, steps, i);
      ReachableTornClock(states, steps, i);
      ReachableStructured(states, steps, i);
      ReachableHeard(states, steps, i);
      assert Locked(states[i], steps[i]);
      LockedIsDisciplined(states[i], steps[i]);
    }
  }

  /** Two locks are enough: if at each node no write falls into an unfinished merge and none
      comes later than its tick, split runs converge as whole runs do, although merges of
      several peers overlap and clock updates come at any time. */
  lemma LockedRunsConverge(states: seq<TornState>, steps: seq<TornStep>, t: nat)
    requires IsTornRun(states, steps) && TornInit(states[0]) && LockedRun(states, steps)
    requires t <= |steps| && TornQuiet(states, steps, t) && TornMesh(steps, t, states[0].c.nodes.Keys)
    ensures Converged(states[|steps|].c)
  {
    LockedRunIsDisciplined(states, steps);
    DisciplinedRunsConverge(states, steps, t);
  }
}
