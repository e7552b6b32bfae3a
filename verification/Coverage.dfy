/** Per-origin watermark completeness: skipping what lies at or below a watermark
    loses nothing the peer wrote itself. */
module Coverage {
  import opened Text
  import opened Hlc
  import opened Model
  import opened Merge
  import opened Storage
  import opened Pull
  import opened Cluster
  import opened Dominance

  /** Some row of the batch has w's key and equals or beats w. */
  ghost predicate CoveredBy(batch: seq<Row>, w: Row) {
    exists r :: r in batch && KeyOf(r) == KeyOf(w) && AtLeast(r, w)
  }

  /** Each node's table covers all it ever wrote. */
  ghost predicate CoverOwn(c: State) {
    forall n, w :: n in c.nodes && w in c.nodes[n].writes ==> Covers(c.nodes[n].tables.rows, w)
  }

  /** b wrote w itself, at or below the mark that s holds for b. */
  predicate Skippable(s: NodeState, b: Str, origin: NodeState, w: Row) {
    w in origin.writes && !After(w.hlc, Mark(s.tables.marks, b, w.kind))
  }

  /** Whatever b wrote at or below a's watermark for b, a covers. */
  ghost predicate CoverMarks(c: State) {
    forall a, b, w :: a in c.nodes && b in c.nodes && Skippable(c.nodes[a], b, c.nodes[b], w) ==>
      Covers(c.nodes[a].tables.rows, w)
  }

  /** The server wrote w itself, above the asked mark and up to the reply's maximum. */
  predicate Claimed(rep: Reply, origin: NodeState, w: Row) {
    && w in origin.writes
    && After(w.hlc, ReqMark(rep.call.req, w.kind)) && !After(w.hlc, BatchMax(rep.resp.rows, w.kind))
  }

  /** A reply covers all its server ever writes between the mark it answers and its
      own greatest stamp, also what is written after the reply was made. */
  ghost predicate CoverReplies(c: State) {
    forall rep, w :: rep in c.replies && rep.call.server in c.nodes && Claimed(rep, c.nodes[rep.call.server], w) ==>
      CoveredBy(rep.resp.rows, w)
  }

  ghost predicate CoverInv(c: State) {
    CoverOwn(c) && CoverMarks(c) && CoverReplies(c)
  }

  // ------------------------------------------------------------ what the proof needs of a state

  /** The part of clock dominance that coverage rests on and that does not mention clocks. */
  ghost predicate NodeStructured(s: NodeState) {
    && (forall k :: k in s.tables.rows ==>
          KeyOf(s.tables.rows[k]) == k && RowKind(k.kind) && After(s.tables.rows[k].hlc, ZERO))
    && (forall w :: w in s.writes ==> RowKind(w.kind) && After(w.hlc, ZERO))
    && (forall p, kind :: !After(ZERO, Mark(s.tables.marks, p, kind)))
  }

  ghost predicate ReplyStructured(rep: Reply) {
    forall r :: r in rep.resp.rows ==> RowKind(r.kind) && After(r.hlc, ZERO)
  }

  ghost predicate Structured(c: State) {
    && (forall n :: n in c.nodes ==> NodeStructured(c.nodes[n]))
    && CallsWithin(c)
    && (forall rep :: rep in c.replies ==> rep.call in c.calls && rep.call.server in c.nodes && ReplyStructured(rep))
  }

  lemma DominatedIsStructured(c: State)
    requires ClockInv(c)
    ensures Structured(c)
  {
    forall n | n in c.nodes ensures NodeStructured(c.nodes[n]) {
      DominatedNode(c, n);
    }
    forall rep | rep in c.replies ensures ReplyStructured(rep) {
      DominatedReply(c, rep);
    }
  }

  lemma StructuredReply(c: State, rep: Reply)
    requires Structured(c) && rep in c.replies
    ensures rep.call in c.calls && rep.call.server in c.nodes && rep.call.client in c.nodes
    ensures NodeStructured(c.nodes[rep.call.server]) && NodeStructured(c.nodes[rep.call.client])
  {
  }

  // ------------------------------------------------------------ the node-local facts

  /** Fresh stamps beat whatever they replace. */
  lemma LocalKeepsCover(s: NodeState, n: Str, now: int, op: RowOp, emission: Emission, w: Row)
    requires NodeDominates(s) && OpAllowed(s, n, op) && NothingRemoved(s.tables.rows, op, TickFrom(s.clock, now))
    requires Covers(s.tables.rows, w)
    ensures Covers(LocalNode(s, n, now, op, emission).tables.rows, w)
  {
    DeltaStamped(s, n, op, TickFrom(s.clock, now));
    KeptRows(s.tables.rows, op, TickFrom(s.clock, now));
  }

  /** A reply covers everything its server has written above the asked mark. */
  lemma AnswerCoversOrigin(s: NodeState, rep: Reply, w: Row)
    requires NodeStructured(s) && IsPart(s.tables, rep.call.req, rep.starts, rep.resp) && w.kind in rep.starts
    requires w in s.writes && Covers(s.tables.rows, w) && After(w.hlc, ReqMark(rep.call.req, w.kind))
    ensures CoveredBy(rep.resp.rows, w)
  {
    var r := s.tables.rows[KeyOf(w)];
    assert Holds(s.tables.rows, r) && RowKind(r.kind) && r.kind == w.kind;
    assert After(r.hlc, rep.starts[w.kind]);
    assert r in rep.resp.rows;
  }

  /** What a part does not answer, it does not claim either. */
  lemma OtherKindsUnclaimed(s: NodeState, rep: Reply, w: Row)
    requires NodeStructured(s) && IsPart(s.tables, rep.call.req, rep.starts, rep.resp) && w.kind !in rep.starts
    ensures !Claimed(rep, s, w)
  {
    NoKindMeansZero(rep.resp.rows, w.kind);
  }

  lemma JoinCovers(rows: Rows, batch: seq<Row>, w: Row)
    requires CoveredBy(batch, w)
    ensures Covers(JoinBatch(rows, batch), w)
  {
    var r :| r in batch && KeyOf(r) == KeyOf(w) && AtLeast(r, w);
    JoinBatchIsJoin(rows, batch);
    assert Covers(JoinBatch(rows, batch), r);
    AtLeastTransitive(JoinBatch(rows, batch)[KeyOf(w)], r, w);
  }

  // ------------------------------------------------------------ a write

  /** Node n wrote the rows in d; all else but its clock and events is as before. */
  ghost predicate WroteAt(c: State, c': State, n: Str, d: set<Row>) {
    && n in c.nodes && c'.nodes.Keys == c.nodes.Keys && c'.calls == c.calls && c'.replies == c.replies
    && (forall m :: m in c.nodes && m != n ==> c'.nodes[m] == c.nodes[m])
    && c'.nodes[n].writes == c.nodes[n].writes + d
    && c'.nodes[n].tables.marks == c.nodes[n].tables.marks
    && KeepsAll(c.nodes[n].tables.rows, c'.nodes[n].tables.rows)
    && forall w :: w in d ==> Covers(c'.nodes[n].tables.rows, w)
  }

  /** w is above every watermark that peers hold for n and above every reply n has made. */
  ghost predicate AboveHeard(c: State, n: Str, w: Row) {
    && (forall a :: a in c.nodes ==> After(w.hlc, Mark(c.nodes[a].tables.marks, n, w.kind)))
    && (forall rep :: rep in c.replies && rep.call.server == n ==> After(w.hlc, BatchMax(rep.resp.rows, w.kind)))
  }

  /** A write that loses nothing and is above all that was heard of its node keeps
      completeness. */
  lemma WriteKeepsCoverInv(c: State, c': State, n: Str, d: set<Row>)
    requires CoverInv(c) && WroteAt(c, c', n, d) && forall w :: w in d ==> AboveHeard(c, n, w)
    ensures CoverInv(c')
  {
    forall m, v | m in c.nodes && Covers(c.nodes[m].tables.rows, v) ensures Covers(c'.nodes[m].tables.rows, v) {
    }
    forall a, b, w | a in c'.nodes && b in c'.nodes && Skippable(c'.nodes[a], b, c'.nodes[b], w)
      ensures Covers(c'.nodes[a].tables.rows, w)
    {
      assert b == n && w in d ==> AboveHeard(c, n, w);
      assert Skippable(c.nodes[a], b, c.nodes[b], w);
    }
    forall rep, w | rep in c'.replies && rep.call.server in c'.nodes && Claimed(rep, c'.nodes[rep.call.server], w)
      ensures CoveredBy(rep.resp.rows, w)
    {
      assert rep.call.server == n && w in d ==> AboveHeard(c, n, w);
      assert Claimed(rep, c.nodes[rep.call.server], w);
    }
  }

  // ------------------------------------------------------------ an answer

  lemma ServeKeepsCoverInv(c: State, rep: Reply)
    requires Structured(c) && CoverInv(c) && rep.call.server in c.nodes
    requires IsPart(c.nodes[rep.call.server].tables, rep.call.req, rep.starts, rep.resp)
    ensures CoverInv(c.(replies := c.replies + {rep}))
  {
    var s := c.nodes[rep.call.server];
    assert NodeStructured(s);
    forall w | Claimed(rep, s, w) ensures CoveredBy(rep.resp.rows, w) {
      if w.kind in rep.starts {
        AnswerCoversOrigin(s, rep, w);
      } else {
        OtherKindsUnclaimed(s, rep, w);
      }
    }
  }

  // ------------------------------------------------------------ taking an answer

  /** Node a merged the rows of a reply to it; all else but its clock is as before. */
  ghost predicate MergedAt(c: State, c': State, rep: Reply) {
    var a := rep.call.client;
    && rep in c.replies && a in c.nodes && c'.nodes.Keys == c.nodes.Keys && c'.calls == c.calls && c'.replies == c.replies
    && (forall m :: m in c.nodes && m != a ==> c'.nodes[m] == c.nodes[m])
    && c'.nodes[a].writes == c.nodes[a].writes
    && c'.nodes[a].tables.rows == JoinBatch(c.nodes[a].tables.rows, rep.resp.rows)
    && c'.nodes[a].tables.marks == AdvanceMarks(c.nodes[a].tables.marks, rep.call.server, rep.resp.rows)
  }

  lemma MergedKeepsCovers(c: State, c': State, rep: Reply, m: Str, w: Row)
    requires MergedAt(c, c', rep) && m in c.nodes && Covers(c.nodes[m].tables.rows, w)
    ensures Covers(c'.nodes[m].tables.rows, w)
  {
    if m == rep.call.client {
      JoinKeepsCover(c.nodes[m].tables.rows, rep.resp.rows, w);
    }
  }

  /** What the watermark newly claims, the reply just delivered. */
  lemma TakenRowCovered(c: State, rep: Reply, w: Row)
    requires Structured(c) && CoverInv(c) && rep in c.replies
    requires w in c.nodes[rep.call.server].writes
    requires After(w.hlc, Mark(c.nodes[rep.call.client].tables.marks, rep.call.server, w.kind))
    requires !After(w.hlc, BatchMax(rep.resp.rows, w.kind))
    ensures Covers(JoinBatch(c.nodes[rep.call.client].tables.rows, rep.resp.rows), w)
  {
    StructuredReply(c, rep);
    CallWithin(c, rep.call, w.kind);
    assert Claimed(rep, c.nodes[rep.call.server], w);
    JoinCovers(c.nodes[rep.call.client].tables.rows, rep.resp.rows, w);
  }

  lemma MergedKeepsSkipped(c: State, c': State, rep: Reply, a: Str, b: Str, w: Row)
    requires Structured(c) && CoverInv(c) && MergedAt(c, c', rep) && a in c.nodes && b in c.nodes
    requires Skippable(c'.nodes[a], b, c'.nodes[b], w)
    ensures Covers(c'.nodes[a].tables.rows, w)
  {
    if Skippable(c.nodes[a], b, c.nodes[b], w) {
      MergedKeepsCovers(c, c', rep, a, w);
    } else {
      AdvancedMark(c.nodes[a].tables.marks, rep.call.server, rep.resp.rows, b, w.kind);
      NoKindMeansZero(rep.resp.rows, w.kind);
      StructuredReply(c, rep);
      TakenRowCovered(c, rep, w);
    }
  }

  lemma MergedKeepsCoverInv(c: State, c': State, rep: Reply)
    requires Structured(c) && CoverInv(c) && MergedAt(c, c', rep)
    ensures CoverInv(c')
  {
    forall m, w | m in c'.nodes && w in c'.nodes[m].writes ensures Covers(c'.nodes[m].tables.rows, w) {
      MergedKeepsCovers(c, c', rep, m, w);
    }
    forall a, b, w | a in c'.nodes && b in c'.nodes && Skippable(c'.nodes[a], b, c'.nodes[b], w)
      ensures Covers(c'.nodes[a].tables.rows, w)
    {
      MergedKeepsSkipped(c, c', rep, a, b, w);
    }
  }

  /** Steps that touch no row, no row history and no mark of a row kind, and make no reply. */
  ghost predicate RowsUntouched(c: State, c': State) {
    && c'.nodes.Keys == c.nodes.Keys && c'.replies <= c.replies
    && forall n :: n in c.nodes ==>
         && c'.nodes[n].writes == c.nodes[n].writes && c'.nodes[n].tables.rows == c.nodes[n].tables.rows
         && forall p, kind :: RowKind(kind) ==> Mark(c'.nodes[n].tables.marks, p, kind) == Mark(c.nodes[n].tables.marks, p, kind)
  }

  lemma UntouchedKeepsCoverInv(c: State, c': State)
    requires Structured(c) && CoverInv(c) && RowsUntouched(c, c')
    ensures CoverInv(c')
  {
    forall a, b, w | a in c'.nodes && b in c'.nodes && Skippable(c'.nodes[a], b, c'.nodes[b], w)
      ensures Covers(c'.nodes[a].tables.rows, w)
    {
      assert NodeStructured(c.nodes[b]);
      assert Skippable(c.nodes[a], b, c.nodes[b], w);
    }
    forall rep, w | rep in c'.replies && rep.call.server in c'.nodes && Claimed(rep, c'.nodes[rep.call.server], w)
      ensures CoveredBy(rep.resp.rows, w)
    {
      assert Claimed(rep, c.nodes[rep.call.server], w);
    }
  }

  lemma TakeEventsTouchesNoRows(c: State, rep: Reply)
    requires rep.call.client in c.nodes
    ensures RowsUntouched(c, c.(nodes := c.nodes[rep.call.client := EventsTaken(c.nodes[rep.call.client], rep)]))
  {
  }

  // ------------------------------------------------------------ preservation

  lemma InitCoverInv(c: State)
    requires Init(c)
    ensures CoverInv(c)
  {
  }

  /** If nothing is removed, nothing a table covers is ever uncovered. */
  lemma StepKeepsCover(c: State, step: Step, n: Str, w: Row)
    requires ClockInv(c) && Enabled(c, step) && !Removes(c, step)
    requires n in c.nodes && Covers(c.nodes[n].tables.rows, w)
    ensures Covers(Do(c, step).nodes[n].tables.rows, w)
  {
    if step.Local? && step.node == n {
      LocalKeepsCover(c.nodes[n], n, step.now, step.op, step.emission, w);
    } else if step.TakeRows? && step.reply.call.client == n {
      JoinKeepsCover(c.nodes[n].tables.rows, step.reply.resp.rows, w);
    }
  }

  /** A tick's rows are above all that was heard of its node. */
  lemma FreshIsAboveHeard(c: State, n: Str, w: Row)
    requires ClockInv(c) && n in c.nodes && After(w.hlc, c.nodes[n].clock)
    ensures AboveHeard(c, n, w)
  {
    forall a | a in c.nodes ensures After(w.hlc, Mark(c.nodes[a].tables.marks, n, w.kind)) {
      DominatedMark(c, a, n, w.kind);
    }
    forall rep | rep in c.replies && rep.call.server == n ensures After(w.hlc, BatchMax(rep.resp.rows, w.kind)) {
      ReplyMaxima(c, rep, w.kind);
    }
  }

  lemma LocalWroteAt(c: State, step: Step)
    requires ClockInv(c) && step.Local? && Enabled(c, step) && !Removes(c, step)
    ensures WroteAt(c, Do(c, step), step.node,
                    Delta(c.nodes[step.node].tables.rows, step.op, TickFrom(c.nodes[step.node].clock, step.now)).Values)
  {
    var n := step.node;
    var s := c.nodes[n];
    var h := TickFrom(s.clock, step.now);
    DominatedNode(c, n);
    DeltaStamped(s, n, step.op, h);
    KeptRows(s.tables.rows, step.op, h);
    forall v | Covers(s.tables.rows, v) ensures Covers(Do(c, step).nodes[n].tables.rows, v) {
      LocalKeepsCover(s, n, step.now, step.op, step.emission, v);
    }
    forall w | w in Delta(s.tables.rows, step.op, h).Values ensures Covers(Do(c, step).nodes[n].tables.rows, w) {
      AtLeastReflexive(w);
    }
  }

  lemma LocalKeepsCoverInv(c: State, step: Step)
    requires ClockInv(c) && CoverInv(c) && step.Local? && Enabled(c, step) && !Removes(c, step)
    ensures CoverInv(Do(c, step))
  {
    var n := step.node;
    var h := TickFrom(c.nodes[n].clock, step.now);
    var d := Delta(c.nodes[n].tables.rows, step.op, h).Values;
    LocalWroteAt(c, step);
    forall w | w in d ensures AboveHeard(c, n, w) {
      DominatedNode(c, n);
      DeltaStamped(c.nodes[n], n, step.op, h);
      FreshIsAboveHeard(c, n, w);
    }
    WriteKeepsCoverInv(c, Do(c, step), n, d);
  }

  /** Every step but a collection that removes something keeps completeness; pruning
      included. */
  lemma StepKeepsCoverInv(c: State, step: Step)
    requires ClockInv(c) && CoverInv(c) && Enabled(c, step) && !Removes(c, step)
    ensures CoverInv(Do(c, step))
  {
    DominatedIsStructured(c);
    match step
    case Local(_, _, _, _) => LocalKeepsCoverInv(c, step);
    case Ask(_) =>
    case Serve(rep) => ServeKeepsCoverInv(c, rep);
    case TakeRows(rep) => MergedKeepsCoverInv(c, Do(c, step), rep);
    case TakeEvents(rep) =>
      TakeEventsTouchesNoRows(c, rep);
      UntouchedKeepsCoverInv(c, Do(c, step));
    case Lose(_) => UntouchedKeepsCoverInv(c, Do(c, step));
  }
}
