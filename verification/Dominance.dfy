/** Clock dominance: in every run, collection and pruning included, each node's
    clock is at or above every stamp it stores, it has put in flight, or some peer
    remembers of it. */
module Dominance {
  import opened Text
  import opened Hlc
  import opened Model
  import opened Merge
  import opened EventLog
  import opened Storage
  import opened Pull
  import opened Sync
  import opened Cluster

  /** A stamp some tick issued, no later than the clock c. */
  predicate Issued(h: HLC, c: HLC) {
    After(h, ZERO) && h.ctr >= 0 && !After(h, c)
  }

  ghost predicate RowsIssued(rows: Rows, c: HLC) {
    forall k :: k in rows ==> KeyOf(rows[k]) == k && RowKind(k.kind) && Issued(rows[k].hlc, c)
  }

  ghost predicate EventsIssued(events: Events, c: HLC) {
    forall k :: k in events ==> EventKeyOf(events[k]) == k && Issued(events[k].hlc, c)
  }

  ghost predicate MarksIssued(marks: Marks, c: HLC) {
    forall p, kind :: !After(ZERO, Mark(marks, p, kind)) && !After(Mark(marks, p, kind), c)
  }

  ghost predicate HistoryIssued(s: NodeState) {
    && (forall w :: w in s.writes ==> RowKind(w.kind) && Issued(w.hlc, s.clock))
    && (forall e :: e in s.log ==> Issued(e.hlc, s.clock))
  }

  ghost predicate NodeDominates(s: NodeState) {
    && !After(ZERO, s.clock) && s.clock.ctr >= 0
    && RowsIssued(s.tables.rows, s.clock)
    && EventsIssued(s.tables.events, s.clock)
    && MarksIssued(s.tables.marks, s.clock)
    && HistoryIssued(s)
  }

  ghost predicate ReplyIssued(rep: Reply, k: HLC) {
    && (forall r :: r in rep.resp.rows ==> RowKind(r.kind) && Issued(r.hlc, k))
    && (forall e :: e in rep.resp.events ==> Issued(e.hlc, k))
  }

  ghost predicate ReplyDominated(c: State, rep: Reply)
    requires rep.call.server in c.nodes
  {
    ReplyIssued(rep, c.nodes[rep.call.server].clock)
  }

  /** Every mark a peer holds for a node is at or below that node's clock. */
  ghost predicate MarksDominated(c: State) {
    forall a, b, kind :: a in c.nodes && b in c.nodes ==>
      !After(Mark(c.nodes[a].tables.marks, b, kind), c.nodes[b].clock)
  }

  ghost predicate CallsWithin(c: State) {
    forall call :: call in c.calls ==>
      call.client in c.nodes && call.server in c.nodes && MarksWithin(c.nodes[call.client].tables, call.server, call.req)
  }

  ghost predicate ClockInv(c: State) {
    && (forall n :: n in c.nodes ==> NodeDominates(c.nodes[n]))
    && MarksDominated(c)
    && CallsWithin(c)
    && (forall rep :: rep in c.replies ==> rep.call in c.calls && rep.call.server in c.nodes && ReplyDominated(c, rep))
  }

  // What the invariant says of one node, one reply and one call.

  lemma DominatedNode(c: State, n: Str)
    requires ClockInv(c) && n in c.nodes
    ensures NodeDominates(c.nodes[n])
  {
  }

  lemma DominatedReply(c: State, rep: Reply)
    requires ClockInv(c) && rep in c.replies
    ensures rep.call in c.calls && rep.call.server in c.nodes && rep.call.client in c.nodes
    ensures ReplyIssued(rep, c.nodes[rep.call.server].clock)
    ensures MarksWithin(c.nodes[rep.call.client].tables, rep.call.server, rep.call.req)
  {
  }

  lemma DominatedMark(c: State, a: Str, b: Str, kind: Kind)
    requires MarksDominated(c) && a in c.nodes && b in c.nodes
    ensures !After(Mark(c.nodes[a].tables.marks, b, kind), c.nodes[b].clock)
  {
  }

  lemma CallWithin(c: State, call: Call, kind: Kind)
    requires CallsWithin(c) && call in c.calls
    ensures call.client in c.nodes && call.server in c.nodes
    ensures RowKind(kind) ==> !After(ReqMark(call.req, kind), Mark(c.nodes[call.client].tables.marks, call.server, kind))
    ensures !After(call.req.evMark, Mark(c.nodes[call.client].tables.marks, call.server, Event))
  {
    assert MarksWithin(c.nodes[call.client].tables, call.server, call.req);
  }

  lemma InitClockInv(c: State)
    requires Init(c)
    ensures ClockInv(c)
  {
  }

  /** The rows of an allowed delta are also of the kinds of the rows table. */
  lemma DeltaStamped(s: NodeState, node: Str, op: RowOp, h: HLC)
    requires WellKeyed(s.tables.rows) && OpAllowed(s, node, op)
    requires forall k :: k in s.tables.rows ==> RowKind(k.kind)
    ensures var d := Delta(s.tables.rows, op, h);
            forall k :: k in d ==> KeyOf(d[k]) == k && d[k].hlc == h && RowKind(k.kind)
  {
    DeltaCarries(s.tables.rows, op, h);
  }

  lemma LocalRowsIssued(s: NodeState, node: Str, op: RowOp, h: HLC)
    requires RowsIssued(s.tables.rows, s.clock) && !After(ZERO, s.clock) && OpAllowed(s, node, op)
    requires After(h, s.clock) && h.ctr >= 0
    ensures RowsIssued(RowsAfter(s.tables.rows, op, h), h)
  {
    DeltaStamped(s, node, op, h);
    StampedOverIssued(s.tables.rows, Delta(s.tables.rows, op, h), s.clock, h);
  }

  lemma StampedOverIssued(rows: Rows, d: Rows, c: HLC, h: HLC)
    requires RowsIssued(rows, c) && !After(ZERO, c) && After(h, c) && h.ctr >= 0
    requires forall k :: k in d ==> KeyOf(d[k]) == k && d[k].hlc == h && RowKind(k.kind)
    ensures RowsIssued(rows, h) && RowsIssued(rows + d, h)
  {
  }

  lemma LocalEventsIssued(events: Events, c: HLC, node: Str, emission: Emission, h: HLC)
    requires EventsIssued(events, c) && !After(ZERO, c) && After(h, c) && h.ctr >= 0
    ensures EventsIssued(EventsAfter(events, node, emission, h), h)
    ensures forall e :: e in Emitted(events, node, emission, h) ==> e.hlc == h
  {
  }

  lemma LocalHistoryIssued(s: NodeState, node: Str, now: int, op: RowOp, emission: Emission)
    requires NodeDominates(s) && OpAllowed(s, node, op)
    ensures HistoryIssued(LocalNode(s, node, now, op, emission))
  {
    var h := TickFrom(s.clock, now);
    DeltaStamped(s, node, op, h);
    LocalEventsIssued(s.tables.events, s.clock, node, emission, h);
  }

  lemma LocalNodeDominates(s: NodeState, node: Str, now: int, op: RowOp, emission: Emission)
    requires NodeDominates(s) && OpAllowed(s, node, op)
    ensures NodeDominates(LocalNode(s, node, now, op, emission))
  {
    var h := TickFrom(s.clock, now);
    LocalRowsIssued(s, node, op, h);
    LocalEventsIssued(s.tables.events, s.clock, node, emission, h);
    LocalHistoryIssued(s, node, now, op, emission);
  }

  /** One node moved forward and everything else stayed. */
  ghost predicate NodeMoved(c: State, c': State, n: Str) {
    && n in c.nodes && n in c'.nodes
    && c'.nodes == c.nodes[n := c'.nodes[n]] && c'.calls == c.calls && c'.replies == c.replies
    && !After(c.nodes[n].clock, c'.nodes[n].clock)
    && (forall p, kind :: !After(Mark(c.nodes[n].tables.marks, p, kind), Mark(c'.nodes[n].tables.marks, p, kind)))
  }

  lemma ReplyIssuedLater(rep: Reply, k: HLC, k': HLC)
    requires ReplyIssued(rep, k) && !After(k, k')
    ensures ReplyIssued(rep, k')
  {
  }

  lemma WithinLater(t: Tables, t': Tables, server: Str, q: Request)
    requires MarksWithin(t, server, q)
    requires forall p, kind :: !After(Mark(t.marks, p, kind), Mark(t'.marks, p, kind))
    ensures MarksWithin(t', server, q)
  {
  }

  lemma NodeMoveKeepsMarks(c: State, c': State, n: Str)
    requires MarksDominated(c) && NodeMoved(c, c', n)
    requires forall p, kind :: p in c'.nodes ==> !After(Mark(c'.nodes[n].tables.marks, p, kind), c'.nodes[p].clock)
    ensures MarksDominated(c')
  {
    forall a, b, kind | a in c'.nodes && b in c'.nodes
      ensures !After(Mark(c'.nodes[a].tables.marks, b, kind), c'.nodes[b].clock)
    {
      if a != n {
        DominatedMark(c, a, b, kind);
      }
    }
  }

  lemma NodeMoveKeepsCalls(c: State, c': State, n: Str)
    requires CallsWithin(c) && NodeMoved(c, c', n)
    ensures CallsWithin(c')
  {
    forall call | call in c'.calls
      ensures MarksWithin(c'.nodes[call.client].tables, call.server, call.req)
    {
      WithinLater(c.nodes[call.client].tables, c'.nodes[call.client].tables, call.server, call.req);
    }
  }

  lemma NodeMoveKeepsClockInv(c: State, c': State, n: Str)
    requires ClockInv(c) && NodeMoved(c, c', n)
    requires NodeDominates(c'.nodes[n])
    requires forall p, kind :: p in c'.nodes ==> !After(Mark(c'.nodes[n].tables.marks, p, kind), c'.nodes[p].clock)
    ensures ClockInv(c')
  {
    NodeMoveKeepsMarks(c, c', n);
    NodeMoveKeepsCalls(c, c', n);
    forall rep | rep in c'.replies ensures ReplyDominated(c', rep) {
      ReplyIssuedLater(rep, c.nodes[rep.call.server].clock, c'.nodes[rep.call.server].clock);
    }
  }

  lemma LocalKeepsClockInv(c: State, step: Step)
    requires ClockInv(c) && step.Local? && Enabled(c, step)
    ensures ClockInv(Do(c, step)) && NodeMoved(c, Do(c, step), step.node)
  {
    var c' := Do(c, step);
    LocalNodeDominates(c.nodes[step.node], step.node, step.now, step.op, step.emission);
    forall p, kind | p in c'.nodes ensures !After(Mark(c'.nodes[step.node].tables.marks, p, kind), c'.nodes[p].clock) {
      assert !After(Mark(c.nodes[step.node].tables.marks, p, kind), c.nodes[p].clock);
    }
    NodeMoveKeepsClockInv(c, c', step.node);
  }

  lemma AskKeepsClockInv(c: State, step: Step)
    requires ClockInv(c) && step.Ask? && Enabled(c, step)
    ensures ClockInv(Do(c, step))
  {
  }

  lemma AnswerIssued(s: NodeState, rep: Reply)
    requires NodeDominates(s) && IsPart(s.tables, rep.call.req, rep.starts, rep.resp)
    ensures ReplyIssued(rep, s.clock)
  {
    forall r | r in rep.resp.rows ensures RowKind(r.kind) && Issued(r.hlc, s.clock) {
      assert Holds(s.tables.rows, r);
    }
    forall e | e in rep.resp.events ensures Issued(e.hlc, s.clock) {
      assert HoldsEvent(s.tables.events, e);
    }
  }

  lemma ServeKeepsClockInv(c: State, step: Step)
    requires ClockInv(c) && step.Serve? && Enabled(c, step)
    ensures ClockInv(Do(c, step))
  {
    DominatedNode(c, step.reply.call.server);
    AnswerIssued(c.nodes[step.reply.call.server], step.reply);
  }

  /** A reply's greatest stamps lie between zero and the server's clock. */
  lemma ReplyMaxima(c: State, rep: Reply, kind: Kind)
    requires ClockInv(c) && rep in c.replies
    ensures var k := c.nodes[rep.call.server].clock;
            && !After(ZERO, BatchMax(rep.resp.rows, kind)) && !After(BatchMax(rep.resp.rows, kind), k)
            && !After(BatchMax(rep.resp.rows, kind), RowsMax(rep.resp.rows))
            && !After(RowsMax(rep.resp.rows), k)
            && !After(ZERO, EventMax(ZERO, rep.resp.events)) && !After(EventMax(ZERO, rep.resp.events), k)
  {
    DominatedReply(c, rep);
    DominatedNode(c, rep.call.server);
    IssuedMaxima(rep, c.nodes[rep.call.server].clock, kind);
  }

  lemma IssuedMaxima(rep: Reply, k: HLC, kind: Kind)
    requires ReplyIssued(rep, k) && !After(ZERO, k)
    ensures !After(ZERO, BatchMax(rep.resp.rows, kind)) && !After(BatchMax(rep.resp.rows, kind), k)
    ensures !After(BatchMax(rep.resp.rows, kind), RowsMax(rep.resp.rows)) && !After(RowsMax(rep.resp.rows), k)
    ensures !After(ZERO, EventMax(ZERO, rep.resp.events)) && !After(EventMax(ZERO, rep.resp.events), k)
  {
    BatchMaxIsMax(rep.resp.rows, kind);
    RowsMaxIsMax(rep.resp.rows);
    EventMaxIsMax(ZERO, rep.resp.events);
  }

  /** The mark after taking rows is the old one or, for the server and a kind in the
      reply, possibly the reply's maximum; it never decreases. */
  lemma MarkAfterRows(c: State, rep: Reply, p: Str, kind: Kind)
    requires ClockInv(c) && rep in c.replies
    ensures var s := c.nodes[rep.call.client];
            var m, m' := Mark(s.tables.marks, p, kind), Mark(RowsTaken(s, rep).tables.marks, p, kind);
            && m' == (if p == rep.call.server then Max(m, BatchMax(rep.resp.rows, kind)) else m)
            && !After(m, m')
  {
    var s := c.nodes[rep.call.client];
    AdvancedMark(s.tables.marks, rep.call.server, rep.resp.rows, p, kind);
    NoKindMeansZero(rep.resp.rows, kind);
    assert NodeDominates(s);
  }

  lemma JoinIssued(rows: Rows, batch: seq<Row>, c: HLC)
    requires RowsIssued(rows, c)
    requires forall r :: r in batch ==> RowKind(r.kind) && After(r.hlc, ZERO) && r.hlc.ctr >= 0
    ensures c.ctr >= 0 ==> ClockAfterRows(c, batch).ctr >= 0
    ensures RowsIssued(JoinBatch(rows, batch), ClockAfterRows(c, batch))
  {
    JoinBatchIsJoin(rows, batch);
    RowsMaxIsMax(batch);
    var out := JoinBatch(rows, batch);
    forall k | k in out ensures KeyOf(out[k]) == k && RowKind(k.kind) && Issued(out[k].hlc, ClockAfterRows(c, batch)) {
      assert (k in rows && out[k] == rows[k]) || (out[k] in batch && KeyOf(out[k]) == k);
    }
  }

  lemma AdvanceIssued(marks: Marks, peer: Str, batch: seq<Row>, c: HLC)
    requires MarksIssued(marks, c)
    ensures MarksIssued(AdvanceMarks(marks, peer, batch), ClockAfterRows(c, batch))
  {
    forall p, kind ensures var m := Mark(AdvanceMarks(marks, peer, batch), p, kind);
                           !After(ZERO, m) && !After(m, ClockAfterRows(c, batch))
    {
      AdvancedMark(marks, peer, batch, p, kind);
      BatchMaxWithin(batch, kind);
      assert !After(ZERO, Mark(marks, p, kind)) && !After(Mark(marks, p, kind), c);
    }
  }

  lemma BatchMaxWithin(batch: seq<Row>, kind: Kind)
    ensures !After(ZERO, BatchMax(batch, kind)) && !After(BatchMax(batch, kind), RowsMax(batch))
  {
    BatchMaxIsMax(batch, kind);
    RowsMaxIsMax(batch);
  }

  lemma HistoryIssuedLater(s: NodeState, s': NodeState)
    requires HistoryIssued(s) && s'.writes == s.writes && s'.log == s.log && !After(s.clock, s'.clock)
    ensures HistoryIssued(s')
  {
  }

  lemma EventsIssuedLater(events: Events, k: HLC, k': HLC)
    requires EventsIssued(events, k) && !After(k, k')
    ensures EventsIssued(events, k')
  {
  }

  lemma RowsIssuedLater(rows: Rows, k: HLC, k': HLC)
    requires RowsIssued(rows, k) && !After(k, k')
    ensures RowsIssued(rows, k')
  {
  }

  lemma MarksIssuedLater(marks: Marks, k: HLC, k': HLC)
    requires MarksIssued(marks, k) && !After(k, k')
    ensures MarksIssued(marks, k')
  {
  }

  lemma RowsTakenDominates(s: NodeState, rep: Reply, k: HLC)
    requires NodeDominates(s) && ReplyIssued(rep, k)
    ensures NodeDominates(RowsTaken(s, rep)) && !After(s.clock, RowsTaken(s, rep).clock)
  {
    JoinIssued(s.tables.rows, rep.resp.rows, s.clock);
    AdvanceIssued(s.tables.marks, rep.call.server, rep.resp.rows, s.clock);
    EventsIssuedLater(s.tables.events, s.clock, RowsTaken(s, rep).clock);
    HistoryIssuedLater(s, RowsTaken(s, rep));
  }

  lemma TakeRowsKeepsClockInv(c: State, step: Step)
    requires ClockInv(c) && step.TakeRows? && Enabled(c, step)
    ensures ClockInv(Do(c, step)) && NodeMoved(c, Do(c, step), step.reply.call.client)
  {
    var rep, c' := step.reply, Do(c, step);
    var a := rep.call.client;
    DominatedReply(c, rep);
    DominatedNode(c, a);
    RowsTakenDominates(c.nodes[a], rep, c.nodes[rep.call.server].clock);
    forall p, kind ensures !After(Mark(c.nodes[a].tables.marks, p, kind), Mark(c'.nodes[a].tables.marks, p, kind))
        && (p in c'.nodes ==> !After(Mark(c'.nodes[a].tables.marks, p, kind), c'.nodes[p].clock))
    {
      MarkAfterRows(c, rep, p, kind);
      ReplyMaxima(c, rep, kind);
      assert p in c.nodes ==> !After(Mark(c.nodes[a].tables.marks, p, kind), c.nodes[p].clock);
    }
    NodeMoveKeepsClockInv(c, c', a);
  }

  lemma MarkAfterEvents(c: State, rep: Reply, p: Str, kind: Kind)
    requires ClockInv(c) && rep in c.replies
    ensures var s := c.nodes[rep.call.client];
            var m, m' := Mark(s.tables.marks, p, kind), Mark(EventsTaken(s, rep).tables.marks, p, kind);
            && m' == (if p == rep.call.server && kind == Event then Max(m, EventMax(ZERO, rep.resp.events)) else m)
            && !After(m, m')
  {
    var s := c.nodes[rep.call.client];
    assert NodeDominates(s);
    EventMaxStart(Mark(s.tables.marks, rep.call.server, Event), rep.call.req.evMark, rep.resp.events);
  }

  /** Starting the running maximum from the asked mark rather than zero makes no
      difference once the present mark is taken in. */
  lemma {:induction false} EventMaxStart(m: HLC, start: HLC, batch: seq<LogEvent>)
    requires !After(ZERO, m) && !After(start, m)
    ensures Max(m, EventMax(start, batch)) == Max(m, EventMax(ZERO, batch))
  {
    if batch != [] {
      EventMaxStart(m, start, batch[..|batch| - 1]);
    }
  }

  lemma InsertIssued(events: Events, batch: seq<LogEvent>, c: HLC)
    requires EventsIssued(events, c)
    requires forall e :: e in batch ==> After(e.hlc, ZERO) && e.hlc.ctr >= 0
    ensures c.ctr >= 0 ==> ClockAfterEvents(c, batch).ctr >= 0
    ensures EventsIssued(InsertAll(events, batch), ClockAfterEvents(c, batch))
  {
    InsertAllAdds(events, batch);
    EventMaxIsMax(ZERO, batch);
    var out := InsertAll(events, batch);
    forall k | k in out ensures EventKeyOf(out[k]) == k && Issued(out[k].hlc, ClockAfterEvents(c, batch)) {
      assert k in events || (out[k] in batch && EventKeyOf(out[k]) == k);
    }
  }

  lemma SetMarkIssued(marks: Marks, peer: Str, h: HLC, c: HLC)
    requires MarksIssued(marks, c) && !After(h, c)
    ensures MarksIssued(SetMark(marks, peer, Event, h), c)
  {
    forall p, kind ensures var m := Mark(SetMark(marks, peer, Event, h), p, kind);
                           !After(ZERO, m) && !After(m, c)
    {
      assert !After(ZERO, Mark(marks, p, kind)) && !After(Mark(marks, p, kind), c);
    }
  }

  lemma EventsTakenDominates(s: NodeState, rep: Reply, k: HLC)
    requires NodeDominates(s) && ReplyIssued(rep, k)
    requires !After(rep.call.req.evMark, Mark(s.tables.marks, rep.call.server, Event))
    ensures NodeDominates(EventsTaken(s, rep)) && !After(s.clock, EventsTaken(s, rep).clock)
  {
    var h := EventMax(rep.call.req.evMark, rep.resp.events);
    var k' := ClockAfterEvents(s.clock, rep.resp.events);
    var m := Mark(s.tables.marks, rep.call.server, Event);
    InsertIssued(s.tables.events, rep.resp.events, s.clock);
    assert !After(ZERO, m) && !After(m, s.clock);
    EventMaxStart(m, rep.call.req.evMark, rep.resp.events);
    MarksIssuedLater(s.tables.marks, s.clock, k');
    RowsIssuedLater(s.tables.rows, s.clock, k');
    HistoryIssuedLater(s, EventsTaken(s, rep));
    if rep.resp.events != [] {
      SetMarkIssued(s.tables.marks, rep.call.server, h, k');
    }
  }

  lemma TakeEventsKeepsClockInv(c: State, step: Step)
    requires ClockInv(c) && step.TakeEvents? && Enabled(c, step)
    ensures ClockInv(Do(c, step)) && NodeMoved(c, Do(c, step), step.reply.call.client)
  {
    var rep, c' := step.reply, Do(c, step);
    var a := rep.call.client;
    DominatedReply(c, rep);
    DominatedNode(c, a);
    EventsTakenDominates(c.nodes[a], rep, c.nodes[rep.call.server].clock);
    forall p, kind ensures !After(Mark(c.nodes[a].tables.marks, p, kind), Mark(c'.nodes[a].tables.marks, p, kind))
        && (p in c'.nodes ==> !After(Mark(c'.nodes[a].tables.marks, p, kind), c'.nodes[p].clock))
    {
      MarkAfterEvents(c, rep, p, kind);
      ReplyMaxima(c, rep, kind);
      assert p in c.nodes ==> !After(Mark(c.nodes[a].tables.marks, p, kind), c.nodes[p].clock);
    }
    NodeMoveKeepsClockInv(c, c', a);
  }

  /** Every step keeps clock dominance. */
  lemma StepKeepsClockInv(c: State, step: Step)
    requires ClockInv(c) && Enabled(c, step)
    ensures ClockInv(Do(c, step))
  {
    match step
    case Local(_, _, _, _) => LocalKeepsClockInv(c, step);
    case Ask(_) => AskKeepsClockInv(c, step);
    case Serve(_) => ServeKeepsClockInv(c, step);
    case TakeRows(_) => TakeRowsKeepsClockInv(c, step);
    case TakeEvents(_) => TakeEventsKeepsClockInv(c, step);
    case Lose(_) =>
  }
}
