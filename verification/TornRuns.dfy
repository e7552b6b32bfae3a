/** What holds over every run of split steps: exactly which of them make a row go back. */
module TornRuns {
  import opened Text
  import opened Hlc
  import opened Model
  import opened Merge
  import opened Storage
  import opened Sync
  import opened Cluster
  import opened Torn

  /** The replies that node n has merged and not yet shown to its clock. */
  ghost function Pending(t: TornState, n: Str): set<Reply> {
    set rep | rep in t.merged && rep.call.client == n
  }

  /** r is at or below the clock, or a pending reply brought it. */
  ghost predicate Below(r: Row, clock: HLC, pending: set<Reply>) {
    !After(r.hlc, clock) || Brought(r, pending)
  }

  ghost predicate Brought(r: Row, pending: set<Reply>) {
    exists rep :: rep in pending && r in rep.resp.rows
  }

  ghost predicate NodeBelow(s: NodeState, pending: set<Reply>) {
    && !After(ZERO, s.clock)
    && forall k :: k in s.tables.rows ==> KeyOf(s.tables.rows[k]) == k && Below(s.tables.rows[k], s.clock, pending)
  }

  /** Every stored row, and every tick whose write is still to come, is at or below the
      clock, except for what pending replies brought. */
  ghost predicate TornClockInv(t: TornState) {
    && (forall n :: n in t.c.nodes ==> NodeBelow(t.c.nodes[n], Pending(t, n)))
    && (forall n, h :: (n, h) in t.ticks && n in t.c.nodes ==> !After(h, t.c.nodes[n].clock))
  }

  // ------------------------------------------------------------ node by node

  lemma BelowLater(r: Row, clock: HLC, pending: set<Reply>, clock': HLC, pending': set<Reply>)
    requires Below(r, clock, pending) && !After(clock, clock')
    requires forall rep :: rep in pending && rep !in pending' ==> !After(RowsMax(rep.resp.rows), clock')
    ensures Below(r, clock', pending')
  {
    if After(r.hlc, clock') {
      var rep :| rep in pending && r in rep.resp.rows;
      RowsMaxIsMax(rep.resp.rows);
      assert rep in pending';
    }
  }

  lemma NodeBelowLater(s: NodeState, pending: set<Reply>, s': NodeState, pending': set<Reply>)
    requires NodeBelow(s, pending) && s'.tables.rows == s.tables.rows && !After(s.clock, s'.clock)
    requires forall rep :: rep in pending && rep !in pending' ==> !After(RowsMax(rep.resp.rows), s'.clock)
    ensures NodeBelow(s', pending')
  {
    forall k | k in s'.tables.rows ensures Below(s'.tables.rows[k], s'.clock, pending') {
      BelowLater(s.tables.rows[k], s.clock, pending, s'.clock, pending');
    }
  }

  /** A write stamped h keeps the node below a clock that has reached h. */
  lemma WriteBelow(s: NodeState, pending: set<Reply>, op: RowOp, h: HLC, s': NodeState)
    requires NodeBelow(s, pending) && !After(s.clock, s'.clock) && !After(h, s'.clock)
    requires s'.tables.rows == RowsAfter(s.tables.rows, op, h)
    ensures NodeBelow(s', pending)
  {
    DeltaCarries(s.tables.rows, op, h);
    forall k | k in s'.tables.rows ensures KeyOf(s'.tables.rows[k]) == k && Below(s'.tables.rows[k], s'.clock, pending) {
      if k in s.tables.rows && s'.tables.rows[k] == s.tables.rows[k] {
        BelowLater(s.tables.rows[k], s.clock, pending, s'.clock, pending);
      }
    }
  }

  /** A merge brings only rows of its reply. */
  lemma MergeBelow(s: NodeState, pending: set<Reply>, rep: Reply, s': NodeState, pending': set<Reply>)
    requires NodeBelow(s, pending) && s'.tables.rows == JoinBatch(s.tables.rows, rep.resp.rows)
    requires !After(s.clock, s'.clock) && pending <= pending'
    requires rep in pending' || !After(RowsMax(rep.resp.rows), s'.clock)
    ensures NodeBelow(s', pending')
  {
    JoinBatchIsJoin(s.tables.rows, rep.resp.rows);
    RowsMaxIsMax(rep.resp.rows);
    forall k | k in s'.tables.rows ensures KeyOf(s'.tables.rows[k]) == k && Below(s'.tables.rows[k], s'.clock, pending') {
      if k in s.tables.rows && s'.tables.rows[k] == s.tables.rows[k] {
        BelowLater(s.tables.rows[k], s.clock, pending, s'.clock, pending');
      } else {
        assert s'.tables.rows[k] in rep.resp.rows;
      }
    }
  }

  // ------------------------------------------------------------ step by step

  lemma WholeKeepsBelow(t: TornState, step: Step, n: Str)
    requires TornClockInv(t) && Enabled(t.c, step) && n in t.c.nodes
    ensures NodeBelow(Do(t.c, step).nodes[n], Pending(t, n))
    ensures !After(t.c.nodes[n].clock, Do(t.c, step).nodes[n].clock)
  {
    var s, s', pending := t.c.nodes[n], Do(t.c, step).nodes[n], Pending(t, n);
    if step.Local? && step.node == n {
      WriteBelow(s, pending, step.op, TickFrom(s.clock, step.now), s');
    } else if step.TakeRows? && step.reply.call.client == n {
      ShownReaches(s.clock, step.reply.resp.rows);
      MergeBelow(s, pending, step.reply, s', pending);
    } else {
      NodeBelowLater(s, pending, s', pending);
    }
  }

  lemma HalfKeepsBelow(t: TornState, step: TornStep, n: Str)
    requires TornClockInv(t) && TornEnabled(t, step) && !step.Whole? && n in t.c.nodes
    ensures var t' := TornDo(t, step);
            NodeBelow(t'.c.nodes[n], Pending(t', n)) && !After(t.c.nodes[n].clock, t'.c.nodes[n].clock)
  {
    var t' := TornDo(t, step);
    var s, s' := t.c.nodes[n], t'.c.nodes[n];
    if step.MergeRows? && step.reply.call.client == n {
      MergeBelow(s, Pending(t, n), step.reply, s', Pending(t', n));
    } else if step.ShowClock? && step.reply.call.client == n {
      ShownReaches(s.clock, step.reply.resp.rows);
      NodeBelowLater(s, Pending(t, n), s', Pending(t', n));
    } else if step.WriteLate? && step.node == n {
      assert Pending(t', n) == Pending(t, n);
      WriteBelow(s, Pending(t, n), step.op, step.h, s');
    } else {
      assert Pending(t', n) == Pending(t, n);
      NodeBelowLater(s, Pending(t, n), s', Pending(t', n));
    }
  }

  lemma ShownReaches(clock: HLC, rows: seq<Row>)
    requires !After(ZERO, clock)
    ensures !After(clock, ClockAfterRows(clock, rows)) && !After(RowsMax(rows), ClockAfterRows(clock, rows))
  {
  }

  lemma StepKeepsTornClock(t: TornState, step: TornStep)
    requires TornClockInv(t) && TornEnabled(t, step)
    ensures TornClockInv(TornDo(t, step))
  {
    var t' := TornDo(t, step);
    forall n | n in t'.c.nodes ensures NodeBelow(t'.c.nodes[n], Pending(t', n)) && !After(t.c.nodes[n].clock, t'.c.nodes[n].clock) {
      if step.Whole? {
        WholeKeepsBelow(t, step.step, n);
        assert Pending(t', n) == Pending(t, n);
      } else {
        HalfKeepsBelow(t, step, n);
      }
    }
  }

  lemma {:induction false} ReachableTornClock(states: seq<TornState>, steps: seq<TornStep>, i: nat)
    requires IsTornRun(states, steps) && TornInit(states[0]) && i < |states|
    ensures TornClockInv(states[i])
  {
    if i > 0 {
      ReachableTornClock(states, steps, i - 1);
      assert TornStepAt(states, steps, i - 1);
      StepKeepsTornClock(states[i - 1], steps[i - 1]);
    }
  }

  // ------------------------------------------------------------ what loses a row

  /** A row beats a write stamped h under the owner. */
  predicate Above(r: Row, h: HLC, owner: Str) {
    After(r.hlc, h) || (r.hlc == h && Less(owner, r.owner))
  }

  /** A write made and stamped now replaces a row that a pending reply brought and that
      outruns it. */
  ghost predicate OverrunNow(t: TornState, n: Str, now: int, op: RowOp, k: RowKey)
    requires n in t.c.nodes
  {
    var s := t.c.nodes[n];
    var d := Delta(s.tables.rows, op, TickFrom(s.clock, now));
    && k in d && k in s.tables.rows && Brought(s.tables.rows[k], Pending(t, n))
    && Outruns(s.tables.rows[k], s.clock, now, d[k].owner)
  }

  /** A late write replaces a row that beats it. */
  ghost predicate OverrunLate(s: NodeState, op: RowOp, h: HLC, k: RowKey) {
    var d := Delta(s.tables.rows, op, h);
    k in d && k in s.tables.rows && Above(s.tables.rows[k], h, d[k].owner)
  }

  /** The steps that lose a row of node n. */
  ghost predicate Loses(t: TornState, step: TornStep, n: Str)
    requires n in t.c.nodes
  {
    var s := t.c.nodes[n];
    match step
    case Whole(Local(m, now, op, _)) =>
      m == n && (!NothingRemoved(s.tables.rows, op, TickFrom(s.clock, now)) || exists k :: OverrunNow(t, n, now, op, k))
    case WriteLate(m, op, h) =>
      m == n && (!NothingRemoved(s.tables.rows, op, h) || exists k :: OverrunLate(s, op, h, k))
    case _ => false
  }

  /** Removing rows loses them. */
  lemma RemovalLoses(rows: Rows, keys: set<RowKey>, k: RowKey)
    requires WellKeyed(rows) && k in keys && k in rows
    ensures !KeepsAll(rows, rows - keys)
  {
    AtLeastReflexive(rows[k]);
    assert Covers(rows, rows[k]) && !Covers(rows - keys, rows[k]);
  }

  /** Any row operation, stamped h: it keeps everything if and only if it removes nothing
      and no row it replaces beats it. */
  lemma OpKeepsExactly(rows: Rows, op: RowOp, h: HLC)
    requires WellKeyed(rows)
    ensures var d := Delta(rows, op, h);
            KeepsAll(rows, RowsAfter(rows, op, h))
            <==> NothingRemoved(rows, op, h) && forall k :: k in d && k in rows ==> !Above(rows[k], h, d[k].owner)
  {
    var d := Delta(rows, op, h);
    DeltaCarries(rows, op, h);
    if NothingRemoved(rows, op, h) {
      KeptRows(rows, op, h);
      OverwriteKeepsExactly(rows, d);
    } else {
      var k :| k in GcKeys(rows, GcLimit(h));
      RemovalLoses(rows, GcKeys(rows, GcLimit(h)), k);
    }
  }

  /** For a write stamped now, only what pending replies brought can beat it. */
  lemma OverrunNowExactly(t: TornState, n: Str, now: int, op: RowOp, k: RowKey)
    requires n in t.c.nodes && NodeBelow(t.c.nodes[n], Pending(t, n))
    ensures var s := t.c.nodes[n];
            var h := TickFrom(s.clock, now);
            OverrunNow(t, n, now, op, k) <==> OverrunLate(s, op, h, k)
  {
    var s := t.c.nodes[n];
    var d := Delta(s.tables.rows, op, TickFrom(s.clock, now));
    DeltaCarries(s.tables.rows, op, TickFrom(s.clock, now));
    if k in d && k in s.tables.rows {
      OutrunsIsNewer(s.tables.rows[k], s.clock, now, d[k]);
      assert Below(s.tables.rows[k], s.clock, Pending(t, n));
    }
  }

  lemma WriteNowKeepsExactly(t: TornState, n: Str, now: int, op: RowOp)
    requires n in t.c.nodes && NodeBelow(t.c.nodes[n], Pending(t, n))
    ensures var s := t.c.nodes[n];
            var h := TickFrom(s.clock, now);
            KeepsAll(s.tables.rows, RowsAfter(s.tables.rows, op, h))
            <==> NothingRemoved(s.tables.rows, op, h) && forall k :: !OverrunNow(t, n, now, op, k)
  {
    var s := t.c.nodes[n];
    var h := TickFrom(s.clock, now);
    OpKeepsExactly(s.tables.rows, op, h);
    forall k ensures OverrunNow(t, n, now, op, k) <==> OverrunLate(s, op, h, k) {
      OverrunNowExactly(t, n, now, op, k);
    }
    assert (forall k :: !OverrunNow(t, n, now, op, k)) <==> (forall k :: !OverrunLate(s, op, h, k));
    OverrunLateAll(s, op, h);
  }

  lemma OverrunLateAll(s: NodeState, op: RowOp, h: HLC)
    ensures var d := Delta(s.tables.rows, op, h);
            (forall k :: !OverrunLate(s, op, h, k))
            <==> forall k :: k in d && k in s.tables.rows ==> !Above(s.tables.rows[k], h, d[k].owner)
  {
    var d := Delta(s.tables.rows, op, h);
    if forall k :: !OverrunLate(s, op, h, k) {
      forall k | k in d && k in s.tables.rows ensures !Above(s.tables.rows[k], h, d[k].owner) {
        assert !OverrunLate(s, op, h, k);
      }
    }
  }

  lemma WriteLateKeepsExactly(s: NodeState, op: RowOp, h: HLC)
    requires WellKeyed(s.tables.rows)
    ensures KeepsAll(s.tables.rows, RowsAfter(s.tables.rows, op, h))
            <==> NothingRemoved(s.tables.rows, op, h) && forall k :: !OverrunLate(s, op, h, k)
  {
    OpKeepsExactly(s.tables.rows, op, h);
    OverrunLateAll(s, op, h);
  }

  lemma MergeKeepsAll(rows: Rows, batch: seq<Row>)
    ensures KeepsAll(rows, JoinBatch(rows, batch))
  {
    forall v | Covers(rows, v) ensures Covers(JoinBatch(rows, batch), v) {
      JoinKeepsCover(rows, batch, v);
    }
  }

  lemma StepKeepsExactly(t: TornState, step: TornStep, n: Str)
    requires TornClockInv(t) && TornEnabled(t, step) && n in t.c.nodes
    ensures KeepsAll(t.c.nodes[n].tables.rows, TornDo(t, step).c.nodes[n].tables.rows) <==> !Loses(t, step, n)
  {
    var s := t.c.nodes[n];
    match step
    case Whole(Local(m, now, op, _)) =>
      if m == n {
        WriteNowKeepsExactly(t, n, now, op);
      }
    case Whole(TakeRows(rep)) => MergeKeepsAll(s.tables.rows, rep.resp.rows);
    case MergeRows(rep) => MergeKeepsAll(s.tables.rows, rep.resp.rows);
    case WriteLate(m, op, h) =>
      if m == n {
        assert NodeBelow(s, Pending(t, n));
        WriteLateKeepsExactly(s, op, h);
      }
    case _ =>
  }

  /** Exactly when a row goes back, in every run of split steps, however they interleave: a
      step loses something node n covered if and only if it is a collection that removes a
      row, or a write of n's that replaces a row which a reply, merged and not yet shown to
      the clock, brought and which outruns clock and wall, or a late write that replaces a
      row above its stamp. */
  lemma RowsGoBackExactly(states: seq<TornState>, steps: seq<TornStep>, i: nat, n: Str)
    requires IsTornRun(states, steps) && TornInit(states[0]) && i < |steps| && n in states[i].c.nodes
    ensures n in states[i + 1].c.nodes
    ensures KeepsAll(states[i].c.nodes[n].tables.rows, states[i + 1].c.nodes[n].tables.rows)
            <==> !Loses(states[i], steps[i], n)
  {
    assert TornStepAt(states, steps, i);
    ReachableTornClock(states, steps, i);
    StepKeepsExactly(states[i], steps[i], n);
  }

  /** So over any stretch of such a run without those steps nothing is lost. */
  lemma {:induction false} OnlyHalvesLose(states: seq<TornState>, steps: seq<TornStep>, i: nat, j: nat, n: Str, v: Row)
    requires IsTornRun(states, steps) && TornInit(states[0]) && i <= j < |states|
    requires n in states[i].c.nodes && Covers(states[i].c.nodes[n].tables.rows, v)
    requires forall m :: i <= m < j && n in states[m].c.nodes ==> !Loses(states[m], steps[m], n)
    ensures n in states[j].c.nodes && Covers(states[j].c.nodes[n].tables.rows, v)
    decreases j
  {
    if i < j {
      OnlyHalvesLose(states, steps, i, j - 1, n, v);
      RowsGoBackExactly(states, steps, j - 1, n);
    }
  }

  /** Locks over the two pairs are enough: a write of n's while n has no unfinished merge
      and that is not late loses nothing. */
  lemma LockedWritesLoseNothing(t: TornState, step: Step, n: Str)
    requires n in t.c.nodes && Pending(t, n) == {} && !Removes(t.c, step)
    ensures !Loses(t, Whole(step), n)
  {
  }
}
