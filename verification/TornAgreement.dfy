/** One table at the end of split runs: ticks stay unique per node although their writes
    come late, so without pruning a stamp still names one row. */
module TornAgreement {
  import opened Text
  import opened Hlc
  import opened Model
  import opened Merge
  import opened Cluster
  import opened Stamps
  import opened Coverage
  import opened Convergence
  import opened Torn
  import opened TornRuns
  import opened TornCoverage

  // ------------------------------------------------------------ origins

  /** A merge brings only rows that were written, a late write brings its own. */
  lemma HalfKeepsOrigin(t: TornState, step: TornStep)
    requires OriginInv(t.c) && TornEnabled(t, step) && !step.Whole?
    ensures OriginInv(TornDo(t, step).c)
  {
    var c, c' := t.c, TornDo(t, step).c;
    forall r | Written(c, r) ensures Written(c', r) {
      var n :| n in c.nodes && r in c.nodes[n].writes;
      assert r in c'.nodes[n].writes;
    }
    forall n, k | n in c'.nodes && k in c'.nodes[n].tables.rows ensures Written(c', c'.nodes[n].tables.rows[k]) {
      HalfRowOrigin(t, step, n, k);
    }
  }

  lemma HalfRowOrigin(t: TornState, step: TornStep, n: Str, k: RowKey)
    requires OriginInv(t.c) && TornEnabled(t, step) && !step.Whole? && n in t.c.nodes
    requires k in TornDo(t, step).c.nodes[n].tables.rows
    ensures var r := TornDo(t, step).c.nodes[n].tables.rows[k];
            Written(t.c, r) || Written(TornDo(t, step).c, r)
  {
    var rows, s' := t.c.nodes[n].tables.rows, TornDo(t, step).c.nodes[n];
    if k in rows && s'.tables.rows[k] == rows[k] {
    } else if step.WriteLate? {
      var d := Delta(rows, step.op, step.h);
      assert k in d && s'.tables.rows[k] == d[k];
      assert s'.tables.rows[k] in s'.writes;
    } else {
      JoinBatchIsJoin(rows, step.reply.resp.rows);
      assert s'.tables.rows[k] in step.reply.resp.rows;
    }
  }

  lemma {:induction false} ReachableTornOrigin(states: seq<TornState>, steps: seq<TornStep>, i: nat)
    requires IsTornRun(states, steps) && TornInit(states[0]) && i < |states|
    ensures OriginInv(states[i].c)
  {
    if i > 0 {
      ReachableTornOrigin(states, steps, i - 1);
      assert TornStepAt(states, steps, i - 1);
      if steps[i - 1].Whole? {
        StepKeepsOriginInv(states[i - 1].c, steps[i - 1].step);
      } else {
        HalfKeepsOrigin(states[i - 1], steps[i - 1]);
      }
    }
  }

  // ------------------------------------------------------------ ticks

  predicate IsTornPrune(step: TornStep) {
    match step
    case Whole(s) => IsPrune(s)
    case WriteLate(_, op, _) => op.PruneOp?
    case _ => false
  }

  /** A node's rows carry its own owners and one tick each, all at or below its clock, and
      no tick still to be used has been used. */
  ghost predicate TicksUnique(t: TornState, n: Str)
    requires n in t.c.nodes
  {
    var s := t.c.nodes[n];
    && OwnStamps(s, n)
    && (forall w :: w in s.writes ==> !After(w.hlc, s.clock))
    && (forall h :: (n, h) in t.ticks ==> !After(h, s.clock))
    && (forall h, w :: (n, h) in t.ticks && w in s.writes ==> w.hlc != h)
  }

  ghost predicate TicksInv(t: TornState) {
    OwnersDisjoint(t.c) && forall n :: n in t.c.nodes ==> TicksUnique(t, n)
  }

  lemma LocalKeepsTicks(t: TornState, step: TornStep, n: Str)
    requires n in t.c.nodes && TicksUnique(t, n) && TornEnabled(t, step) && !IsTornPrune(step)
    requires step.Whole? && step.step.Local? && step.step.node == n
    ensures TicksUnique(TornDo(t, step), n)
  {
    var s := t.c.nodes[n];
    NewTickKeepsOwnStamps(s, n, step.step.op, TickFrom(s.clock, step.step.now));
  }

  lemma LateKeepsTicks(t: TornState, step: TornStep, n: Str)
    requires n in t.c.nodes && TicksUnique(t, n) && TornEnabled(t, step) && !IsTornPrune(step)
    requires step.WriteLate? && step.node == n
    ensures TicksUnique(TornDo(t, step), n)
  {
    NewTickKeepsOwnStamps(t.c.nodes[n], n, step.op, step.h);
  }

  lemma OtherKeepsTicks(t: TornState, step: TornStep, n: Str)
    requires n in t.c.nodes && TicksUnique(t, n) && TornEnabled(t, step)
    requires !(step.Whole? && step.step.Local? && step.step.node == n) && !(step.WriteLate? && step.node == n)
    requires !After(t.c.nodes[n].clock, TornDo(t, step).c.nodes[n].clock)
    ensures TicksUnique(TornDo(t, step), n)
  {
    var s, s' := t.c.nodes[n], TornDo(t, step).c.nodes[n];
    assert s'.writes == s.writes && s'.epoch == s.epoch;
  }

  lemma NodeKeepsTicks(t: TornState, step: TornStep, n: Str)
    requires TornClockInv(t) && n in t.c.nodes && TicksUnique(t, n) && TornEnabled(t, step) && !IsTornPrune(step)
    ensures TicksUnique(TornDo(t, step), n)
  {
    TornClockMoves(t, step, n);
    if step.Whole? && step.step.Local? && step.step.node == n {
      LocalKeepsTicks(t, step, n);
    } else if step.WriteLate? && step.node == n {
      LateKeepsTicks(t, step, n);
    } else {
      OtherKeepsTicks(t, step, n);
    }
  }

  lemma EpochFixed(t: TornState, step: TornStep, n: Str)
    requires TornEnabled(t, step) && n in t.c.nodes
    ensures TornDo(t, step).c.nodes.Keys == t.c.nodes.Keys && TornDo(t, step).c.nodes[n].epoch == t.c.nodes[n].epoch
  {
  }

  lemma OwnersKept(t: TornState, step: TornStep, t': TornState)
    requires OwnersDisjoint(t.c) && TornEnabled(t, step) && t' == TornDo(t, step)
    ensures OwnersDisjoint(t'.c)
  {
    forall m, n | m in t'.c.nodes && n in t'.c.nodes && m != n
      ensures Owners(m, t'.c.nodes[m].epoch) !! Owners(n, t'.c.nodes[n].epoch)
    {
      EpochFixed(t, step, m);
      EpochFixed(t, step, n);
    }
  }

  lemma StepKeepsTicks(t: TornState, step: TornStep, t': TornState)
    requires TornClockInv(t) && TicksInv(t) && TornEnabled(t, step) && !IsTornPrune(step) && t' == TornDo(t, step)
    ensures TicksInv(t')
  {
    OwnersKept(t, step, t');
    forall n | n in t'.c.nodes ensures TicksUnique(t', n) {
      NodeKeepsTicks(t, step, n);
    }
  }

  ghost predicate NoTornPrune(steps: seq<TornStep>) {
    forall i :: 0 <= i < |steps| ==> !IsTornPrune(steps[i])
  }

  lemma {:induction false} ReachableTicks(states: seq<TornState>, steps: seq<TornStep>, i: nat)
    requires IsTornRun(states, steps) && TornInit(states[0]) && NoTornPrune(steps) && i < |states|
    ensures TicksInv(states[i])
  {
    if i > 0 {
      ReachableTicks(states, steps, i - 1);
      ReachableTornClock(states, steps, i - 1);
      assert TornStepAt(states, steps, i - 1);
      StepKeepsTicks(states[i - 1], steps[i - 1], states[i]);
    }
  }

  /** Stamp uniqueness in every split run without pruning. */
  lemma TornStampUniqueness(states: seq<TornState>, steps: seq<TornStep>, i: nat)
    requires IsTornRun(states, steps) && TornInit(states[0]) && NoTornPrune(steps) && i < |states|
    ensures StampUnique(states[i].c)
  {
    ReachableTicks(states, steps, i);
    forall n | n in states[i].c.nodes ensures OwnStamps(states[i].c.nodes[n], n) {
      assert TicksUnique(states[i], n);
    }
    OwnStampsMakeUnique(states[i].c);
  }

  // ------------------------------------------------------------ one table

  lemma ConvergedIsOneTable(c: State, m: Str, n: Str)
    requires Structured(c) && OriginInv(c) && StampUnique(c) && Converged(c) && m in c.nodes && n in c.nodes
    ensures c.nodes[m].tables.rows == c.nodes[n].tables.rows
    ensures forall k :: k in c.nodes[n].tables.rows ==> Greatest(c, c.nodes[n].tables.rows[k])
    ensures forall w :: Written(c, w) ==> KeyOf(w) in c.nodes[n].tables.rows
  {
    assert NodeStructured(c.nodes[m]) && NodeStructured(c.nodes[n]);
    ConvergedTablesEqual(c, m, n);
    ConvergedIsGreatest(c, n);
  }

  /** Strong convergence of split runs: if no step loses a row, every write is above what was
      heard of its node and nobody prunes, then, after the last write and a full mesh, all
      nodes hold one and the same table, with exactly the unique greatest row of each key. */
  lemma TornStrongConvergence(states: seq<TornState>, steps: seq<TornStep>, t: nat, m: Str, n: Str)
    requires IsTornRun(states, steps) && TornInit(states[0]) && DisciplinedRun(states, steps) && NoTornPrune(steps)
    requires t <= |steps| && TornQuiet(states, steps, t) && TornMesh(steps, t, states[0].c.nodes.Keys)
    requires m in states[|steps|].c.nodes && n in states[|steps|].c.nodes
    ensures var last := states[|steps|].c;
            && last.nodes[m].tables.rows == last.nodes[n].tables.rows
            && (forall k :: k in last.nodes[n].tables.rows ==> Greatest(last, last.nodes[n].tables.rows[k]))
            && (forall w :: Written(last, w) ==> KeyOf(w) in last.nodes[n].tables.rows)
  {
    DisciplinedRunsConverge(states, steps, t);
    ReachableStructured(states, steps, |steps|);
    ReachableTornOrigin(states, steps, |steps|);
    TornStampUniqueness(states, steps, |steps|);
    ConvergedIsOneTable(states[|steps|].c, m, n);
  }

  /** The same under locks over the two pairs. */
  lemma LockedStrongConvergence(states: seq<TornState>, steps: seq<TornStep>, t: nat, m: Str, n: Str)
    requires IsTornRun(states, steps) && TornInit(states[0]) && LockedRun(states, steps) && NoTornPrune(steps)
    requires t <= |steps| && TornQuiet(states, steps, t) && TornMesh(steps, t, states[0].c.nodes.Keys)
    requires m in states[|steps|].c.nodes && n in states[|steps|].c.nodes
    ensures var last := states[|steps|].c;
            && last.nodes[m].tables.rows == last.nodes[n].tables.rows
            && (forall k :: k in last.nodes[n].tables.rows ==> Greatest(last, last.nodes[n].tables.rows[k]))
            && (forall w :: Written(last, w) ==> KeyOf(w) in last.nodes[n].tables.rows)
  {
    LockedRunIsDisciplined(states, steps);
    TornStrongConvergence(states, steps, t, m, n);
  }
}
