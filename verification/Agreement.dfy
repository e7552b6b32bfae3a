/** When a converged cluster holds one table. Pruning writes a tombstone under another
    node's owner, so two nodes may write different rows with one stamp; this is the
    only thing that keeps converged nodes apart. */
module Agreement {
  import opened Text
  import opened Hlc
  import opened Model
  import opened Merge
  import opened Cluster
  import opened Dominance
  import opened Stamps
  import opened Runs
  import opened Convergence

  // ------------------------------------------------------------ own writes stand

  /** w itself is stored, or a strictly newer row is. */
  predicate Stands(rows: Rows, w: Row) {
    KeyOf(w) in rows && (rows[KeyOf(w)] == w || Newer(rows[KeyOf(w)], w))
  }

  /** A node never gives up a row of its own for another of the same stamp. */
  ghost predicate OwnStand(s: NodeState) {
    forall w :: w in s.writes ==> Stands(s.tables.rows, w)
  }

  lemma {:induction false} JoinKeepsStanding(rows: Rows, batch: seq<Row>, w: Row)
    requires Stands(rows, w)
    ensures Stands(JoinBatch(rows, batch), w)
  {
    if batch != [] {
      var init, last := batch[..|batch| - 1], batch[|batch| - 1];
      JoinKeepsStanding(rows, init, w);
      var joined := JoinBatch(rows, init);
      if KeyOf(last) == KeyOf(w) && Newer(last, joined[KeyOf(w)]) && joined[KeyOf(w)] != w {
        NewerTransitive(last, joined[KeyOf(w)], w);
      }
    }
  }

  lemma LocalKeepsStanding(s: NodeState, node: Str, now: int, op: RowOp, emission: Emission)
    requires NodeDominates(s) && OpAllowed(s, node, op) && OwnStand(s)
    requires NothingRemoved(s.tables.rows, op, TickFrom(s.clock, now))
    ensures OwnStand(LocalNode(s, node, now, op, emission))
  {
    var h := TickFrom(s.clock, now);
    var d := Delta(s.tables.rows, op, h);
    DeltaStamped(s, node, op, h);
    KeptRows(s.tables.rows, op, h);
    var s' := LocalNode(s, node, now, op, emission);
    forall w | w in s'.writes ensures Stands(s'.tables.rows, w) {
      if w in s.writes {
        assert Stands(s.tables.rows, w);
      } else {
        assert d[KeyOf(w)] == w;
      }
    }
  }

  lemma StepKeepsStanding(c: State, step: Step, n: Str)
    requires n in c.nodes && NodeDominates(c.nodes[n]) && Enabled(c, step) && !Removes(c, step) && OwnStand(c.nodes[n])
    ensures OwnStand(Do(c, step).nodes[n])
  {
    if step.Local? && step.node == n {
      LocalKeepsStanding(c.nodes[n], n, step.now, step.op, step.emission);
    } else if step.TakeRows? && step.reply.call.client == n {
      forall w | w in c.nodes[n].writes ensures Stands(Do(c, step).nodes[n].tables.rows, w) {
        JoinKeepsStanding(c.nodes[n].tables.rows, step.reply.resp.rows, w);
      }
    }
  }

  lemma {:induction false} ReachableStanding(states: seq<State>, steps: seq<Step>, i: nat, n: Str)
    requires IsRun(states, steps) && Init(states[0]) && NothingCollected(states, steps) && i < |states| && n in states[i].nodes
    ensures OwnStand(states[i].nodes[n])
  {
    if i > 0 {
      assert StepAt(states, steps, i - 1);
      ReachableClock(states, steps, i - 1);
      ReachableStanding(states, steps, i - 1, n);
      DominatedNode(states[i - 1], n);
      StepKeepsStanding(states[i - 1], steps[i - 1], n);
    }
  }

  // ------------------------------------------------------------ ties

  /** Nothing newer was ever written to w's key. */
  ghost predicate Top(c: State, w: Row) {
    Written(c, w) && forall v :: Written(c, v) && KeyOf(v) == KeyOf(w) ==> !Newer(v, w)
  }

  /** No key has two different top rows. */
  ghost predicate NoTie(c: State) {
    forall v, w :: Top(c, v) && Top(c, w) && KeyOf(v) == KeyOf(w) ==> v == w
  }

  ghost predicate OneTable(c: State) {
    forall m, n :: m in c.nodes && n in c.nodes ==> c.nodes[m].tables.rows == c.nodes[n].tables.rows
  }

  lemma ConvergedRowIsTop(c: State, n: Str, k: RowKey)
    requires Converged(c) && n in c.nodes && k in c.nodes[n].tables.rows
    requires KeyOf(c.nodes[n].tables.rows[k]) == k && Written(c, c.nodes[n].tables.rows[k])
    ensures Top(c, c.nodes[n].tables.rows[k])
  {
    forall v | Written(c, v) && KeyOf(v) == k ensures !Newer(v, c.nodes[n].tables.rows[k]) {
      assert Covers(c.nodes[n].tables.rows, v);
    }
  }

  lemma TopRowIsHeldByItsWriter(c: State, n: Str, w: Row)
    requires OriginInv(c) && n in c.nodes && OwnStand(c.nodes[n]) && w in c.nodes[n].writes && Top(c, w)
    requires WellKeyed(c.nodes[n].tables.rows)
    ensures Holds(c.nodes[n].tables.rows, w)
  {
    assert Stands(c.nodes[n].tables.rows, w);
    assert Written(c, c.nodes[n].tables.rows[KeyOf(w)]);
  }

  lemma NoTieMakesOneTable(c: State, m: Str, n: Str)
    requires ClockInv(c) && OriginInv(c) && Converged(c) && NoTie(c) && m in c.nodes && n in c.nodes
    ensures c.nodes[m].tables.rows == c.nodes[n].tables.rows
  {
    DominatedNode(c, m);
    DominatedNode(c, n);
    ConvergedStampsAgree(c, m, n);
    var rm, rn := c.nodes[m].tables.rows, c.nodes[n].tables.rows;
    forall k | k in rm ensures rm[k] == rn[k] {
      ConvergedRowIsTop(c, m, k);
      ConvergedRowIsTop(c, n, k);
    }
  }

  lemma OneTableMakesNoTie(c: State)
    requires ClockInv(c) && OriginInv(c) && OneTable(c)
    requires forall n :: n in c.nodes ==> OwnStand(c.nodes[n])
    ensures NoTie(c)
  {
    forall v, w | Top(c, v) && Top(c, w) && KeyOf(v) == KeyOf(w) ensures v == w {
      var m :| m in c.nodes && v in c.nodes[m].writes;
      var n :| n in c.nodes && w in c.nodes[n].writes;
      DominatedNode(c, m);
      DominatedNode(c, n);
      TopRowIsHeldByItsWriter(c, m, v);
      TopRowIsHeldByItsWriter(c, n, w);
    }
  }

  // ------------------------------------------------------------ ties are settled early

  lemma {:induction false} QuietWritten(states: seq<State>, steps: seq<Step>, t: nat, i: nat, w: Row)
    requires IsRun(states, steps) && RowQuiet(states, steps, t) && t <= i < |states|
    ensures Written(states[i], w) <==> Written(states[t], w)
    decreases i
  {
    if t < i {
      QuietWritten(states, steps, t, i - 1, w);
      assert StepAt(states, steps, i - 1);
      if Written(states[i - 1], w) {
        WrittenStays(states[i - 1], steps[i - 1], w);
      } else if Written(states[i], w) {
        WrittenBefore(states[i - 1], steps[i - 1], w);
      }
    }
  }

  lemma SameWritesSameTops(c: State, d: State)
    requires forall w :: Written(c, w) <==> Written(d, w)
    ensures forall w :: Top(c, w) <==> Top(d, w)
  {
    forall w ensures Top(c, w) <==> Top(d, w) {
      assert Written(c, w) <==> Written(d, w);
    }
  }

  /** Whether there is a tie is decided by the last write. */
  lemma QuietTies(states: seq<State>, steps: seq<Step>, t: nat, i: nat)
    requires IsRun(states, steps) && RowQuiet(states, steps, t) && t <= i < |states|
    ensures NoTie(states[i]) <==> NoTie(states[t])
  {
    forall w ensures Written(states[i], w) <==> Written(states[t], w) {
      QuietWritten(states, steps, t, i, w);
    }
    SameWritesSameTops(states[i], states[t]);
  }

  /** Exact convergence, pruning included: after the last write and a full mesh of pulls
      all nodes hold one table if and only if, already at the last write, no key's greatest
      stamp had been written with two contents. */
  lemma OneTableExactlyWithoutTies(states: seq<State>, steps: seq<Step>, t: nat)
    requires IsRun(states, steps) && Init(states[0]) && NothingCollected(states, steps)
    requires t <= |steps| && RowQuiet(states, steps, t) && FullMesh(steps, t, states[0].nodes.Keys)
    ensures OneTable(states[|steps|]) <==> NoTie(states[t])
  {
    QuietTies(states, steps, t, |steps|);
    LastTablesAgreeExactly(states, steps, t);
  }

  lemma LastTablesAgreeExactly(states: seq<State>, steps: seq<Step>, t: nat)
    requires IsRun(states, steps) && Init(states[0]) && NothingCollected(states, steps)
    requires t <= |steps| && RowQuiet(states, steps, t) && FullMesh(steps, t, states[0].nodes.Keys)
    ensures OneTable(states[|steps|]) <==> NoTie(states[|steps|])
  {
    var last := states[|steps|];
    ReachableClock(states, steps, |steps|);
    ReachableOrigin(states, steps, |steps|);
    if NoTie(last) {
      MeshCoversAll(states, steps, t);
      forall m, n | m in last.nodes && n in last.nodes ensures last.nodes[m].tables.rows == last.nodes[n].tables.rows {
        NoTieMakesOneTable(last, m, n);
      }
    }
    if OneTable(last) {
      forall n | n in last.nodes ensures OwnStand(last.nodes[n]) {
        ReachableStanding(states, steps, |steps|, n);
      }
      OneTableMakesNoTie(last);
    }
  }
}
