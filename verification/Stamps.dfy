/** Where rows come from, and why a stamp names one row. */
module Stamps {
  import opened Text
  import opened Hlc
  import opened Model
  import opened Merge
  import opened Cluster
  import opened Dominance

  /** Some node wrote r itself. */
  ghost predicate Written(c: State, r: Row) {
    exists n :: n in c.nodes && r in c.nodes[n].writes
  }

  /** Every row stored or in flight was written by some node. */
  ghost predicate OriginInv(c: State) {
    && (forall n, k :: n in c.nodes && k in c.nodes[n].tables.rows ==> Written(c, c.nodes[n].tables.rows[k]))
    && (forall rep, r :: rep in c.replies && r in rep.resp.rows ==> Written(c, r))
  }

  lemma WrittenStays(c: State, step: Step, r: Row)
    requires Enabled(c, step) && Written(c, r)
    ensures Written(Do(c, step), r)
  {
    var n :| n in c.nodes && r in c.nodes[n].writes;
    assert n in Do(c, step).nodes && r in Do(c, step).nodes[n].writes;
  }

  /** Holds of every step, collection and pruning included. */
  lemma StepKeepsOriginInv(c: State, step: Step)
    requires OriginInv(c) && Enabled(c, step)
    ensures OriginInv(Do(c, step))
  {
    var c' := Do(c, step);
    forall n, k | n in c'.nodes && k in c'.nodes[n].tables.rows ensures Written(c', c'.nodes[n].tables.rows[k]) {
      RowOrigin(c, step, n, k);
    }
    forall rep, r | rep in c'.replies && r in rep.resp.rows ensures Written(c', r) {
      if rep in c.replies {
        WrittenStays(c, step, r);
      } else {
        assert Holds(c.nodes[rep.call.server].tables.rows, r);
        WrittenStays(c, step, c.nodes[rep.call.server].tables.rows[KeyOf(r)]);
      }
    }
  }

  lemma RowOrigin(c: State, step: Step, n: Str, k: RowKey)
    requires OriginInv(c) && Enabled(c, step)
    requires n in Do(c, step).nodes && k in Do(c, step).nodes[n].tables.rows
    ensures Written(Do(c, step), Do(c, step).nodes[n].tables.rows[k])
  {
    var c' := Do(c, step);
    var rows, rows' := c.nodes[n].tables.rows, c'.nodes[n].tables.rows;
    if k in rows && rows'[k] == rows[k] {
      WrittenStays(c, step, rows[k]);
    } else if step.Local? {
      var d := Delta(rows, step.op, TickFrom(c.nodes[n].clock, step.now));
      assert k in d && rows'[k] == d[k];
      assert rows'[k] in c'.nodes[n].writes;
    } else {
      JoinBatchIsJoin(rows, step.reply.resp.rows);
      WrittenStays(c, step, rows'[k]);
    }
  }

  // ------------------------------------------------------------ one row per stamp

  /** A node's own rows carry its own owners, and no two share a tick. */
  ghost predicate OwnStamps(s: NodeState, node: Str) {
    && (forall w :: w in s.writes ==> w.owner in Owners(node, s.epoch))
    && (forall v, w :: v in s.writes && w in s.writes && v.hlc == w.hlc ==> v == w)
  }

  ghost predicate OwnStampsInv(c: State) {
    && OwnersDisjoint(c)
    && forall n :: n in c.nodes ==> OwnStamps(c.nodes[n], n)
  }

  lemma StepKeepsOwnStamps(c: State, step: Step)
    requires ClockInv(c) && OwnStampsInv(c) && Enabled(c, step) && !IsPrune(step)
    ensures OwnStampsInv(Do(c, step))
  {
    var c' := Do(c, step);
    OwnersStayDisjoint(c, step);
    forall m | m in c'.nodes ensures OwnStamps(c'.nodes[m], m) {
      DominatedNode(c, m);
      NodeKeepsOwnStamps(c, step, m);
    }
  }

  lemma OwnersStayDisjoint(c: State, step: Step)
    requires OwnersDisjoint(c) && Enabled(c, step)
    ensures OwnersDisjoint(Do(c, step))
  {
    forall m | m in c.nodes ensures Do(c, step).nodes[m].epoch == c.nodes[m].epoch {
    }
  }

  lemma NodeKeepsOwnStamps(c: State, step: Step, m: Str)
    requires m in c.nodes && NodeDominates(c.nodes[m]) && OwnStamps(c.nodes[m], m) && Enabled(c, step) && !IsPrune(step)
    ensures OwnStamps(Do(c, step).nodes[m], m) && Do(c, step).nodes[m].epoch == c.nodes[m].epoch
  {
    if step.Local? && m == step.node {
      LocalKeepsOwnStamps(c.nodes[m], m, step.now, step.op, step.emission);
    }
  }

  lemma LocalKeepsOwnStamps(s: NodeState, n: Str, now: int, op: RowOp, emission: Emission)
    requires NodeDominates(s) && OwnStamps(s, n) && OpAllowed(s, n, op) && !op.PruneOp?
    ensures OwnStamps(LocalNode(s, n, now, op, emission), n)
  {
    NewTickKeepsOwnStamps(s, n, op, TickFrom(s.clock, now));
  }

  /** A write under a tick that the node has not used yet. */
  lemma NewTickKeepsOwnStamps(s: NodeState, n: Str, op: RowOp, h: HLC)
    requires OwnStamps(s, n) && OpAllowed(s, n, op) && !op.PruneOp? && forall w :: w in s.writes ==> w.hlc != h
    ensures OwnStamps(s.(writes := s.writes + Delta(s.tables.rows, op, h).Values), n)
    ensures forall w :: w in Delta(s.tables.rows, op, h).Values ==> w.hlc == h
  {
    var d := Delta(s.tables.rows, op, h);
    assert forall v, w :: v in d.Values && w in d.Values ==> v == w;
    assert forall w :: w in d.Values ==> w.hlc == h && w.owner in Owners(n, s.epoch);
  }

  /** Two rows anywhere with equal kind, key, stamp and owner are identical. */
  ghost predicate StampUnique(c: State) {
    forall v, w :: Written(c, v) && Written(c, w) && SameStamp(v, w) ==> v == w
  }

  lemma OwnStampsMakeUnique(c: State)
    requires OwnStampsInv(c)
    ensures StampUnique(c)
  {
    forall v, w | Written(c, v) && Written(c, w) && SameStamp(v, w) ensures v == w {
      var m :| m in c.nodes && v in c.nodes[m].writes;
      var n :| n in c.nodes && w in c.nodes[n].writes;
      assert OwnStamps(c.nodes[m], m) && OwnStamps(c.nodes[n], n);
    }
  }
}
