/** Tombstone collection: what it removes, what it never shows, and when a deleted
    version can come back. */
module Collection {
  import opened Text
  import opened Hlc
  import opened Model
  import opened Merge
  import opened Checksum
  import opened Storage
  import opened Pull
  import opened Sync
  import opened Cluster
  import opened Dominance
  import opened Stamps
  import opened Runs

  /** Collection removes exactly the tombstones stamped more than an hour behind the
      clock, and nothing before the clock has passed its first hour. */
  lemma CollectsOldTombstonesOnly(s: NodeState, h: HLC, k: RowKey)
    requires NodeDominates(s) && After(h, s.clock) && k in s.tables.rows
    ensures k !in RowsAfter(s.tables.rows, GcOp, h)
            <==> s.tables.rows[k].tombstone && s.tables.rows[k].hlc.ts < h.ts - 3_600_000
    ensures k in RowsAfter(s.tables.rows, GcOp, h) ==> RowsAfter(s.tables.rows, GcOp, h)[k] == s.tables.rows[k]
  {
  }

  /** Collection never shows in a listing or a checksum. */
  lemma CollectionIsInvisible(rows: Rows, h: HLC, kind: Kind, out: seq<Row>)
    ensures IsListing(RowsAfter(rows, GcOp, h), kind, out) <==> IsListing(rows, kind, out)
    ensures RowsSum(RowsAfter(rows, GcOp, h), kind) == RowsSum(rows, kind)
  {
    var rows' := RowsAfter(rows, GcOp, h);
    forall r: Row | !r.tombstone ensures Holds(rows', r) <==> Holds(rows, r) {
    }
    SumReadsLiveStampsOnly(rows', rows, kind);
  }

  // ------------------------------------------------------------ extinction

  /** v was written before, and no store and no reply in flight holds it. */
  ghost predicate Extinct(c: State, v: Row) {
    Written(c, v) && !Present(c, v)
  }

  /** A node's live rows carry its own owners: only a prune writes under another's, and
      it writes tombstones. */
  ghost predicate LiveOwned(s: NodeState, n: Str) {
    forall w :: w in s.writes && !w.tombstone ==> w.owner in Owners(n, s.epoch)
  }

  ghost predicate LiveOwnersInv(c: State) {
    && OwnersDisjoint(c)
    && forall n :: n in c.nodes ==> LiveOwned(c.nodes[n], n)
  }

  lemma NodeKeepsLiveOwned(c: State, step: Step, n: Str)
    requires Enabled(c, step) && n in c.nodes && LiveOwned(c.nodes[n], n)
    ensures LiveOwned(Do(c, step).nodes[n], n) && Do(c, step).nodes[n].epoch == c.nodes[n].epoch
  {
  }

  /** Holds of every step, collection and pruning included. */
  lemma StepKeepsLiveOwners(c: State, step: Step)
    requires LiveOwnersInv(c) && Enabled(c, step)
    ensures LiveOwnersInv(Do(c, step))
  {
    var c' := Do(c, step);
    forall n | n in c'.nodes ensures LiveOwned(c'.nodes[n], n) && c'.nodes[n].epoch == c.nodes[n].epoch {
      NodeKeepsLiveOwned(c, step, n);
    }
  }

  lemma {:induction false} ReachableLiveOwners(states: seq<State>, steps: seq<Step>, i: nat)
    requires IsRun(states, steps) && Init(states[0]) && i < |states|
    ensures LiveOwnersInv(states[i])
  {
    if i > 0 {
      ReachableLiveOwners(states, steps, i - 1);
      assert StepAt(states, steps, i - 1);
      StepKeepsLiveOwners(states[i - 1], steps[i - 1]);
    }
  }

  /** A fresh row under the node's own owner repeats no row that its writer wrote under
      its own. */
  lemma FreshIsNew(c: State, n: Str, h: HLC, w: Row)
    requires ClockInv(c) && OwnersDisjoint(c) && n in c.nodes && After(h, c.nodes[n].clock)
    requires w.hlc == h && w.owner in Owners(n, c.nodes[n].epoch)
    requires forall m :: m in c.nodes && w in c.nodes[m].writes ==> w.owner in Owners(m, c.nodes[m].epoch)
    ensures !Written(c, w)
  {
    forall m | m in c.nodes ensures w !in c.nodes[m].writes {
      DominatedNode(c, m);
    }
  }

  /** The versions a step cannot write again: all of them if it does not prune, and the
      live ones in any case. */
  predicate Unrepeatable(step: Step, v: Row) {
    !v.tombstone || !IsPrune(step)
  }

  lemma DeltaIsNew(c: State, step: Step, w: Row)
    requires ClockInv(c) && LiveOwnersInv(c) && step.Local? && Enabled(c, step) && Unrepeatable(step, w)
    requires w.tombstone ==> OwnStampsInv(c)
    requires w in Delta(c.nodes[step.node].tables.rows, step.op, TickFrom(c.nodes[step.node].clock, step.now)).Values
    ensures !Written(c, w)
  {
    FreshIsNew(c, step.node, TickFrom(c.nodes[step.node].clock, step.now), w);
  }

  /** A row present after a step was present before it or was written by it. */
  lemma PresenceComesFromSomewhere(c: State, step: Step, v: Row)
    requires Enabled(c, step) && Present(Do(c, step), v)
    ensures Present(c, v)
            || (step.Local? && v in Delta(c.nodes[step.node].tables.rows, step.op, TickFrom(c.nodes[step.node].clock, step.now)).Values)
  {
    var c' := Do(c, step);
    if rep :| rep in c'.replies && v in rep.resp.rows {
      if rep !in c.replies {
        assert Holds(c.nodes[rep.call.server].tables.rows, v);
      }
    } else {
      var n :| n in c'.nodes && Holds(c'.nodes[n].tables.rows, v);
      StoredComesFromSomewhere(c, step, n, v);
    }
  }

  lemma StoredComesFromSomewhere(c: State, step: Step, n: Str, v: Row)
    requires Enabled(c, step) && n in c.nodes && Holds(Do(c, step).nodes[n].tables.rows, v)
    ensures Present(c, v)
            || (step.Local? && v in Delta(c.nodes[step.node].tables.rows, step.op, TickFrom(c.nodes[step.node].clock, step.now)).Values)
  {
    if Holds(c.nodes[n].tables.rows, v) {
    } else if step.TakeRows? {
      JoinBatchIsJoin(c.nodes[n].tables.rows, step.reply.resp.rows);
      assert v in step.reply.resp.rows;
    }
  }

  /** A version held nowhere is held somewhere after a step if and only if the step writes
      it. */
  lemma ReappearsExactly(c: State, step: Step, v: Row)
    requires ClockInv(c) && Enabled(c, step) && !Present(c, v)
    ensures Present(Do(c, step), v)
            <==> step.Local? && v in Delta(c.nodes[step.node].tables.rows, step.op, TickFrom(c.nodes[step.node].clock, step.now)).Values
  {
    if Present(Do(c, step), v) {
      PresenceComesFromSomewhere(c, step, v);
    }
    if step.Local? && v in Delta(c.nodes[step.node].tables.rows, step.op, TickFrom(c.nodes[step.node].clock, step.now)).Values {
      DominatedNode(c, step.node);
      DeltaCarries(c.nodes[step.node].tables.rows, step.op, TickFrom(c.nodes[step.node].clock, step.now));
      assert Holds(Do(c, step).nodes[step.node].tables.rows, v);
    }
  }

  /** In any run, what comes back after it was held nowhere is a tombstone that a prune, or
      a delete after a prune, writes again. */
  lemma OnlyTombstonesReappear(states: seq<State>, steps: seq<Step>, i: nat, v: Row)
    requires IsRun(states, steps) && Init(states[0]) && i < |steps| && Extinct(states[i], v)
    ensures Present(states[i + 1], v)
            <==> steps[i].Local? && (steps[i].op.PruneOp? || steps[i].op.DeleteOp?) && v.tombstone
                 && steps[i].node in states[i].nodes
                 && v in Delta(states[i].nodes[steps[i].node].tables.rows, steps[i].op,
                               TickFrom(states[i].nodes[steps[i].node].clock, steps[i].now)).Values
  {
    assert StepAt(states, steps, i);
    ReachableClock(states, steps, i);
    ReachableLiveOwners(states, steps, i);
    ReappearsExactly(states[i], steps[i], v);
    if Present(states[i + 1], v) && !v.tombstone {
      DeltaIsNew(states[i], steps[i], v);
    }
  }

  lemma ExtinctStays(c: State, step: Step, v: Row)
    requires ClockInv(c) && LiveOwnersInv(c) && Enabled(c, step) && Unrepeatable(step, v) && Extinct(c, v)
    requires v.tombstone ==> OwnStampsInv(c)
    ensures Extinct(Do(c, step), v)
  {
    WrittenStays(c, step, v);
    if Present(Do(c, step), v) {
      PresenceComesFromSomewhere(c, step, v);
      DeltaIsNew(c, step, v);
    }
  }

  /** A version that no store and no reply holds never comes back, whatever the run does
      later: writes, pulls, stale and duplicate replies, further collection and, for a
      live version, pruning. Only a prune can write a tombstone twice. */
  lemma {:induction false} ExtinctForever(states: seq<State>, steps: seq<Step>, i: nat, j: nat, v: Row)
    requires IsRun(states, steps) && Init(states[0]) && i <= j < |states|
    requires !v.tombstone || NoPrune(steps)
    requires Extinct(states[i], v)
    ensures Extinct(states[j], v)
    decreases j
  {
    if i < j {
      ExtinctForever(states, steps, i, j - 1, v);
      ExtinctStep(states, steps, j - 1, v);
    }
  }

  lemma ExtinctStep(states: seq<State>, steps: seq<Step>, j: nat, v: Row)
    requires IsRun(states, steps) && Init(states[0]) && j < |steps|
    requires !v.tombstone || NoPrune(steps)
    requires Extinct(states[j], v)
    ensures Extinct(states[j + 1], v)
  {
    assert StepAt(states, steps, j);
    ReachableClock(states, steps, j);
    ReachableLiveOwners(states, steps, j);
    if v.tombstone {
      ReachableStamps(states, steps, j);
    }
    ExtinctStays(states[j], steps[j], v);
  }

  /** No version of x's key older than x is stored or in flight. */
  ghost predicate NothingOlder(c: State, x: Row) {
    forall v :: Present(c, v) && KeyOf(v) == KeyOf(x) ==> !Newer(x, v)
  }

  /** Collection safety: if, at some moment, nothing older than the tombstone x is stored
      or in flight, then no live version of its key that existed by then and is older than
      x is ever seen again, in any run, even after every copy of x was collected. The same
      holds for older tombstones in runs without pruning. */
  lemma CollectionSafety(states: seq<State>, steps: seq<Step>, i: nat, j: nat, x: Row, v: Row)
    requires IsRun(states, steps) && Init(states[0]) && i <= j < |states|
    requires NothingOlder(states[i], x)
    requires Written(states[i], v) && KeyOf(v) == KeyOf(x) && Newer(x, v)
    requires !v.tombstone || NoPrune(steps)
    ensures !Present(states[j], v)
  {
    ExtinctForever(states, steps, i, j, v);
  }

  /** How an older version comes back otherwise. n has no row for v's key any more and
      pulls from peer, which still holds v: n holds v afterwards if and only if v lies
      above n's watermark for peer, or peer has nothing newer than that watermark and
      the checksums make it resend the whole kind. */
  lemma ReturnsExactlyWhenSent(t: Tables, peer: Str, served: Tables, resp: Response, v: Row)
    requires KeyOf(v) !in t.rows && WellKeyed(served.rows) && Holds(served.rows, v)
    requires RowKind(v.kind) && After(v.hlc, ZERO)
    requires IsAnswer(served, RequestFor(t, peer), resp)
    ensures Holds(RowsApplied(t, peer, resp.rows).rows, v)
            <==> After(v.hlc, Mark(t.marks, peer, v.kind)) || Resends(served.rows, RequestFor(t, peer), v.kind)
  {
    JoinBatchIsJoin(t.rows, resp.rows);
    var out := JoinBatch(t.rows, resp.rows);
    if v in resp.rows {
      assert Covers(out, v);
      assert out[KeyOf(v)] in resp.rows;
    }
  }
}
