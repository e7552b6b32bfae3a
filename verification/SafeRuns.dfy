/** Runs that collect safely: the hypotheses of live convergence are met by a cluster that
    deletes and collects a replicated row, and what a tie does beside them. */
module SafeRuns {
  import opened Text
  import opened Hlc
  import opened Model
  import opened Storage
  import opened Sync
  import opened Cluster
  import opened Convergence
  import opened LiveConvergence
  import opened Paths
  import opened Witnesses

  // ------------------------------------------------------------ safety of joined runs

  lemma NoGcStepAcked(states: seq<State>, steps: seq<Step>)
    requires NoGcStep(steps)
    ensures AckedRun(states, steps)
  {
  }

  lemma AckedJoins(s: seq<State>, p: seq<Step>, t: seq<State>, q: seq<Step>)
    requires IsRun(s, p) && IsRun(t, q) && s[|p|] == t[0]
    requires AckedRun(s, p) && AckedRun(t, q)
    ensures AckedRun(s + t[1..], p + q)
  {
    var states, steps := s + t[1..], p + q;
    forall i | 0 <= i < |steps| && i < |states| ensures AckedStep(states[i], steps[i]) {
      if i < |p| {
        assert AckedStep(s[i], p[i]);
      } else {
        assert AckedStep(t[i - |p|], q[i - |p|]) && states[i] == t[i - |p|];
      }
    }
  }

  // ------------------------------------------------------------ a replicated delete

  /** Both nodes after the delete was exchanged, and after they collected it. */
  ghost function ADead(): NodeState { OneTaken(Deleted(), B, DEAD) }
  ghost function BDead(): NodeState { OneTaken(Copied(), A, DEAD) }
  ghost function Swept(s: NodeState): NodeState {
    s.(clock := HLC(4_000_000, 0), wall := 4_000_000, tables := s.tables.(rows := map[]))
  }

  lemma DeadNodes()
    ensures ADead() == Holder(HLC(2, 0), DEAD, OneMark(B, Meta, 2), {LIVE, DEAD}, 2)
    ensures BDead() == Holder(HLC(2, 0), DEAD, OneMark(A, Meta, 2), {}, 0)
  {
    NewerTrichotomy(DEAD, DEAD);
    assert Newer(DEAD, LIVE);
    assert map[KeyOf(LIVE) := LIVE][KeyOf(DEAD) := DEAD] == map[KeyOf(DEAD) := DEAD];
  }

  lemma Sweep(s: NodeState, n: Str)
    requires s.tables.rows == map[KeyOf(DEAD) := DEAD] && s.clock == HLC(2, 0)
    ensures LocalNode(s, n, 4_000_000, GcOp, Silent) == Swept(s)
    ensures GcKeys(s.tables.rows, GcLimit(HLC(4_000_000, 0))) == {KeyOf(DEAD)}
  {
    var rows := s.tables.rows;
    assert KeyOf(DEAD) in GcKeys(rows, GcLimit(HLC(4_000_000, 0)));
    assert rows - GcKeys(rows, GcLimit(HLC(4_000_000, 0))) == map[];
    var none: Rows := map[];
    assert none.Values == {} && s.writes + {} == s.writes && s.log + [] == s.log;
  }

  /** A writes a label, B pulls it, and the reply is gone. */
  lemma LabelReplicated() returns (states: seq<State>, steps: seq<Step>, d: State)
    ensures Path(states, steps, Duo(), d) && d.nodes == map[A := Wrote(A), B := Copied()] && d.replies == {}
    ensures NoGcStep(steps)
  {
    var s1, p1, c1 := WritesLabel(Duo(), A);
    assert OneTaken(FRESH, A, LIVE) == Copied();
    var s2, p2, c2, rep := PullOne(c1, B, A, LIVE, Copied());
    var s12 := Join(s1, p1, s2, p2, Duo(), c1, c2);
    var s3 := OneStep(c2, Lose(rep));
    d := Do(c2, Lose(rep));
    states := Join(s12, p1 + p2, s3, [Lose(rep)], Duo(), c2, d);
    steps := p1 + p2 + [Lose(rep)];
    assert d.replies == {};
  }

  /** A deletes the label. */
  lemma LabelDeleted(c: State) returns (states: seq<State>, steps: seq<Step>, d: State)
    requires c.nodes == map[A := Wrote(A), B := Copied()] && c.replies == {}
    ensures Path(states, steps, c, d) && d.nodes == map[A := Deleted(), B := Copied()] && d.replies == {}
    ensures NoGcStep(steps)
  {
    DeleteLabel();
    states, d := LocalStep(c, A, 2, DeleteOp(Meta, KEY, ApiOwner(A)), Deleted());
    steps := [Local(A, 2, DeleteOp(Meta, KEY, ApiOwner(A)), Silent)];
  }

  /** A reply that carries the tombstone and nothing else. */
  ghost predicate CarriesDead(rep: Reply) {
    rep.resp.rows == [DEAD]
  }

  lemma BPullsDead(c: State) returns (states: seq<State>, steps: seq<Step>, d: State)
    requires c.nodes == map[A := Deleted(), B := Copied()] && c.replies == {}
    ensures Path(states, steps, c, d) && d.nodes == map[A := Deleted(), B := BDead()]
    ensures forall rep :: rep in d.replies ==> CarriesDead(rep)
    ensures |steps| == 3 && steps[0].Ask? && PullsBoth(steps, B, A)
  {
    var rep;
    states, steps, d, rep := PullOne(c, B, A, DEAD, BDead());
  }

  lemma APullsDead(c: State) returns (states: seq<State>, steps: seq<Step>, d: State)
    requires c.nodes == map[A := Deleted(), B := BDead()] && forall rep :: rep in c.replies ==> CarriesDead(rep)
    ensures Path(states, steps, c, d) && d.nodes == map[A := ADead(), B := BDead()]
    ensures forall rep :: rep in d.replies ==> CarriesDead(rep)
    ensures |steps| == 3 && steps[0].Ask? && PullsBoth(steps, A, B)
  {
    DeadNodes();
    var rep;
    states, steps, d, rep := PullOne(c, A, B, DEAD, ADead());
  }

  /** One node collects, after B has acknowledged A's tombstone. */
  lemma Sweeps(c: State, n: Str) returns (states: seq<State>, steps: seq<Step>, d: State)
    requires n in c.nodes && c.nodes[n].tables.rows == map[KeyOf(DEAD) := DEAD] && c.nodes[n].clock == HLC(2, 0)
    requires c.nodes.Keys == {A, B} && DEAD in c.nodes[A].writes && Mark(c.nodes[B].tables.marks, A, Meta) == HLC(2, 0)
    requires forall rep :: rep in c.replies ==> CarriesDead(rep)
    ensures Path(states, steps, c, d) && d.nodes == c.nodes[n := Swept(c.nodes[n])] && d.replies == c.replies
    ensures steps == [Local(n, 4_000_000, GcOp, Silent)] && AckedRun(states, steps)
    ensures DEAD in Removed(c, steps[0])
  {
    Sweep(c.nodes[n], n);
    states, d := LocalStep(c, n, 4_000_000, GcOp, Swept(c.nodes[n]));
    steps := [Local(n, 4_000_000, GcOp, Silent)];
    DeadIsAcked(c);
    assert c.nodes[n].tables.rows[KeyOf(DEAD)] in Removed(c, steps[0]);
    assert Removed(c, steps[0]) == {DEAD};
  }

  lemma DeadIsAcked(c: State)
    requires c.nodes.Keys == {A, B} && DEAD in c.nodes[A].writes && Mark(c.nodes[B].tables.marks, A, Meta) == HLC(2, 0)
    requires forall rep :: rep in c.replies ==> CarriesDead(rep)
    ensures AckedFrom(c, A, DEAD)
  {
    NewerTrichotomy(DEAD, DEAD);
    forall rep, v | rep in c.replies && v in rep.resp.rows ensures v == DEAD {
      assert CarriesDead(rep);
    }
  }

  lemma BothSweep(c: State) returns (states: seq<State>, steps: seq<Step>, d: State)
    requires c.nodes == map[A := ADead(), B := BDead()] && forall rep :: rep in c.replies ==> CarriesDead(rep)
    ensures Path(states, steps, c, d) && AckedRun(states, steps) && |steps| == 2
    ensures IsGc(steps[0]) && IsGc(steps[1]) && DEAD in Removed(states[0], steps[0]) && DEAD in Removed(states[1], steps[1])
    ensures d.nodes == map[A := Swept(ADead()), B := Swept(BDead())]
  {
    DeadNodes();
    var s, p, mid := Sweeps(c, A);
    var t, q, e := Sweeps(mid, B);
    states := Join(s, p, t, q, c, mid, e);
    AckedJoins(s, p, t, q);
    steps, d := p + q, e;
  }

  /** A mesh, followed by collections. */
  lemma MeshBeforeSweep(p: seq<Step>, mesh: seq<Step>, g: seq<Step>, t: nat)
    requires t <= |p| && FullMesh(p + mesh, t, {A, B}) && forall i :: t <= i < |p + mesh| ==> !(p + mesh)[i].Local?
    requires forall i :: 0 <= i < |g| ==> IsGc(g[i])
    ensures FullMesh(p + mesh + g, t, {A, B}) && NoWrites(p + mesh + g, t)
  {
    var steps, more := p + mesh, p + mesh + g;
    forall a, b, kind | a in {A, B} && b in {A, B} && a != b && RowKind(kind) ensures PullsRows(more, t, a, b, kind) {
      assert PullsRows(steps, t, a, b, kind);
      var j, k :| t <= j && RowPull(steps, a, b, kind, j, k);
      assert RowPull(more, a, b, kind, j, k);
    }
  }

  lemma MeshIsNotLocal(p: seq<Step>, q: seq<Step>, r: seq<Step>)
    requires |q| == 3 && q[0].Ask? && PullsBoth(q, B, A)
    requires |r| == 3 && r[0].Ask? && PullsBoth(r, A, B)
    ensures forall i :: |p| <= i < |p + q + r| ==> !(p + q + r)[i].Local?
  {
    assert RowPull(q, B, A, Runner, 1, 2) && RowPull(r, A, B, Runner, 1, 2);
    var steps := p + q + r;
    assert forall i :: |p| <= i < |p| + 3 ==> steps[i] == q[i - |p|];
    assert forall i :: |p| + 3 <= i < |p| + 6 ==> steps[i] == r[i - |p| - 3];
  }

  /** Label written, pulled, deleted; and where the last write is. */
  lemma ReplicatedThenDeleted() returns (states: seq<State>, steps: seq<Step>, d: State, i: nat)
    ensures Path(states, steps, Duo(), d) && d.nodes == map[A := Deleted(), B := Copied()] && d.replies == {}
    ensures NoGcStep(steps) && i < |states| && states[i].nodes == map[A := Wrote(A), B := Copied()]
  {
    var s1, p1, c1 := LabelReplicated();
    var s2, p2, c2 := LabelDeleted(c1);
    states := Join(s1, p1, s2, p2, Duo(), c1, c2);
    NoGcJoins(p1, p2);
    steps, d, i := p1 + p2, c2, |p1|;
  }

  /** The run up to the collections: before, the two pulls, and the state they leave. */
  lemma DeleteExchanged() returns (states: seq<State>, p: seq<Step>, q: seq<Step>, r: seq<Step>, d: State, i: nat)
    ensures Path(states, p + q + r, Duo(), d) && d.nodes == map[A := ADead(), B := BDead()]
    ensures forall rep :: rep in d.replies ==> CarriesDead(rep)
    ensures |q| == 3 && q[0].Ask? && PullsBoth(q, B, A) && |r| == 3 && r[0].Ask? && PullsBoth(r, A, B)
    ensures NoGcStep(p) && i <= |p| && states[i].nodes == map[A := Wrote(A), B := Copied()]
  {
    var s1, p1, c1, at := ReplicatedThenDeleted();
    var s2, p2, c2 := BPullsDead(c1);
    var s12 := Join(s1, p1, s2, p2, Duo(), c1, c2);
    var s3, p3, c3 := APullsDead(c2);
    states := Join(s12, p1 + p2, s3, p3, Duo(), c2, c3);
    p, q, r, d, i := p1, p2, p3, c3, at;
    assert states[i] == s12[i] == s1[i];
  }

  lemma ExchangedThenSwept(states: seq<State>, p: seq<Step>, q: seq<Step>, r: seq<Step>, g: seq<Step>)
    requires |q| == 3 && q[0].Ask? && PullsBoth(q, B, A) && |r| == 3 && r[0].Ask? && PullsBoth(r, A, B)
    requires NoGcStep(p) && |g| == 2 && IsGc(g[0]) && IsGc(g[1])
    ensures FullMesh(p + q + r + g, |p|, {A, B}) && NoWrites(p + q + r + g, |p|)
    ensures NoGcStep(p + q + r)
  {
    MeshAtEnd(states, p, q, r, B, A);
    MeshIsNotLocal(p, q, r);
    assert {B, A} == {A, B} && p + q + r == p + (q + r) && p + (q + r) + g == p + q + r + g;
    MeshBeforeSweep(p, q + r, g, |p|);
    NoGcJoins(p, q);
    NoGcJoins(p + q, r);
  }

  /** Live convergence is about runs that collect replicated deletes: here A writes a label,
      B pulls it, A deletes it, both pull from each other, and both collect the tombstone.
      All hypotheses hold. */
  lemma ReplicatedDeleteIsCollected() returns (states: seq<State>, steps: seq<Step>, t: nat, i: nat, live: Row, dead: Row)
    ensures IsRun(states, steps) && Init(states[0]) && AckedRun(states, steps) && SafelyCollected(states, steps)
    ensures t + 2 <= |steps| && NoWrites(steps, t) && FullMesh(steps, t, states[0].nodes.Keys)
    ensures i <= t && B in states[i].nodes && Holds(states[i].nodes[B].tables.rows, live) && live.owner == ApiOwner(A)
    ensures dead.tombstone && KeyOf(dead) == KeyOf(live) && Newer(dead, live)
    ensures dead in Removed(states[|steps| - 2], steps[|steps| - 2]) && dead in Removed(states[|steps| - 1], steps[|steps| - 1])
  {
    StartsAreInit();
    var s, p, q, r, c, at := DeleteExchanged();
    var z, g, d := BothSweep(c);
    states := Join(s, p + q + r, z, g, Duo(), c, d);
    steps, t, i, live, dead := p + q + r + g, |p|, at, LIVE, DEAD;
    ExchangedThenSwept(s, p, q, r, g);
    NoGcStepAcked(s, p + q + r);
    AckedJoins(s, p + q + r, z, g);
    AckedRunsAreSafe(states, steps);
    assert Duo().nodes.Keys == {A, B};
    SweptAtEnd(s, p + q + r, z, g);
    assert states[i] == s[i];
  }

  /** The last two steps of the joined run are the collections. */
  lemma SweptAtEnd(s: seq<State>, p: seq<Step>, z: seq<State>, g: seq<Step>)
    requires IsRun(s, p) && IsRun(z, g) && s[|p|] == z[0] && |g| == 2
    ensures var states, steps := s + z[1..], p + g;
            && states[|steps| - 2] == z[0] && steps[|steps| - 2] == g[0]
            && states[|steps| - 1] == z[1] && steps[|steps| - 1] == g[1]
  {
  }
}
