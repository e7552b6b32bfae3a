/** Where the guarantees stop: concrete runs that show the hypotheses of the
    convergence, collection and extinction theorems are needed. All pulls in them carry
    the watermarks and checksums of the moment. */
module Witnesses {
  import opened Text
  import opened Hlc
  import opened Model
  import opened Checksum
  import opened Sorting
  import opened Storage
  import opened Pull
  import opened Sync
  import opened Cluster
  import opened Runs
  import opened Convergence
  import opened Collection
  import opened Paths

  const A: Str := [97]
  const B: Str := [98]
  const C: Str := [99]
  const EPOCH: Str := [48]
  const KEY: Str := [107]

  const FRESH := NodeState(ZERO, EMPTY, EPOCH, {}, [], 0)

  ghost function Duo(): State {
    State(map[A := FRESH, B := FRESH], {}, {}, 0)
  }

  ghost function Trio(): State {
    State(map[A := FRESH, B := FRESH, C := FRESH], {}, {}, 0)
  }

  lemma StartsAreInit()
    ensures Init(Duo()) && Init(Trio())
  {
    PlainIdsHaveDisjointOwners(A, EPOCH, B, EPOCH);
    PlainIdsHaveDisjointOwners(A, EPOCH, C, EPOCH);
    PlainIdsHaveDisjointOwners(B, EPOCH, C, EPOCH);
  }

  /** A node holding the single row r. */
  ghost function Holder(h: HLC, r: Row, marks: Marks, writes: set<Row>, wall: int): NodeState {
    NodeState(h, Tables(map[KeyOf(r) := r], map[], marks), EPOCH, writes, [], wall)
  }

  ghost function OneMark(peer: Str, kind: Kind, ts: int): Marks {
    map[MarkKey(peer, kind) := HLC(ts, 0)]
  }

  lemma OneValue(k: RowKey, r: Row)
    ensures map[k := r].Values == {r}
  {
    var m: Rows := map[k := r];
    forall x ensures x in m.Values <==> x == r {
      assert m[k] == r;
    }
  }

  // ------------------------------------------------------------ pruning

  const INFO := RunnerInfo(B, [], Active, 0.0, 0.0, 5000, 1, map[])

  /** B's own report at time ts, and what a prune at time ts makes of its first report. */
  function Report(ts: int): Row {
    Row(Runner, B, AgentOwner(B, EPOCH), HLC(ts, 0), false, RunnerPayload(INFO))
  }

  function Buried(ts: int): Row {
    Report(1).(hlc := HLC(ts, 0), tombstone := true)
  }

  const REPORT := PutOp(Runner, B, AgentOwner(B, EPOCH), RunnerPayload(INFO))

  /** B after its first and second report. */
  ghost function B1(): NodeState { Holder(HLC(1, 0), Report(1), map[], {Report(1)}, 1) }
  ghost function B2(): NodeState { Holder(HLC(2, 0), Report(2), map[], {Report(1), Report(2)}, 2) }

  /** A peer after pulling the first report, and after pruning B. */
  ghost function Knows(): NodeState { Holder(HLC(1, 0), Report(1), OneMark(B, Runner, 1), {}, 0) }
  ghost function Pruned(): NodeState { Holder(HLC(2, 0), Buried(2), OneMark(B, Runner, 1), {Buried(2)}, 2) }

  lemma FirstReport()
    ensures LocalNode(FRESH, B, 1, REPORT, Silent) == B1()
  {
    OneValue(RowKey(Runner, B), Report(1));
    assert EMPTY.rows + map[RowKey(Runner, B) := Report(1)] == B1().tables.rows;
  }

  lemma SecondReport()
    ensures LocalNode(B1(), B, 2, REPORT, Silent) == B2()
  {
    OneValue(RowKey(Runner, B), Report(2));
    assert B1().tables.rows + map[RowKey(Runner, B) := Report(2)] == B2().tables.rows;
    assert {Report(1)} + {Report(2)} == {Report(1), Report(2)};
  }

  lemma Prune(n: Str)
    ensures LocalNode(Knows(), n, 2, PruneOp(B), Silent) == Pruned()
  {
    var k := RowKey(Runner, B);
    OneValue(k, Buried(2));
    assert AgentOwner(B, EPOCH)[..2] == B + [SLASH];
    assert PruneDelta(Knows().tables.rows, B, HLC(2, 0)) == map[k := Buried(2)];
    assert Knows().tables.rows + map[k := Buried(2)] == Pruned().tables.rows;
  }

  lemma ReportTaken()
    ensures OneTaken(FRESH, B, Report(1)) == Knows()
  {
  }

  /** B reports. */
  lemma Reports(c: State) returns (states: seq<State>, steps: seq<Step>, d: State)
    requires B in c.nodes && c.nodes[B] == FRESH
    ensures Path(states, steps, c, d) && |steps| == 1 && NoGcStep(steps)
    ensures d.nodes == c.nodes[B := B1()] && d.replies == c.replies
  {
    FirstReport();
    states, d := LocalStep(c, B, 1, REPORT, B1());
    steps := [Local(B, 1, REPORT, Silent)];
  }

  /** A peer pulls the first report. */
  lemma PullsReport(c: State, n: Str) returns (states: seq<State>, steps: seq<Step>, d: State, rep: Reply)
    requires n in c.nodes && c.nodes[n] == FRESH && B in c.nodes && c.nodes[B] == B1()
    ensures Path(states, steps, c, d) && |steps| == 3 && NoGcStep(steps)
    ensures d.nodes == c.nodes[n := Knows()] && d.replies == c.replies + {rep} && rep.resp.rows == [Report(1)]
  {
    ReportTaken();
    states, steps, d, rep := PullOne(c, n, B, Report(1), Knows());
  }

  lemma Prunes(c: State, n: Str) returns (states: seq<State>, steps: seq<Step>, d: State)
    requires n in c.nodes && c.nodes[n] == Knows()
    ensures Path(states, steps, c, d) && |steps| == 1 && NoGcStep(steps)
    ensures d.nodes == c.nodes[n := Pruned()] && d.replies == c.replies
  {
    Prune(n);
    states, d := LocalStep(c, n, 2, PruneOp(B), Pruned());
    steps := [Local(n, 2, PruneOp(B), Silent)];
  }

  /** No step collects at all. */
  ghost predicate NoGcStep(steps: seq<Step>) {
    forall i :: 0 <= i < |steps| ==> !IsGc(steps[i])
  }

  lemma NoGcStepNothingCollected(states: seq<State>, steps: seq<Step>)
    requires NoGcStep(steps)
    ensures NothingCollected(states, steps)
  {
  }

  lemma NoGcJoins(p: seq<Step>, q: seq<Step>)
    requires NoGcStep(p) && NoGcStep(q)
    ensures NoGcStep(p + q)
  {
  }

  /** B reports and A pulls the report. */
  lemma ReportPulled() returns (states: seq<State>, steps: seq<Step>, d: State)
    ensures Path(states, steps, Duo(), d) && d.nodes == map[A := Knows(), B := B1()] && NoGcStep(steps)
  {
    var s, p, c := Reports(Duo());
    var t, q, d', rep := PullsReport(c, A);
    states := Join(s, p, t, q, Duo(), c, d');
    steps, d := p + q, d';
    NoGcJoins(p, q);
  }

  /** In one millisecond B reports again and A, told that B left, prunes it. */
  lemma PruneRaces(c: State) returns (states: seq<State>, steps: seq<Step>, d: State)
    requires c.nodes == map[A := Knows(), B := B1()]
    ensures Path(states, steps, c, d) && d.nodes == map[A := Pruned(), B := B2()] && NoGcStep(steps)
  {
    SecondReport();
    var s, mid := LocalStep(c, B, 2, REPORT, B2());
    var p := [Local(B, 2, REPORT, Silent)];
    var t, q, d' := Prunes(mid, A);
    states := Join(s, p, t, q, c, mid, d');
    steps, d := p + q, d';
  }

  /** B's report and A's prune of B carry one stamp: each side refuses the other's. */
  lemma SameStampRefused()
    ensures SameStamp(Report(2), Buried(2))
    ensures OneTaken(Pruned(), B, Report(2)).tables.rows == Pruned().tables.rows
    ensures OneTaken(B2(), A, Buried(2)).tables.rows == B2().tables.rows
  {
    NewerTrichotomy(Report(2), Buried(2));
  }

  /** A pulls B's row and keeps its own. */
  lemma APulls(c: State, a: NodeState) returns (states: seq<State>, steps: seq<Step>, d: State)
    requires c.nodes == map[A := Pruned(), B := B2()] && a == OneTaken(Pruned(), B, Report(2))
    ensures Path(states, steps, c, d) && d.nodes == map[A := a, B := B2()]
    ensures |steps| == 3 && steps[0].Ask? && PullsBoth(steps, A, B)
  {
    var rep;
    states, steps, d, rep := PullOne(c, A, B, Report(2), a);
  }

  /** B pulls A's row and keeps its own. */
  lemma BPulls(c: State, a: NodeState) returns (states: seq<State>, steps: seq<Step>, d: State)
    requires c.nodes == map[A := a, B := B2()] && a.tables.rows == Pruned().tables.rows && a.tables.events == map[]
    ensures Path(states, steps, c, d) && d.nodes == map[A := a, B := OneTaken(B2(), A, Buried(2))]
    ensures |steps| == 3 && steps[0].Ask? && PullsBoth(steps, B, A)
  {
    var rep;
    states, steps, d, rep := PullOne(c, B, A, Buried(2), OneTaken(B2(), A, Buried(2)));
  }

  /** Three steps that ask, answer and take both kinds. */
  ghost predicate PullsBoth(steps: seq<Step>, a: Str, b: Str) {
    forall kind :: RowKind(kind) ==> RowPull(steps, a, b, kind, 1, 2)
  }

  /** Two pulls, one each way, seen from a run that ends in them. */
  lemma MeshAtEnd(states: seq<State>, p: seq<Step>, q: seq<Step>, r: seq<Step>, a: Str, b: Str)
    requires |q| == 3 && q[0].Ask? && PullsBoth(q, a, b)
    requires |r| == 3 && r[0].Ask? && PullsBoth(r, b, a)
    ensures RowQuiet(states, p + q + r, |p|) && FullMesh(p + q + r, |p|, {a, b})
    ensures NoGcStep(q) && NoGcStep(r)
  {
    var steps := p + q + r;
    assert RowPull(q, a, b, Runner, 1, 2) && RowPull(r, b, a, Runner, 1, 2);
    assert forall i :: |p| <= i < |p| + 3 ==> steps[i] == q[i - |p|];
    assert forall i :: |p| + 3 <= i < |p| + 6 ==> steps[i] == r[i - |p| - 3];
    forall kind | RowKind(kind) ensures PullsRows(steps, |p|, a, b, kind) && PullsRows(steps, |p|, b, a, kind) {
      assert RowPull(q, a, b, kind, 1, 2) && RowPull(r, b, a, kind, 1, 2);
      assert RowPull(steps, a, b, kind, |p| + 1, |p| + 2) && RowPull(steps, b, a, kind, |p| + 4, |p| + 5);
    }
  }

  /** The whole run, and where its last six steps begin. */
  lemma PruneRun() returns (states: seq<State>, steps: seq<Step>, t: nat, d: State)
    ensures Path(states, steps, Duo(), d) && NoGcStep(steps)
    ensures t <= |steps| && RowQuiet(states, steps, t) && FullMesh(steps, t, {A, B})
    ensures d.nodes == map[A := OneTaken(Pruned(), B, Report(2)), B := OneTaken(B2(), A, Buried(2))]
  {
    SameStampRefused();
    var s1, p1, c1 := ReportPulled();
    var s2, p2, c2 := PruneRaces(c1);
    var s12 := Join(s1, p1, s2, p2, Duo(), c1, c2);
    var s3, p3, c3 := APulls(c2, OneTaken(Pruned(), B, Report(2)));
    var s123 := Join(s12, p1 + p2, s3, p3, Duo(), c2, c3);
    var s4, p4, c4 := BPulls(c3, OneTaken(Pruned(), B, Report(2)));
    states := Join(s123, p1 + p2 + p3, s4, p4, Duo(), c3, c4);
    steps, t, d := p1 + p2 + p3 + p4, |p1 + p2|, c4;
    MeshAtEnd(states, p1 + p2, p3, p4, A, B);
    NoGcJoins(p1, p2);
    NoGcJoins(p1 + p2, p3);
    NoGcJoins(p1 + p2 + p3, p4);
  }

  /** Without the exclusion of pruning, strong convergence fails: in this run, after the
      last write and a full mesh of pulls, A holds B's runner dead and B holds it alive,
      under one and the same stamp, so no later pull reconciles them. */
  lemma PruningCanDiverge() returns (states: seq<State>, steps: seq<Step>, t: nat, a: Row, b: Row)
    ensures IsRun(states, steps) && Init(states[0]) && NothingCollected(states, steps)
    ensures t <= |steps| && RowQuiet(states, steps, t) && FullMesh(steps, t, states[0].nodes.Keys)
    ensures A in states[|steps|].nodes && Holds(states[|steps|].nodes[A].tables.rows, a)
    ensures B in states[|steps|].nodes && Holds(states[|steps|].nodes[B].tables.rows, b)
    ensures KeyOf(a) == KeyOf(b) && SameStamp(a, b) && a.tombstone && !b.tombstone
  {
    StartsAreInit();
    SameStampRefused();
    var d;
    states, steps, t, d := PruneRun();
    NoGcStepNothingCollected(states, steps);
    assert Duo().nodes.Keys == {A, B};
    a, b := Buried(2), Report(2);
  }

  // ------------------------------------------------------------ a tombstone written twice

  lemma CollectBuried()
    ensures LocalNode(Pruned(), A, 4_000_000, GcOp, Silent)
            == NodeState(HLC(4_000_000, 0), EMPTY.(marks := OneMark(B, Runner, 1)), EPOCH, {Buried(2)}, [], 4_000_000)
  {
    var rows := Pruned().tables.rows;
    assert RowKey(Runner, B) in GcKeys(rows, GcLimit(HLC(4_000_000, 0)));
    assert rows - GcKeys(rows, GcLimit(HLC(4_000_000, 0))) == map[];
    var none: Rows := map[];
    assert none.Values == {};
  }

  lemma Collects(c: State) returns (states: seq<State>, steps: seq<Step>, d: State)
    requires A in c.nodes && c.nodes[A] == Pruned()
    ensures Path(states, steps, c, d) && d.nodes.Keys == c.nodes.Keys && d.replies == c.replies
    ensures d.nodes[A].tables.rows == map[] && d.nodes[A].writes == {Buried(2)}
    ensures forall n :: n in c.nodes && n != A ==> d.nodes[n] == c.nodes[n]
  {
    CollectBuried();
    states, d := LocalStep(c, A, 4_000_000, GcOp, LocalNode(c.nodes[A], A, 4_000_000, GcOp, Silent));
    steps := [Local(A, 4_000_000, GcOp, Silent)];
  }

  /** B reports, A and C pull the report, A prunes B and collects the tombstone. */
  lemma BuriedAndCollected() returns (states: seq<State>, steps: seq<Step>, d: State)
    ensures Path(states, steps, Trio(), d) && Extinct(d, Buried(2)) && C in d.nodes && d.nodes[C] == Knows()
  {
    var s1, p1, c1 := Reports(Trio());
    var s2, p2, c2, r2 := PullsReport(c1, A);
    var s12 := Join(s1, p1, s2, p2, Trio(), c1, c2);
    var s3, p3, c3, r3 := PullsReport(c2, C);
    var s13 := Join(s12, p1 + p2, s3, p3, Trio(), c2, c3);
    var s4, p4, c4 := Prunes(c3, A);
    var s14 := Join(s13, p1 + p2 + p3, s4, p4, Trio(), c3, c4);
    var s5, p5, c5 := Collects(c4);
    states := Join(s14, p1 + p2 + p3 + p4, s5, p5, Trio(), c4, c5);
    steps, d := p1 + p2 + p3 + p4 + p5, c5;
    assert d.nodes.Keys == {A, B, C} && d.replies == {r2, r3};
    assert Buried(2) in d.nodes[A].writes;
  }

  /** For tombstones, extinction needs the exclusion of pruning: A buries B's runner and
      collects the tombstone, so that it is stored and in flight nowhere, and then C buries
      B under the same stamp. */
  lemma PruningCanRepeatATombstone() returns (states: seq<State>, steps: seq<Step>, i: nat, v: Row)
    ensures IsRun(states, steps) && Init(states[0]) && i < |steps|
    ensures v.tombstone && Extinct(states[i], v) && Present(states[|steps|], v)
  {
    StartsAreInit();
    var s, p, c := BuriedAndCollected();
    var t, q, d := Prunes(c, C);
    states := Join(s, p, t, q, Trio(), c, d);
    steps, i, v := p + q, |p|, Buried(2);
    assert Holds(d.nodes[C].tables.rows, v);
  }

  // ------------------------------------------------------------ collection

  function Label(n: Str, ts: int): Row {
    Row(Meta, KEY, ApiOwner(n), HLC(ts, 0), false, LabelPayload(map[]))
  }

  function Relabel(n: Str): RowOp {
    PutOp(Meta, KEY, ApiOwner(n), LabelPayload(map[]))
  }

  ghost function Wrote(n: Str): NodeState { Holder(HLC(1, 0), Label(n, 1), map[], {Label(n, 1)}, 1) }

  lemma WriteLabel(n: Str)
    ensures LocalNode(FRESH, n, 1, Relabel(n), Silent) == Wrote(n)
  {
    OneValue(RowKey(Meta, KEY), Label(n, 1));
    assert EMPTY.rows + map[RowKey(Meta, KEY) := Label(n, 1)] == Wrote(n).tables.rows;
  }

  lemma WritesLabel(c: State, n: Str) returns (states: seq<State>, steps: seq<Step>, d: State)
    requires n in c.nodes && c.nodes[n] == FRESH
    ensures Path(states, steps, c, d) && d.nodes == c.nodes[n := Wrote(n)] && d.replies == c.replies
    ensures NoGcStep(steps) && NoPrune(steps)
  {
    WriteLabel(n);
    states, d := LocalStep(c, n, 1, Relabel(n), Wrote(n));
    steps := [Local(n, 1, Relabel(n), Silent)];
  }

  const LIVE := Label(A, 1)
  const DEAD := Label(A, 2).(tombstone := true)

  /** A after deleting and collecting the label; B after pulling it. */
  ghost function Deleted(): NodeState { Holder(HLC(2, 0), DEAD, map[], {LIVE, DEAD}, 2) }
  ghost function Collected(): NodeState { NodeState(HLC(4_000_000, 0), EMPTY, EPOCH, {LIVE, DEAD}, [], 4_000_000) }
  ghost function Copied(): NodeState { Holder(HLC(1, 0), LIVE, OneMark(A, Meta, 1), {}, 0) }

  lemma DeleteLabel()
    ensures LocalNode(Wrote(A), A, 2, DeleteOp(Meta, KEY, ApiOwner(A)), Silent) == Deleted()
  {
    OneValue(RowKey(Meta, KEY), DEAD);
    assert Wrote(A).tables.rows + map[RowKey(Meta, KEY) := DEAD] == Deleted().tables.rows;
    assert {LIVE} + {DEAD} == {LIVE, DEAD};
  }

  lemma CollectLabel()
    ensures LocalNode(Deleted(), A, 4_000_000, GcOp, Silent) == Collected()
  {
    var rows := Deleted().tables.rows;
    assert RowKey(Meta, KEY) in GcKeys(rows, GcLimit(HLC(4_000_000, 0)));
    assert rows - GcKeys(rows, GcLimit(HLC(4_000_000, 0))) == map[];
    var none: Rows := map[];
    assert none.Values == {};
  }

  lemma NoPruneJoins(p: seq<Step>, q: seq<Step>)
    requires NoPrune(p) && NoPrune(q)
    ensures NoPrune(p + q)
  {
  }

  /** A writes the label and B pulls it. */
  lemma LabelCopied() returns (states: seq<State>, steps: seq<Step>, d: State)
    ensures Path(states, steps, Duo(), d) && d.nodes == map[A := Wrote(A), B := Copied()] && NoPrune(steps)
  {
    var s, p, c := WritesLabel(Duo(), A);
    assert OneTaken(FRESH, A, LIVE) == Copied();
    var t, q, d', rep := PullOne(c, B, A, LIVE, Copied());
    states := Join(s, p, t, q, Duo(), c, d');
    steps, d := p + q, d';
  }

  /** A deletes the label and, after the grace period, collects the tombstone. */
  lemma LabelCollected(c: State) returns (states: seq<State>, steps: seq<Step>, d: State)
    requires c.nodes == map[A := Wrote(A), B := Copied()]
    ensures Path(states, steps, c, d) && d.nodes == map[A := Collected(), B := Copied()] && NoPrune(steps)
  {
    DeleteLabel();
    CollectLabel();
    var s, mid := LocalStep(c, A, 2, DeleteOp(Meta, KEY, ApiOwner(A)), Deleted());
    var t, d' := LocalStep(mid, A, 4_000_000, GcOp, Collected());
    var p, q := [Local(A, 2, DeleteOp(Meta, KEY, ApiOwner(A)), Silent)], [Local(A, 4_000_000, GcOp, Silent)];
    states := Join(s, p, t, q, c, mid, d');
    steps, d := p + q, d';
  }

  /** A collected delete can be undone: A writes a label, B pulls it, A deletes it and
      later collects the tombstone, and then pulls the old label back from B, which never
      heard of the delete. */
  lemma CollectionCanResurrect() returns (states: seq<State>, steps: seq<Step>, live: Row, dead: Row)
    ensures IsRun(states, steps) && Init(states[0]) && NoPrune(steps)
    ensures A in states[|steps|].nodes && Holds(states[|steps|].nodes[A].tables.rows, live)
    ensures dead in states[|steps|].nodes[A].writes
    ensures KeyOf(dead) == KeyOf(live) && dead.tombstone && !live.tombstone && Newer(dead, live)
  {
    StartsAreInit();
    var s1, p1, c1 := LabelCopied();
    var s2, p2, c2 := LabelCollected(c1);
    var s12 := Join(s1, p1, s2, p2, Duo(), c1, c2);
    var s3, p3, c3, rep := PullOne(c2, A, B, LIVE, OneTaken(Collected(), B, LIVE));
    states := Join(s12, p1 + p2, s3, p3, Duo(), c2, c3);
    steps := p1 + p2 + p3;
    NoPruneJoins(p1, p2);
    NoPruneJoins(p1 + p2, p3);
    live, dead := LIVE, DEAD;
  }

  // ------------------------------------------------------------ relays

  const OTHER: Str := [108]

  /** B deletes the labels of another runner, in millisecond 5. */
  const GONE := Row(Meta, OTHER, ApiOwner(B), HLC(5, 0), true, NoPayload)
  const DROP := DeleteOp(Meta, OTHER, ApiOwner(B))

  ghost function Dropped(): NodeState { Holder(HLC(5, 0), GONE, map[], {GONE}, 5) }
  ghost function Heard(): NodeState { Holder(HLC(5, 0), GONE, OneMark(B, Meta, 5), {}, 0) }

  lemma DropLabels()
    ensures LocalNode(FRESH, B, 5, DROP, Silent) == Dropped()
  {
    OneValue(RowKey(Meta, OTHER), GONE);
    assert EMPTY.rows + map[RowKey(Meta, OTHER) := GONE] == Dropped().tables.rows;
  }

  /** C writes a label, B deletes another's, A pulls from B. */
  lemma MarkRaised() returns (states: seq<State>, steps: seq<Step>, d: State)
    ensures Path(states, steps, Trio(), d) && d.nodes == map[A := Heard(), B := Dropped(), C := Wrote(C)]
    ensures NoGcStep(steps) && NoPrune(steps)
  {
    DropLabels();
    var s1, p1, c1 := WritesLabel(Trio(), C);
    var s2, c2 := LocalStep(c1, B, 5, DROP, Dropped());
    var p2 := [Local(B, 5, DROP, Silent)];
    var s12 := Join(s1, p1, s2, p2, Trio(), c1, c2);
    assert OneTaken(FRESH, B, GONE) == Heard();
    var s3, p3, c3, rep := PullOne(c2, A, B, GONE, Heard());
    states := Join(s12, p1 + p2, s3, p3, Trio(), c2, c3);
    steps, d := p1 + p2 + p3, c3;
  }

  /** A table without live rows of a kind has checksum zero. */
  lemma NoLiveRowsNoSum(rows: Rows, kind: Kind)
    requires forall k :: k in rows ==> rows[k].tombstone
    ensures RowsSum(rows, kind) == 0
  {
    assert LiveEntries(rows, kind) == {};
  }

  /** The relay trap: C's label reaches B only after A's watermark for B has passed its
      stamp. From then on every pull of A from B, made with A's true watermarks and
      checksums, comes back without rows, and A does not have the label. */
  lemma RelayCanBeSkipped() returns (states: seq<State>, steps: seq<Step>, v: Row)
    ensures IsRun(states, steps) && Init(states[0]) && NothingCollected(states, steps) && NoPrune(steps)
    ensures var d := states[|steps|];
            && A in d.nodes && B in d.nodes
            && Holds(d.nodes[B].tables.rows, v) && !v.tombstone && !Covers(d.nodes[A].tables.rows, v)
            && PullsNothing(d.nodes[A].tables, B, d.nodes[B].tables)
  {
    StartsAreInit();
    var s1, p1, c1 := MarkRaised();
    v := Label(C, 1);
    var b := OneTaken(Dropped(), C, v);
    var s2, p2, c2, rep := PullOne(c1, B, C, v, b);
    states := Join(s1, p1, s2, p2, Trio(), c1, c2);
    steps := p1 + p2;
    NoGcJoins(p1, p2);
    NoGcStepNothingCollected(states, steps);
    NoPruneJoins(p1, p2);
    RelayPullsNothing(b);
  }

  lemma RelayPullsNothing(b: NodeState)
    requires b == OneTaken(Dropped(), C, Label(C, 1))
    ensures PullsNothing(Heard().tables, B, b.tables)
  {
    NoLiveRowsNoSum(Heard().tables.rows, Meta);
    assert NothingSince(b.tables.rows, Meta, HLC(5, 0)) && NothingSince(b.tables.rows, Runner, ZERO);
    HiddenBelowMarks(Heard().tables, B, b.tables);
  }

  /** A pull with the client's true watermarks and checksums brings no rows. */
  ghost predicate PullsNothing(client: Tables, peer: Str, server: Tables) {
    forall resp :: IsAnswer(server, RequestFor(client, peer), resp) ==> resp.rows == []
  }

  /** So it is when the server has nothing above the watermarks and the client's checksum
      is zero wherever the server has rows. */
  lemma HiddenBelowMarks(client: Tables, peer: Str, server: Tables)
    requires forall kind :: RowKind(kind) ==> NothingSince(server.rows, kind, Mark(client.marks, peer, kind))
    requires forall r :: Holds(server.rows, r) ==> RowsSum(client.rows, r.kind) == 0
    ensures PullsNothing(client, peer, server)
  {
    forall resp | IsAnswer(server, RequestFor(client, peer), resp) ensures resp.rows == [] {
      forall r ensures r !in resp.rows {
        if Holds(server.rows, r) && RowKind(r.kind) {
          assert !After(server.rows[KeyOf(r)].hlc, Mark(client.marks, peer, r.kind));
          assert ReqSum(RequestFor(client, peer), r.kind) == 0;
        }
      }
      EmptyOrFirst(resp.rows);
    }
  }
}
