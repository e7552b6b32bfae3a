/** The unlocked pairs. The code does not hold one lock over a merge and the clock update
    that follows it, nor over a tick and the write it stamps. Here the halves are steps of
    their own, and other steps may fall between them. */
module Torn {
  import opened Text
  import opened Hlc
  import opened Model
  import opened Merge
  import opened Pull
  import opened Sync
  import opened Cluster
  import opened Dominance
  import opened Convergence
  import opened Paths
  import opened Witnesses

  /** A cluster with replies merged but not yet shown to the clock, and ticks whose write
      is still to come: for rows, and for events. */
  datatype TornState = TornState(
    c: State, merged: set<Reply>, ticks: set<(Str, HLC)>,
    mergedEvents: set<Reply>, eventTicks: set<(Str, HLC)>)

  datatype TornStep =
    | Whole(step: Step)
    | MergeRows(reply: Reply)                 // the first half of TakeRows
    | ShowClock(reply: Reply)                 // and the second
    | TickOnly(node: Str, now: int)           // the first half of Local
    | WriteLate(node: Str, op: RowOp, h: HLC) // its row half
    | EmitLate(node: Str, kind: EventType, payload: map<Str, Str>, h: HLC) // and its event half
    | MergeEvents(reply: Reply)               // the first half of TakeEvents
    | ShowEvents(reply: Reply)                // and the second

  ghost predicate TornEnabled(s: TornState, step: TornStep) {
    match step
    case Whole(w) => Enabled(s.c, w)
    case MergeRows(rep) => rep in s.c.replies && rep.call.client in s.c.nodes
    case ShowClock(rep) => rep in s.merged && rep.call.client in s.c.nodes
    case TickOnly(n, _) => n in s.c.nodes
    case WriteLate(n, op, h) => (n, h) in s.ticks && n in s.c.nodes && OpAllowed(s.c.nodes[n], n, op)
    case EmitLate(n, _, _, h) => (n, h) in s.eventTicks && n in s.c.nodes
    case MergeEvents(rep) => rep in s.c.replies && rep.call.client in s.c.nodes
    case ShowEvents(rep) => rep in s.mergedEvents && rep.call.client in s.c.nodes
  }

  function Merged(s: NodeState, rep: Reply): NodeState {
    s.(tables := RowsApplied(s.tables, rep.call.server, rep.resp.rows))
  }

  function Shown(s: NodeState, rep: Reply): NodeState {
    s.(clock := ClockAfterRows(s.clock, rep.resp.rows))
  }

  function AfterTick(s: NodeState, now: int): NodeState {
    s.(clock := TickFrom(s.clock, now), wall := now)
  }

  ghost function WroteLate(s: NodeState, n: Str, op: RowOp, h: HLC): NodeState {
    s.(tables := LocalTables(s.tables, n, op, Silent, h), writes := s.writes + Delta(s.tables.rows, op, h).Values)
  }

  ghost function WroteEventLate(s: NodeState, n: Str, kind: EventType, payload: map<Str, Str>, h: HLC): NodeState {
    s.(tables := s.tables.(events := EventsAfter(s.tables.events, n, Emit(kind, payload), h)),
       log := s.log + Emitted(s.tables.events, n, Emit(kind, payload), h))
  }

  function EventsMerged(s: NodeState, rep: Reply): NodeState {
    s.(tables := EventsApplied(s.tables, rep.call.server, rep.call.req.evMark, rep.resp.events))
  }

  function EventsShown(s: NodeState, rep: Reply): NodeState {
    s.(clock := ClockAfterEvents(s.clock, rep.resp.events))
  }

  ghost function WithNode(c: State, n: Str, s: NodeState): State {
    c.(nodes := c.nodes[n := s])
  }

  ghost function TornDo(s: TornState, step: TornStep): TornState
    requires TornEnabled(s, step)
  {
    match step
    case Whole(w) => s.(c := Do(s.c, w))
    case MergeRows(rep) =>
      s.(c := WithNode(s.c, rep.call.client, Merged(s.c.nodes[rep.call.client], rep)), merged := s.merged + {rep})
    case ShowClock(rep) =>
      s.(c := WithNode(s.c, rep.call.client, Shown(s.c.nodes[rep.call.client], rep)), merged := s.merged - {rep})
    case TickOnly(n, now) =>
      s.(c := WithNode(s.c, n, AfterTick(s.c.nodes[n], now)).(maxWall := if now > s.c.maxWall then now else s.c.maxWall),
         ticks := s.ticks + {(n, TickFrom(s.c.nodes[n].clock, now))},
         eventTicks := s.eventTicks + {(n, TickFrom(s.c.nodes[n].clock, now))})
    case WriteLate(n, op, h) =>
      s.(c := WithNode(s.c, n, WroteLate(s.c.nodes[n], n, op, h)), ticks := s.ticks - {(n, h)})
    case EmitLate(n, kind, payload, h) =>
      s.(c := WithNode(s.c, n, WroteEventLate(s.c.nodes[n], n, kind, payload, h)), eventTicks := s.eventTicks - {(n, h)})
    case MergeEvents(rep) =>
      s.(c := WithNode(s.c, rep.call.client, EventsMerged(s.c.nodes[rep.call.client], rep)), mergedEvents := s.mergedEvents + {rep})
    case ShowEvents(rep) =>
      s.(c := WithNode(s.c, rep.call.client, EventsShown(s.c.nodes[rep.call.client], rep)), mergedEvents := s.mergedEvents - {rep})
  }

  ghost predicate IsTornRun(states: seq<TornState>, steps: seq<TornStep>) {
    && |states| == |steps| + 1
    && forall i :: 0 <= i < |steps| ==> TornStepAt(states, steps, i)
  }

  ghost predicate TornStepAt(states: seq<TornState>, steps: seq<TornStep>, i: nat)
    requires i < |steps| < |states|
  {
    TornEnabled(states[i], steps[i]) && states[i + 1] == TornDo(states[i], steps[i])
  }

  // ------------------------------------------------------------ halves that meet

  /** The two halves of a merge, one right after the other, are the whole. */
  lemma HalvesOfTake(s: TornState, rep: Reply)
    requires rep in s.c.replies && rep.call.client in s.c.nodes && rep !in s.merged
    ensures var mid := TornDo(s, MergeRows(rep));
            TornEnabled(mid, ShowClock(rep)) && TornDo(mid, ShowClock(rep)) == TornDo(s, Whole(TakeRows(rep)))
  {
    var n := rep.call.client;
    var mid := TornDo(s, MergeRows(rep));
    assert mid.c.nodes[n := Shown(mid.c.nodes[n], rep)] == s.c.nodes[n := RowsTaken(s.c.nodes[n], rep)];
    assert s.merged + {rep} - {rep} == s.merged;
  }

  /** And so are those of storing events. */
  lemma HalvesOfTakeEvents(s: TornState, rep: Reply)
    requires rep in s.c.replies && rep.call.client in s.c.nodes && rep !in s.mergedEvents
    ensures var mid := TornDo(s, MergeEvents(rep));
            TornEnabled(mid, ShowEvents(rep)) && TornDo(mid, ShowEvents(rep)) == TornDo(s, Whole(TakeEvents(rep)))
  {
    var n := rep.call.client;
    var mid := TornDo(s, MergeEvents(rep));
    assert mid.c.nodes[n := EventsShown(mid.c.nodes[n], rep)] == s.c.nodes[n := EventsTaken(s.c.nodes[n], rep)];
    assert s.mergedEvents + {rep} - {rep} == s.mergedEvents;
  }

  /** A tick, its row and its event, one right after the other, are the whole. */
  lemma PartsOfLocal(s: TornState, n: Str, now: int, op: RowOp, kind: EventType, payload: map<Str, Str>)
    requires n in s.c.nodes && OpAllowed(s.c.nodes[n], n, op)
    requires (n, TickFrom(s.c.nodes[n].clock, now)) !in s.ticks && (n, TickFrom(s.c.nodes[n].clock, now)) !in s.eventTicks
    ensures var h := TickFrom(s.c.nodes[n].clock, now);
            var ticked := TornDo(s, TickOnly(n, now));
            && TornEnabled(ticked, WriteLate(n, op, h))
            && var wrote := TornDo(ticked, WriteLate(n, op, h));
               && wrote.c == TornDo(s, Whole(Local(n, now, op, Silent))).c
               && TornEnabled(wrote, EmitLate(n, kind, payload, h))
               && TornDo(wrote, EmitLate(n, kind, payload, h)) == TornDo(s, Whole(Local(n, now, op, Emit(kind, payload))))
  {
    var h := TickFrom(s.c.nodes[n].clock, now);
    var ticked := TornDo(s, TickOnly(n, now));
    var wrote := TornDo(ticked, WriteLate(n, op, h));
    assert s.c.nodes[n].log + [] == s.c.nodes[n].log;
    assert WroteLate(ticked.c.nodes[n], n, op, h) == LocalNode(s.c.nodes[n], n, now, op, Silent);
    assert wrote.c.nodes == s.c.nodes[n := LocalNode(s.c.nodes[n], n, now, op, Silent)];
    assert WroteEventLate(wrote.c.nodes[n], n, kind, payload, h) == LocalNode(s.c.nodes[n], n, now, op, Emit(kind, payload));
    assert wrote.c.nodes[n := WroteEventLate(wrote.c.nodes[n], n, kind, payload, h)]
        == s.c.nodes[n := LocalNode(s.c.nodes[n], n, now, op, Emit(kind, payload))];
    assert s.ticks + {(n, h)} - {(n, h)} == s.ticks && s.eventTicks + {(n, h)} - {(n, h)} == s.eventTicks;
  }

  // ------------------------------------------------------------ a write inside a merge

  /** A remote row beats a write that this node stamps now: its timestamp is ahead of both
      the clock and the wall, or level with the one that leads and its counter further on,
      or the stamps are equal and its owner greater. */
  predicate Outruns(r: Row, clock: HLC, now: int, owner: Str) {
    if now > clock.ts then
      r.hlc.ts > now || (r.hlc.ts == now && (r.hlc.ctr > 0 || (r.hlc.ctr == 0 && Less(owner, r.owner))))
    else
      r.hlc.ts > clock.ts
      || (r.hlc.ts == clock.ts && (r.hlc.ctr > clock.ctr + 1 || (r.hlc.ctr == clock.ctr + 1 && Less(owner, r.owner))))
  }

  lemma OutrunsIsNewer(r: Row, clock: HLC, now: int, w: Row)
    requires w.hlc == TickFrom(clock, now)
    ensures Outruns(r, clock, now, w.owner) <==> Newer(r, w)
  {
  }

  /** Overwriting rows loses something if and only if one of the rows replaced beats the
      row that replaces it. */
  lemma OverwriteKeepsExactly(rows: Rows, d: Rows)
    requires WellKeyed(rows) && WellKeyed(d)
    ensures KeepsAll(rows, rows + d) <==> forall k :: k in d && k in rows ==> AtLeast(d[k], rows[k])
  {
    if KeepsAll(rows, rows + d) {
      forall k | k in d && k in rows ensures AtLeast(d[k], rows[k]) {
        AtLeastReflexive(rows[k]);
        assert Covers(rows, rows[k]);
        assert Covers(rows + d, rows[k]);
      }
    }
    if forall k :: k in d && k in rows ==> AtLeast(d[k], rows[k]) {
      forall v | Covers(rows, v) ensures Covers(rows + d, v) {
        if KeyOf(v) in d {
          AtLeastTransitive(d[KeyOf(v)], rows[KeyOf(v)], v);
        }
      }
    }
  }

  lemma PutLosesExactly(rows: Rows, w: Row)
    requires WellKeyed(rows)
    ensures KeepsAll(rows, PutRow(rows, w)) <==> KeyOf(w) !in rows || AtLeast(w, rows[KeyOf(w)])
  {
    OverwriteKeepsExactly(rows, map[KeyOf(w) := w]);
    assert rows + map[KeyOf(w) := w] == PutRow(rows, w);
  }

  /** After a merge, the row of w's key is at most w if and only if no row that was merged
      or stored for that key outruns it. */
  lemma MergedRowBeatenExactly(rows: Rows, batch: seq<Row>, clock: HLC, now: int, w: Row)
    requires WellKeyed(rows) && w.hlc == TickFrom(clock, now)
    ensures var out := JoinBatch(rows, batch);
            (KeyOf(w) !in out || AtLeast(w, out[KeyOf(w)]))
            <==> forall r :: (r in batch || Holds(rows, r)) && KeyOf(r) == KeyOf(w) ==> !Outruns(r, clock, now, w.owner)
  {
    var k, out := KeyOf(w), JoinBatch(rows, batch);
    JoinBatchIsJoin(rows, batch);
    forall r | (r in batch || Holds(rows, r)) && KeyOf(r) == k ensures k in out && AtLeast(out[k], r) {
      assert r in batch ==> Covers(out, r);
    }
    if k in out {
      if AtLeast(w, out[k]) {
        forall r | (r in batch || Holds(rows, r)) && KeyOf(r) == k ensures !Outruns(r, clock, now, w.owner) {
          AtLeastTransitive(w, out[k], r);
          OutrunsIsNewer(r, clock, now, w);
        }
      } else {
        OutrunsIsNewer(out[k], clock, now, w);
        assert out[k] in batch || Holds(rows, out[k]);
      }
    }
  }

  /** The torn merge, exactly, also while other merges of the node are unfinished: a write
      that falls between the merge of a batch and the clock update loses something its node
      had if and only if some row for the same key, from this batch or already stored,
      outruns the clock and the wall as they stand. */
  lemma TornMergeLosesExactly(rows: Rows, batch: seq<Row>, clock: HLC, now: int, w: Row)
    requires WellKeyed(rows) && w.hlc == TickFrom(clock, now)
    ensures KeepsAll(JoinBatch(rows, batch), PutRow(JoinBatch(rows, batch), w))
            <==> forall r :: (r in batch || Holds(rows, r)) && KeyOf(r) == KeyOf(w) ==> !Outruns(r, clock, now, w.owner)
  {
    JoinBatchIsJoin(rows, batch);
    PutLosesExactly(JoinBatch(rows, batch), w);
    MergedRowBeatenExactly(rows, batch, clock, now, w);
  }

  /** After the update nothing is lost, if the clock was above the rows before the merge: no
      other merge of the node is unfinished. */
  lemma WholeMergeLosesNothing(rows: Rows, batch: seq<Row>, clock: HLC, now: int, w: Row)
    requires RowsIssued(rows, clock) && w.hlc == TickFrom(ClockAfterRows(clock, batch), now)
    ensures KeepsAll(JoinBatch(rows, batch), PutRow(JoinBatch(rows, batch), w))
  {
    var k, out := KeyOf(w), JoinBatch(rows, batch);
    JoinBatchIsJoin(rows, batch);
    RowsMaxIsMax(batch);
    PutLosesExactly(out, w);
  }

  // ------------------------------------------------------------ torn runs

  ghost predicate TornPath(states: seq<TornState>, steps: seq<TornStep>, s: TornState, d: TornState) {
    IsTornRun(states, steps) && states[0] == s && states[|steps|] == d
  }

  lemma TornOne(s: TornState, step: TornStep) returns (states: seq<TornState>)
    requires TornEnabled(s, step)
    ensures TornPath(states, [step], s, TornDo(s, step))
  {
    states := [s, TornDo(s, step)];
    assert TornStepAt(states, [step], 0);
  }

  lemma TornJoin(s: seq<TornState>, p: seq<TornStep>, t: seq<TornState>, q: seq<TornStep>, a: TornState, b: TornState, d: TornState)
    returns (states: seq<TornState>)
    requires TornPath(s, p, a, b) && TornPath(t, q, b, d)
    ensures TornPath(states, p + q, a, d) && forall i :: 0 <= i <= |q| ==> states[|p| + i] == t[i]
  {
    states := s + t[1..];
    forall i | 0 <= i < |p + q| ensures TornStepAt(states, p + q, i) {
      if i < |p| {
        assert TornStepAt(s, p, i);
      } else {
        assert TornStepAt(t, q, i - |p|);
        assert states[i] == t[i - |p|];
      }
    }
  }

  /** A run of whole steps is a torn run. */
  lemma Lift(states: seq<State>, steps: seq<Step>, s: TornState, d: State) returns (ts: seq<TornState>, ps: seq<TornStep>)
    requires Path(states, steps, s.c, d)
    ensures TornPath(ts, ps, s, s.(c := d))
  {
    ts := seq(|states|, i requires 0 <= i < |states| => s.(c := states[i]));
    ps := seq(|steps|, i requires 0 <= i < |steps| => Whole(steps[i]));
    forall i | 0 <= i < |ps| ensures TornStepAt(ts, ps, i) {
      assert StepAt(states, steps, i);
    }
  }

  ghost predicate TornInit(s: TornState) {
    Init(s.c) && s.merged == {} && s.ticks == {} && s.mergedEvents == {} && s.eventTicks == {}
  }

  // ------------------------------------------------------------ a row goes back

  /** B writes a label in millisecond 10; A's wall still reads 1. */
  const THEIRS := Row(Meta, KEY, ApiOwner(B), HLC(10, 0), false, LabelPayload(map[]))
  const OURS := Row(Meta, KEY, ApiOwner(A), HLC(1, 0), true, LabelPayload(map[]))
  const BURY := DeleteOp(Meta, KEY, ApiOwner(A))

  ghost function Ahead(): NodeState { Holder(HLC(10, 0), THEIRS, map[], {THEIRS}, 10) }

  /** A with B's label merged, then buried under a stamp from the clock that has not seen
      it, then with the clock brought up. */
  ghost function Behind(): NodeState { Holder(ZERO, THEIRS, OneMark(B, Meta, 10), {}, 0) }
  ghost function Lost(): NodeState { Holder(HLC(1, 0), OURS, OneMark(B, Meta, 10), {OURS}, 1) }
  ghost function LostAndShown(): NodeState { Lost().(clock := HLC(10, 0)) }

  lemma WriteAhead()
    ensures LocalNode(FRESH, B, 10, PutOp(Meta, KEY, ApiOwner(B), LabelPayload(map[])), Silent) == Ahead()
  {
    OneValue(RowKey(Meta, KEY), THEIRS);
    assert EMPTY.rows + map[RowKey(Meta, KEY) := THEIRS] == Ahead().tables.rows;
  }

  lemma BuryBehind()
    ensures LocalNode(Behind(), A, 1, BURY, Silent) == Lost()
  {
    OneValue(RowKey(Meta, KEY), OURS);
    assert Behind().tables.rows + map[RowKey(Meta, KEY) := OURS] == Lost().tables.rows;
  }

  lemma MergeAhead(rep: Reply)
    requires rep.resp.rows == [THEIRS] && rep.call.server == B
    ensures Merged(FRESH, rep) == Behind() && Shown(Lost(), rep) == LostAndShown()
  {
    TakeOne(FRESH, rep, THEIRS);
    TakeOne(Lost(), rep, THEIRS);
  }

  /** B writes, and A's call is answered. */
  lemma AnswerInFlight() returns (states: seq<State>, steps: seq<Step>, d: State, rep: Reply)
    ensures Path(states, steps, Duo(), d) && d.nodes == map[A := FRESH, B := Ahead()]
    ensures rep in d.replies && rep.call.client == A && rep.call.server == B && rep.resp.rows == [THEIRS]
  {
    WriteAhead();
    var s, c := LocalStep(Duo(), B, 10, PutOp(Meta, KEY, ApiOwner(B), LabelPayload(map[])), Ahead());
    var p := [Local(B, 10, PutOp(Meta, KEY, ApiOwner(B), LabelPayload(map[])), Silent)];
    var resp := OneRowAnswer(B, Ahead().tables, THEIRS);
    OneRowAnswers(FRESH.tables, B, Ahead().tables, THEIRS);
    rep := HonestReply(c, A, B, resp);
    var t := AskAndServe(c, A, B, resp);
    d := Served(Asked(c, rep.call), rep);
    states := Join(s, p, t, [Ask(rep.call), Serve(rep)], Duo(), c, d);
    steps := p + [Ask(rep.call), Serve(rep)];
  }

  /** The three torn steps: merge, bury, show the clock. */
  lemma BuryInsideMerge(s: TornState, rep: Reply) returns (states: seq<TornState>, steps: seq<TornStep>, d: TornState)
    requires s.c.nodes == map[A := FRESH, B := Ahead()]
    requires rep in s.c.replies && rep.call.client == A && rep.call.server == B && rep.resp.rows == [THEIRS]
    ensures TornPath(states, steps, s, d) && |steps| == 3
    ensures states[1].c.nodes == map[A := Behind(), B := Ahead()]
    ensures d.c.nodes == map[A := LostAndShown(), B := Ahead()]
  {
    MergeAhead(rep);
    BuryBehind();
    var m := TornDo(s, MergeRows(rep));
    assert m.c.nodes == map[A := Behind(), B := Ahead()];
    var w := TornDo(m, Whole(Local(A, 1, BURY, Silent)));
    assert w.c.nodes == map[A := Lost(), B := Ahead()];
    d := TornDo(w, ShowClock(rep));
    states := [s, m, w, d];
    steps := [MergeRows(rep), Whole(Local(A, 1, BURY, Silent)), ShowClock(rep)];
    assert TornStepAt(states, steps, 0) && TornStepAt(states, steps, 1) && TornStepAt(states, steps, 2);
  }

  /** A pull with the client's true watermarks and checksums changes no row. */
  ghost predicate PullsNoChange(client: Tables, peer: Str, server: Tables) {
    forall resp :: IsAnswer(server, RequestFor(client, peer), resp) ==> JoinBatch(client.rows, resp.rows) == client.rows
  }

  /** The raised watermark hides what was lost, and A's table has nothing live to hash. */
  lemma LostStaysLost()
    ensures PullsNothing(LostAndShown().tables, B, Ahead().tables)
  {
    NoLiveRowsNoSum(LostAndShown().tables.rows, Meta);
    HiddenBelowMarks(LostAndShown().tables, B, Ahead().tables);
  }

  /** And B refuses A's older row. */
  lemma AheadStays()
    ensures PullsNoChange(Ahead().tables, A, LostAndShown().tables)
  {
    var rows := Ahead().tables.rows;
    forall resp | IsAnswer(LostAndShown().tables, RequestFor(Ahead().tables, A), resp)
      ensures JoinBatch(rows, resp.rows) == rows
    {
      forall r | r in resp.rows ensures Covers(rows, r) {
        assert Holds(LostAndShown().tables.rows, r);
        assert r == OURS;
      }
      CoveredBatchIsNoOp(rows, resp.rows);
    }
  }

  /** A torn merge can make a row go back for good: A merges B's label, buries it under a
      stamp from the clock that has not seen it, and only then shows it to the clock. A's
      row is now older than one it held, and however often the two pull from each other,
      with their true watermarks and checksums, A gets no rows and B keeps its own. */
  lemma TornMergeCanDiverge() returns (states: seq<TornState>, steps: seq<TornStep>, i: nat, r: Row)
    ensures IsTornRun(states, steps) && TornInit(states[0]) && i < |steps|
    ensures var was, d := states[i].c, states[|steps|].c;
            && A in was.nodes && Holds(was.nodes[A].tables.rows, r)
            && A in d.nodes && B in d.nodes && !Covers(d.nodes[A].tables.rows, r) && Holds(d.nodes[B].tables.rows, r)
            && PullsNothing(d.nodes[A].tables, B, d.nodes[B].tables)
            && PullsNoChange(d.nodes[B].tables, A, d.nodes[A].tables)
  {
    StartsAreInit();
    var s := TornState(Duo(), {}, {}, {}, {});
    var s1, p1, c1, rep := AnswerInFlight();
    var t1, q1 := Lift(s1, p1, s, c1);
    var t2, q2, d := BuryInsideMerge(s.(c := c1), rep);
    states := TornJoin(t1, q1, t2, q2, s, s.(c := c1), d);
    steps, i, r := q1 + q2, |q1| + 1, THEIRS;
    assert states[|q1| + 1] == t2[1];
    LostStaysLost();
    AheadStays();
  }

  // ------------------------------------------------------------ a write goes unseen

  const LATE := Label(A, 1)
  const LATER := Row(Meta, OTHER, ApiOwner(A), HLC(2, 0), true, NoPayload)
  const DROP_OTHER := DeleteOp(Meta, OTHER, ApiOwner(A))

  /** A after the first tick, after the second tick and its write, and after the first
      tick's write. */
  ghost function Ticking(): NodeState { FRESH.(clock := HLC(1, 0), wall := 1) }
  ghost function Overtaken(): NodeState { Holder(HLC(2, 0), LATER, map[], {LATER}, 2) }
  ghost function CaughtUp(): NodeState {
    Overtaken().(tables := Overtaken().tables.(rows := map[KeyOf(LATER) := LATER, KeyOf(LATE) := LATE]),
                 writes := {LATER, LATE})
  }
  ghost function Passed(): NodeState { Holder(HLC(2, 0), LATER, OneMark(A, Meta, 2), {}, 0) }

  lemma Overtake()
    ensures LocalNode(Ticking(), A, 2, DROP_OTHER, Silent) == Overtaken()
  {
    OneValue(RowKey(Meta, OTHER), LATER);
    assert EMPTY.rows + map[RowKey(Meta, OTHER) := LATER] == Overtaken().tables.rows;
  }

  lemma CatchUp()
    ensures WroteLate(Overtaken(), A, Relabel(A), HLC(1, 0)) == CaughtUp()
  {
    OneValue(RowKey(Meta, KEY), LATE);
    assert Overtaken().tables.rows + map[RowKey(Meta, KEY) := LATE] == CaughtUp().tables.rows;
    assert {LATER} + {LATE} == {LATER, LATE};
  }

  /** A's second write, and B's pull of it. */
  lemma OvertakenAndPulled(c: State) returns (states: seq<State>, steps: seq<Step>, d: State)
    requires c.nodes == map[A := Ticking(), B := FRESH]
    ensures Path(states, steps, c, d) && d.nodes == map[A := Overtaken(), B := Passed()]
  {
    Overtake();
    var s, mid := LocalStep(c, A, 2, DROP_OTHER, Overtaken());
    var p := [Local(A, 2, DROP_OTHER, Silent)];
    assert OneTaken(FRESH, A, LATER) == Passed();
    var t, q, d', rep := PullOne(mid, B, A, LATER, Passed());
    states := Join(s, p, t, q, c, mid, d');
    steps, d := p + q, d';
  }

  lemma FirstTick(s: TornState) returns (states: seq<TornState>, steps: seq<TornStep>, d: TornState)
    requires s.c.nodes == map[A := FRESH, B := FRESH]
    ensures TornPath(states, steps, s, d)
    ensures d.c.nodes == map[A := Ticking(), B := FRESH] && (A, HLC(1, 0)) in d.ticks
  {
    states := TornOne(s, TickOnly(A, 1));
    steps, d := [TickOnly(A, 1)], TornDo(s, TickOnly(A, 1));
  }

  lemma WritesLate(s: TornState) returns (states: seq<TornState>, steps: seq<TornStep>, d: TornState)
    requires s.c.nodes == map[A := Overtaken(), B := Passed()] && (A, HLC(1, 0)) in s.ticks
    ensures TornPath(states, steps, s, d) && d.c.nodes == map[A := CaughtUp(), B := Passed()]
  {
    CatchUp();
    var late := WriteLate(A, Relabel(A), HLC(1, 0));
    states := TornOne(s, late);
    steps, d := [late], TornDo(s, late);
  }

  lemma UnseenStaysUnseen()
    ensures PullsNothing(Passed().tables, A, CaughtUp().tables)
  {
    NoLiveRowsNoSum(Passed().tables.rows, Meta);
    HiddenBelowMarks(Passed().tables, A, CaughtUp().tables);
  }

  /** A late write can go unseen for good: between a tick and its write, A ticks again,
      writes, and is pulled by B. The first tick's row then lies below B's watermark for A,
      although A wrote it itself, and no pull of B's brings it. */
  lemma LateWriteCanBeSkipped() returns (states: seq<TornState>, steps: seq<TornStep>, w: Row)
    ensures IsTornRun(states, steps) && TornInit(states[0])
    ensures var d := states[|steps|].c;
            && A in d.nodes && B in d.nodes
            && w in d.nodes[A].writes && Holds(d.nodes[A].tables.rows, w) && !w.tombstone
            && !After(w.hlc, Mark(d.nodes[B].tables.marks, A, w.kind)) && !Covers(d.nodes[B].tables.rows, w)
            && PullsNothing(d.nodes[B].tables, A, d.nodes[A].tables)
  {
    StartsAreInit();
    var s := TornState(Duo(), {}, {}, {}, {});
    var t1, q1, s1 := FirstTick(s);
    var r2, p2, c2 := OvertakenAndPulled(s1.c);
    var t2, q2 := Lift(r2, p2, s1, c2);
    var s2 := s1.(c := c2);
    var t12 := TornJoin(t1, q1, t2, q2, s, s1, s2);
    var t3, q3, s3 := WritesLate(s2);
    states := TornJoin(t12, q1 + q2, t3, q3, s, s2, s3);
    steps, w := q1 + q2 + q3, LATE;
    UnseenStaysUnseen();
  }

  // ------------------------------------------------------------ two writers of one key

  ghost function Second(): NodeState { Holder(HLC(2, 0), Label(A, 2), map[], {Label(A, 2)}, 2) }
  ghost function Back(): NodeState { Holder(HLC(2, 0), Label(A, 1), map[], {Label(A, 2), Label(A, 1)}, 2) }

  lemma SecondThenFirst()
    ensures LocalNode(Ticking(), A, 2, Relabel(A), Silent) == Second()
    ensures WroteLate(Second(), A, Relabel(A), HLC(1, 0)) == Back()
  {
    OneValue(RowKey(Meta, KEY), Label(A, 2));
    OneValue(RowKey(Meta, KEY), Label(A, 1));
    assert EMPTY.rows + map[RowKey(Meta, KEY) := Label(A, 2)] == Second().tables.rows;
    assert Second().tables.rows + map[RowKey(Meta, KEY) := Label(A, 1)] == Back().tables.rows;
    assert {Label(A, 2)} + {Label(A, 1)} == {Label(A, 2), Label(A, 1)};
  }

  lemma BothWritten(s: TornState) returns (states: seq<TornState>, steps: seq<TornStep>, d: TornState)
    requires s.c.nodes == map[A := Ticking(), B := FRESH] && (A, HLC(1, 0)) in s.ticks
    ensures TornPath(states, steps, s, d) && |steps| == 2
    ensures states[1].c.nodes == map[A := Second(), B := FRESH] && d.c.nodes == map[A := Back(), B := FRESH]
  {
    SecondThenFirst();
    steps := [Whole(Local(A, 2, Relabel(A), Silent)), WriteLate(A, Relabel(A), HLC(1, 0))];
    var mid := TornDo(s, steps[0]);
    assert mid.c.nodes == map[A := Second(), B := FRESH];
    d := TornDo(mid, steps[1]);
    states := [s, mid, d];
    assert TornStepAt(states, steps, 0) && TornStepAt(states, steps, 1);
  }

  /** Two requests for one runner's labels at one node: the first ticks, the second ticks
      and writes, and then the first writes. The row goes from stamp 2 back to stamp 1. */
  lemma LateWriteCanGoBack() returns (states: seq<TornState>, steps: seq<TornStep>, i: nat, r: Row)
    ensures IsTornRun(states, steps) && TornInit(states[0]) && i < |steps|
    ensures A in states[i].c.nodes && Holds(states[i].c.nodes[A].tables.rows, r)
    ensures A in states[|steps|].c.nodes && !Covers(states[|steps|].c.nodes[A].tables.rows, r)
  {
    StartsAreInit();
    var s := TornState(Duo(), {}, {}, {}, {});
    var t1, q1, s1 := FirstTick(s);
    var t2, q2, s2 := BothWritten(s1);
    states := TornJoin(t1, q1, t2, q2, s, s1, s2);
    steps, i, r := q1 + q2, |q1| + 1, Label(A, 2);
    assert states[|q1| + 1] == t2[1];
  }
}
