/** The agent: it samples its host every tick, drains itself under sustained
    pressure, and reports membership changes. Each method is one local step of the
    cluster model. */
module Agents {
  import opened Text
  import opened Hlc
  import opened Model
  import opened Storage
  import opened Cluster

  const STREAK: nat := 5

  /** The agent's counters. */
  datatype Drain = Drain(high: nat, normal: nat, draining: bool)

  const CALM := Drain(0, 0, false)

  predicate IsHot(r: RunnerInfo) {
    r.cpuUtil >= 0.90 || r.memUtil >= 0.90 || r.freeDiskMB < 2000
  }

  function DrainStep(d: Drain, hot: bool): Drain {
    var high := if hot then d.high + 1 else 0;
    var normal := if hot then 0 else d.normal + 1;
    Drain(high, normal, if high >= STREAK then true else if normal >= STREAK then false else d.draining)
  }

  /** The counters after a history of ticks. */
  function DrainAfter(ticks: seq<bool>): Drain {
    if ticks == [] then CALM else DrainStep(DrainAfter(ticks[..|ticks| - 1]), ticks[|ticks| - 1])
  }

  datatype MemberEvent = MemberJoin(id: Str, ip: Str) | MemberLeave(id: Str, ip: Str) | MemberUpdate(id: Str) | MemberUnknown

  const NODE_ID: Str := [110, 111, 100, 101, 95, 105, 100]
  const IP: Str := [105, 112]

  function MemberPayload(id: Str, ip: Str): map<Str, Str> {
    map[NODE_ID := id, IP := ip]
  }

  /** What a membership event makes the agent write. */
  function MemberOp(ev: MemberEvent): RowOp {
    if ev.MemberLeave? then PruneOp(ev.id) else NoRow
  }

  function MemberEmission(ev: MemberEvent): Emission {
    match ev
    case MemberJoin(id, ip) => Emit(RunnerJoined, MemberPayload(id, ip))
    case MemberLeave(id, ip) => Emit(RunnerLeft, MemberPayload(id, ip))
    case MemberUpdate(_) => Silent
    case MemberUnknown => Silent
  }

  ghost predicate Appended(was: Events, now: Events, e: LogEvent) {
    EventKeyOf(e) !in was && now == was[EventKeyOf(e) := e]
  }

  /** What a membership event stamped h leaves of the tables, on the fields. A departure
      buries the live rows whose owner starts with the departed id and a slash, and nothing
      else touches a row. A departure is logged as such and so is a join, with the id under
      "node_id" and the address under "ip"; nothing else is logged. */
  ghost predicate MemberEffect(was: Tables, now: Tables, node: Str, ev: MemberEvent, h: HLC) {
    && now.marks == was.marks
    && (!ev.MemberLeave? ==> now.rows == was.rows)
    && (ev.MemberLeave? ==>
          && now.rows.Keys == was.rows.Keys
          && forall k :: k in was.rows ==>
               now.rows[k] == if !was.rows[k].tombstone && StartsWithId(was.rows[k].owner, ev.id)
                              then was.rows[k].(tombstone := true, hlc := h) else was.rows[k])
    && match ev
       case MemberJoin(id, ip) =>
         exists num :: Appended(was.events, now.events,
                         LogEvent(node, num, RunnerJoined, map[[110, 111, 100, 101, 95, 105, 100] := id, [105, 112] := ip], h))
       case MemberLeave(id, ip) =>
         exists num :: Appended(was.events, now.events,
                         LogEvent(node, num, RunnerLeft, map[[110, 111, 100, 101, 95, 105, 100] := id, [105, 112] := ip], h))
       case MemberUpdate(_) => now.events == was.events
       case MemberUnknown => now.events == was.events
  }

  lemma MemberLands(t: Tables, node: Str, ev: MemberEvent, h: HLC)
    ensures MemberEffect(t, LocalTables(t, node, MemberOp(ev), MemberEmission(ev), h), node, ev, h)
  {
    match ev {
      case MemberJoin(id, ip) =>
        var num := EmissionLands(t.events, node, RunnerJoined, MemberPayload(id, ip), h);
        assert t.rows + map[] == t.rows;
        assert Appended(t.events, EventsAfter(t.events, node, Emit(RunnerJoined, MemberPayload(id, ip)), h),
                        LogEvent(node, num, RunnerJoined, MemberPayload(id, ip), h));
      case MemberLeave(id, ip) =>
        var num := EmissionLands(t.events, node, RunnerLeft, MemberPayload(id, ip), h);
        PruneLands(t.rows, id, h);
        assert Appended(t.events, EventsAfter(t.events, node, Emit(RunnerLeft, MemberPayload(id, ip)), h),
                        LogEvent(node, num, RunnerLeft, MemberPayload(id, ip), h));
      case MemberUpdate(_) =>
        assert t.rows + map[] == t.rows;
      case MemberUnknown =>
        assert t.rows + map[] == t.rows;
    }
  }

  class Agent {
    const node: Str
    const epoch: Str
    const store: Store
    const clock: Clock
    var highMetricsCount: nat
    var normalMetricsCount: nat
    var isDraining: bool

    function Counters(): Drain
      reads this
    {
      Drain(highMetricsCount, normalMetricsCount, isDraining)
    }

    constructor (node: Str, epoch: Str, store: Store, clock: Clock)
      ensures Counters() == CALM
      ensures this.node == node && this.epoch == epoch && this.store == store && this.clock == clock
    {
      this.node, this.epoch, this.store, this.clock := node, epoch, store, clock;
      highMetricsCount, normalMetricsCount, isDraining := 0, 0, false;
    }

    method PutRow(kind: Kind, key: Str, payload: Payload, h: HLC)
      requires store.Valid()
      modifies store
      ensures store.Valid()
      ensures store.Contents() == LocalTables(old(store.Contents()), node, PutOp(kind, key, AgentOwner(node, epoch), payload), Silent, h)
    {
      store.Put(Row(kind, key, AgentOwner(node, epoch), h, false, payload));
      assert store.rows == old(store.rows) + map[RowKey(kind, key) := Row(kind, key, AgentOwner(node, epoch), h, false, payload)];
    }

    /** The first report: one tick stamps both the row and the join event. */
    method Start(now: int, snapshot: RunnerInfo)
      requires store.Valid()
      modifies store, clock
      ensures store.Valid()
      ensures clock.Value() == TickFrom(old(clock.Value()), now)
      ensures store.Contents() == LocalTables(old(store.Contents()), node,
                PutOp(Runner, snapshot.id, AgentOwner(node, epoch), RunnerPayload(snapshot.(status := Active))),
                Emit(RunnerJoined, map[]), clock.Value())
    {
      var h := clock.Tick(now);
      var runner := snapshot.(status := Active);
      PutRow(Runner, runner.id, RunnerPayload(runner), h);
      store.AppendEvent(node, RunnerJoined, map[], h);
    }

    method Step(now: int, snapshot: RunnerInfo)
      requires store.Valid()
      modifies this, store, clock
      ensures store.Valid()
      ensures Counters() == DrainStep(old(Counters()), IsHot(snapshot))
      ensures clock.Value() == TickFrom(old(clock.Value()), now)
      ensures store.Contents() == LocalTables(old(store.Contents()), node,
                PutOp(Runner, snapshot.id, AgentOwner(node, epoch),
                      RunnerPayload(snapshot.(status := if Counters().draining then Draining else Active))),
                Silent, clock.Value())
    {
      var h := clock.Tick(now);
      var runner := snapshot;
      var isHot := runner.cpuUtil >= 0.90 || runner.memUtil >= 0.90 || runner.freeDiskMB < 2000;
      if isHot {
        highMetricsCount := highMetricsCount + 1;
        normalMetricsCount := 0;
      } else {
        normalMetricsCount := normalMetricsCount + 1;
        highMetricsCount := 0;
      }
      if highMetricsCount >= 5 {
        isDraining := true;
      } else if normalMetricsCount >= 5 {
        isDraining := false;
      }
      if isDraining {
        runner := runner.(status := Draining);
      } else {
        runner := runner.(status := Active);
      }
      PutRow(Runner, runner.id, RunnerPayload(runner), h);
    }

    /** One membership event: every one ticks, a departure prunes, and joins and
        departures are logged under the same stamp. */
    method OnMember(now: int, ev: MemberEvent)
      requires store.Valid()
      modifies store, clock
      ensures store.Valid()
      ensures clock.Value() == TickFrom(old(clock.Value()), now)
      ensures store.Contents() == LocalTables(old(store.Contents()), node, MemberOp(ev), MemberEmission(ev), clock.Value())
      ensures MemberEffect(old(store.Contents()), store.Contents(), node, ev, clock.Value())
    {
      var h := clock.Tick(now);
      MemberLands(store.Contents(), node, ev, h);
      match ev {
        case MemberJoin(id, ip) =>
          store.AppendEvent(node, RunnerJoined, MemberPayload(id, ip), h);
        case MemberLeave(id, ip) =>
          store.DeleteByNode(id, h);
          store.AppendEvent(node, RunnerLeft, MemberPayload(id, ip), h);
        case MemberUpdate(_) =>
        case MemberUnknown =>
      }
      assert old(store.rows) + map[] == old(store.rows);
    }
  }

  // ------------------------------------------------------------ drain hysteresis

  /** The five ticks ending before position i all read v. */
  ghost predicate StreakEnds(ticks: seq<bool>, i: nat, v: bool) {
    STREAK <= i <= |ticks| && forall m :: i - STREAK <= m < i ==> ticks[m] == v
  }

  /** The last n ticks all read v. */
  ghost predicate Trailing(ticks: seq<bool>, n: nat, v: bool) {
    n <= |ticks| && forall m :: |ticks| - n <= m < |ticks| ==> ticks[m] == v
  }

  /** Each counter is the length of the run of its reading that ends now, so at most one
      is not zero. */
  lemma {:induction false} CountersMeasureRuns(ticks: seq<bool>)
    ensures var d := DrainAfter(ticks);
            && (d.high == 0 || d.normal == 0)
            && Trailing(ticks, d.high, true) && (d.high < |ticks| ==> !ticks[|ticks| - 1 - d.high])
            && Trailing(ticks, d.normal, false) && (d.normal < |ticks| ==> ticks[|ticks| - 1 - d.normal])
  {
    if ticks != [] {
      var init := ticks[..|ticks| - 1];
      CountersMeasureRuns(init);
      assert ticks == init + [ticks[|ticks| - 1]];
    }
  }

  /** A counter has reached five exactly when five such ticks just ended. */
  lemma CounterSeesStreak(ticks: seq<bool>)
    ensures DrainAfter(ticks).high >= STREAK <==> StreakEnds(ticks, |ticks|, true)
    ensures DrainAfter(ticks).normal >= STREAK <==> StreakEnds(ticks, |ticks|, false)
  {
    CountersMeasureRuns(ticks);
  }

  /** Draining by history: five hot ticks in a row at some point, and no five normal
      ticks in a row since. */
  ghost predicate ShouldDrain(ticks: seq<bool>) {
    exists i: nat :: StreakEnds(ticks, i, true) && forall j: nat :: i < j ==> !StreakEnds(ticks, j, false)
  }

  /** After any sequence of ticks, the counters drain exactly when the history says so. */
  lemma {:induction false} DrainRefinesHistory(ticks: seq<bool>)
    ensures DrainAfter(ticks).draining <==> ShouldDrain(ticks)
  {
    if ticks == [] {
      assert !ShouldDrain(ticks);
    } else {
      var init := ticks[..|ticks| - 1];
      DrainRefinesHistory(init);
      CounterSeesStreak(ticks);
      StreaksOfPrefix(ticks);
      var d := DrainAfter(ticks);
      if d.high >= STREAK {
        assert StreakEnds(ticks, |ticks|, true);
      } else if d.normal >= STREAK {
        NoDrainAfterCalm(ticks);
      } else {
        QuietTickKeepsVerdict(ticks);
      }
    }
  }

  /** Streaks that end before the last tick are the streaks of the history without it. */
  lemma StreaksOfPrefix(ticks: seq<bool>)
    requires ticks != []
    ensures forall i: nat, v :: i < |ticks| ==> (StreakEnds(ticks, i, v) <==> StreakEnds(ticks[..|ticks| - 1], i, v))
  {
  }

  lemma NoDrainAfterCalm(ticks: seq<bool>)
    requires StreakEnds(ticks, |ticks|, false)
    ensures !ShouldDrain(ticks)
  {
    assert !StreakEnds(ticks, |ticks|, true) by {
      assert !ticks[|ticks| - 1];
    }
  }

  lemma QuietTickKeepsVerdict(ticks: seq<bool>)
    requires ticks != []
    requires !StreakEnds(ticks, |ticks|, true) && !StreakEnds(ticks, |ticks|, false)
    ensures ShouldDrain(ticks) <==> ShouldDrain(ticks[..|ticks| - 1])
  {
    var init := ticks[..|ticks| - 1];
    StreaksOfPrefix(ticks);
    if ShouldDrain(ticks) {
      var i: nat :| StreakEnds(ticks, i, true) && forall j: nat :: i < j ==> !StreakEnds(ticks, j, false);
      assert StreakEnds(init, i, true);
      forall j: nat | i < j ensures !StreakEnds(init, j, false) {
        assert j < |ticks| ==> !StreakEnds(ticks, j, false);
      }
    }
    if ShouldDrain(init) {
      var i: nat :| StreakEnds(init, i, true) && forall j: nat :: i < j ==> !StreakEnds(init, j, false);
      assert StreakEnds(ticks, i, true);
    }
  }

  /** The status changes at tick i. */
  ghost predicate FlipsAt(ticks: seq<bool>, i: nat) {
    1 <= i <= |ticks| && DrainAfter(ticks[..i]).draining != DrainAfter(ticks[..i - 1]).draining
  }

  /** A flip ends a streak of the reading that caused it. */
  lemma FlipEndsStreak(ticks: seq<bool>, i: nat)
    requires FlipsAt(ticks, i)
    ensures StreakEnds(ticks, i, DrainAfter(ticks[..i]).draining)
  {
    var now := ticks[..i];
    assert now[..|now| - 1] == ticks[..i - 1];
    CounterSeesStreak(now);
    var v := DrainAfter(now).draining;
    assert StreakEnds(now, i, v);
    forall m | i - STREAK <= m < i ensures ticks[m] == v {
      assert now[m] == v;
    }
  }

  /** While the readings agree with the status, the status stays. */
  lemma {:induction false} AgreementHolds(ticks: seq<bool>, i: nat, j: nat, v: bool)
    requires i <= j <= |ticks| && DrainAfter(ticks[..i]).draining == v
    requires i >= 1 && forall m :: i - 1 <= m < j ==> ticks[m] == v
    ensures DrainAfter(ticks[..j]).draining == v
    decreases j
  {
    if i < j {
      AgreementHolds(ticks, i, j - 1, v);
      var now := ticks[..j];
      assert now[..|now| - 1] == ticks[..j - 1];
      CountersMeasureRuns(now);
      assert now[j - 1] == v;
    }
  }

  /** Two status flips are always at least five ticks apart. */
  lemma FlipsAreApart(ticks: seq<bool>, i: nat, j: nat)
    requires i < j && FlipsAt(ticks, i) && FlipsAt(ticks, j)
    ensures j - i >= 5
  {
    FlipEndsStreak(ticks, i);
    FlipEndsStreak(ticks, j);
    var v := DrainAfter(ticks[..i]).draining;
    if j - i < STREAK && DrainAfter(ticks[..j]).draining == v {
      AgreementHolds(ticks, i, j - 1, v);
    }
  }

  // ------------------------------------------------------------ from snapshots to status

  /** What the agent reads off its snapshots. */
  function Readings(snapshots: seq<RunnerInfo>): seq<bool> {
    seq(|snapshots|, i requires 0 <= i < |snapshots| => IsHot(snapshots[i]))
  }

  /** Five snapshots in a row with the CPU or the memory at nine tenths or more, or less than
      2000 MB of disk free, leave the agent draining, whatever came before. */
  lemma FiveHotSnapshotsDrain(snapshots: seq<RunnerInfo>)
    requires |snapshots| >= 5
    requires forall i :: |snapshots| - 5 <= i < |snapshots| ==>
               snapshots[i].cpuUtil >= 0.90 || snapshots[i].memUtil >= 0.90 || snapshots[i].freeDiskMB < 2000
    ensures DrainAfter(Readings(snapshots)).draining
  {
    var ticks := Readings(snapshots);
    CounterSeesStreak(ticks);
    assert StreakEnds(ticks, |ticks|, true);
  }

  /** Five with none of the three leave it active. */
  lemma FiveCalmSnapshotsStop(snapshots: seq<RunnerInfo>)
    requires |snapshots| >= 5
    requires forall i :: |snapshots| - 5 <= i < |snapshots| ==>
               snapshots[i].cpuUtil < 0.90 && snapshots[i].memUtil < 0.90 && snapshots[i].freeDiskMB >= 2000
    ensures !DrainAfter(Readings(snapshots)).draining
  {
    var ticks := Readings(snapshots);
    CounterSeesStreak(ticks);
    CountersMeasureRuns(ticks);
    assert StreakEnds(ticks, |ticks|, false);
  }

  /** Four are never enough to start. */
  lemma FourDoNotDrain(snapshots: seq<RunnerInfo>)
    requires |snapshots| <= 4
    ensures !DrainAfter(Readings(snapshots)).draining
  {
    DrainRefinesHistory(Readings(snapshots));
  }
}
