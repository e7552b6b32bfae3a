/** The whole cluster as a transition system. Requests and replies live in sets. A
    reply stays until a step loses it, so it may be delayed, taken any number of times,
    reordered, or never taken; "in flight" means in the set.

    Each node carries, besides its clock and tables, three auxiliary histories
    that no step reads: the rows it wrote itself, the events it emitted itself,
    and its last wall reading. */
module Cluster {
  import opened Text
  import opened Hlc
  import opened Model
  import opened EventLog
  import opened Storage
  import opened Pull
  import opened Sync

  datatype NodeState = NodeState(
    clock: HLC, tables: Tables, epoch: Str,
    writes: set<Row>, log: seq<LogEvent>, wall: int)

  datatype Call = Call(client: Str, server: Str, req: Request)

  /** An answer, or a part of one, and the marks from which it answers each of its kinds. */
  datatype Reply = Reply(call: Call, starts: map<Kind, HLC>, resp: Response)

  datatype State = State(nodes: map<Str, NodeState>, calls: set<Call>, replies: set<Reply>, maxWall: int)

  /** What a tick may do to the rows table of its node. */
  datatype RowOp =
    | NoRow
    | PutOp(kind: Kind, key: Str, owner: Str, payload: Payload)   // agent row, label PUT
    | DeleteOp(kind: Kind, key: Str, owner: Str)                  // label DELETE
    | PruneOp(dead: Str)                                          // a member left
    | GcOp                                                        // tombstone collection

  datatype Emission = Silent | Emit(kind: EventType, payload: map<Str, Str>)

  datatype Step =
    | Local(node: Str, now: int, op: RowOp, emission: Emission)
    | Ask(call: Call)
    | Serve(reply: Reply)
    | TakeRows(reply: Reply)
    | TakeEvents(reply: Reply)
    | Lose(reply: Reply)

  function AgentOwner(node: Str, epoch: Str): Str {
    node + [SLASH] + epoch
  }

  function ApiOwner(node: Str): Str {
    API + [SLASH] + node
  }

  function Owners(node: Str, epoch: Str): set<Str> {
    {AgentOwner(node, epoch), ApiOwner(node)}
  }

  // ------------------------------------------------------------ local steps

  /** The rows an operation stamped h writes, by key. */
  function Delta(rows: Rows, op: RowOp, h: HLC): Rows {
    match op
    case NoRow => map[]
    case PutOp(kind, key, owner, payload) => map[RowKey(kind, key) := Row(kind, key, owner, h, false, payload)]
    case DeleteOp(kind, key, owner) => map[RowKey(kind, key) := Tombstone(rows, kind, key, owner, h)]
    case PruneOp(dead) => PruneDelta(rows, dead, h)
    case GcOp => map[]
  }

  /** A delta is filed under its keys and carries one stamp. */
  lemma DeltaCarries(rows: Rows, op: RowOp, h: HLC)
    requires WellKeyed(rows)
    ensures forall k :: k in Delta(rows, op, h) ==> KeyOf(Delta(rows, op, h)[k]) == k && Delta(rows, op, h)[k].hlc == h
  {
  }

  function RowsAfter(rows: Rows, op: RowOp, h: HLC): Rows {
    if op.GcOp? then rows - GcKeys(rows, GcLimit(h)) else rows + Delta(rows, op, h)
  }

  /** A put leaves the live row it was given, and every other key alone. */
  lemma PutLands(rows: Rows, kind: Kind, key: Str, owner: Str, payload: Payload, h: HLC)
    ensures var out := RowsAfter(rows, PutOp(kind, key, owner, payload), h);
            var k := RowKey(kind, key);
            && out.Keys == rows.Keys + {k}
            && out[k] == Row(kind, key, owner, h, false, payload)
            && (forall j :: j in rows && j != k ==> out[j] == rows[j])
  {
  }

  /** A delete leaves a tombstone under the caller's owner and stamp that keeps the payload
      it buries, and every other key alone. */
  lemma DeleteLands(rows: Rows, kind: Kind, key: Str, owner: Str, h: HLC)
    ensures var out := RowsAfter(rows, DeleteOp(kind, key, owner), h);
            var k := RowKey(kind, key);
            && out.Keys == rows.Keys + {k}
            && out[k].tombstone && KeyOf(out[k]) == k && out[k].owner == owner && out[k].hlc == h
            && (k in rows ==> out[k].payload == rows[k].payload) && (k !in rows ==> out[k].payload == NoPayload)
            && (forall j :: j in rows && j != k ==> out[j] == rows[j])
  {
  }

  /** The owner string starts with the node's id and a slash. */
  predicate StartsWithId(owner: Str, node: Str) {
    |node| < |owner| && owner[..|node|] == node && owner[|node|] == SLASH
  }

  /** A prune buries exactly the live rows whose owner starts with the node's id and a
      slash; they keep key, owner and payload. */
  lemma PruneLands(rows: Rows, node: Str, h: HLC)
    ensures var out := RowsAfter(rows, PruneOp(node), h);
            && out.Keys == rows.Keys
            && forall k :: k in rows ==>
                 out[k] == if !rows[k].tombstone && StartsWithId(rows[k].owner, node) then rows[k].(tombstone := true, hlc := h)
                           else rows[k]
  {
    forall k | k in rows ensures OwnedBy(rows[k], node) <==> StartsWithId(rows[k].owner, node) {
      PrefixWithSlash(rows[k].owner, node);
    }
  }

  lemma PrefixWithSlash(owner: Str, node: Str)
    ensures HasPrefix(owner, node + [SLASH]) <==> StartsWithId(owner, node)
  {
    var p := node + [SLASH];
    if |p| <= |owner| {
      assert owner[..|p|] == owner[..|node|] + [owner[|node|]];
    }
  }

  /** Whose rows a prune takes: those a node with this id wrote as an agent, and no other
      node's, even if one id begins with the other; and labels only if the id is "api". */
  lemma PruneTakesOwnRowsOnly(rows: Rows, m: Str, n: Str, epoch: Str, h: HLC, k: RowKey)
    requires SLASH !in m && SLASH !in n && k in rows && !rows[k].tombstone
    ensures var out := RowsAfter(rows, PruneOp(m), h);
            && k in out
            && (rows[k].owner == AgentOwner(n, epoch) ==> out[k] == if m == n then rows[k].(tombstone := true, hlc := h) else rows[k])
            && (rows[k].owner == ApiOwner(n) ==> out[k] == if m == API then rows[k].(tombstone := true, hlc := h) else rows[k])
  {
    PruneLands(rows, m, h);
    IdIsFirstPart(m, n, epoch);
    IdIsFirstPart(m, API, n);
  }

  lemma IdIsFirstPart(m: Str, n: Str, rest: Str)
    requires SLASH !in m && SLASH !in n
    ensures StartsWithId(n + [SLASH] + rest, m) <==> m == n
  {
    var s := n + [SLASH] + rest;
    assert s[..|n|] == n && s[|n|] == SLASH;
  }

  /** The events an emission stamped h adds: none or one. */
  ghost function Emitted(events: Events, node: Str, emission: Emission, h: HLC): seq<LogEvent> {
    match emission
    case Silent => []
    case Emit(kind, payload) => [Numbered(events, node, kind, payload, h)]
  }

  ghost function EventsAfter(events: Events, node: Str, emission: Emission, h: HLC): Events {
    var es := Emitted(events, node, emission, h);
    if es == [] then events else events[EventKeyOf(es[0]) := es[0]]
  }

  /** An emission adds one event under the next free number of its node, with the caller's
      type, payload and stamp; everything stored stays. */
  lemma EmissionLands(events: Events, node: Str, kind: EventType, payload: map<Str, Str>, h: HLC) returns (num: int)
    ensures var out := EventsAfter(events, node, Emit(kind, payload), h);
            var k := EventKey(node, num);
            && k !in events && out == events[k := LogEvent(node, num, kind, payload, h)]
            && (forall j :: j in events && j.runner == node ==> j.num < num)
            && (num == 1 || EventKey(node, num - 1) in events)
  {
    num := LastNum(events, node) + 1;
    var keys := KeysOf(events, node);
    assert forall j :: j in events && j.runner == node ==> j in keys;
    if keys != {} {
      assert LastKey(keys) == EventKey(node, num - 1);
    }
  }

  /** What one tick's writes, stamped h, leave in the tables. */
  ghost function LocalTables(t: Tables, node: Str, op: RowOp, emission: Emission, h: HLC): Tables {
    t.(rows := RowsAfter(t.rows, op, h), events := EventsAfter(t.events, node, emission, h))
  }

  /** A tick and the writes it stamps, as one step. */
  ghost function LocalNode(s: NodeState, node: Str, now: int, op: RowOp, emission: Emission): NodeState {
    var h := TickFrom(s.clock, now);
    var t := s.tables;
    NodeState(h,
              LocalTables(t, node, op, emission, h),
              s.epoch,
              s.writes + Delta(t.rows, op, h).Values,
              s.log + Emitted(t.events, node, emission, h),
              now)
  }

  /** Merging a reply's rows and the clock update that follows, as one step. */
  function RowsTaken(s: NodeState, rep: Reply): NodeState {
    s.(tables := RowsApplied(s.tables, rep.call.server, rep.resp.rows),
       clock := ClockAfterRows(s.clock, rep.resp.rows))
  }

  /** Storing a reply's events and the clock update that follows, as one step. */
  function EventsTaken(s: NodeState, rep: Reply): NodeState {
    s.(tables := EventsApplied(s.tables, rep.call.server, rep.call.req.evMark, rep.resp.events),
       clock := ClockAfterEvents(s.clock, rep.resp.events))
  }

  // ------------------------------------------------------------ steps

  /** Operations write the kinds of the rows table, under one of the node's own owner strings. */
  predicate OpAllowed(s: NodeState, node: Str, op: RowOp) {
    match op
    case PutOp(kind, _, owner, _) => RowKind(kind) && owner in Owners(node, s.epoch)
    case DeleteOp(kind, _, owner) => RowKind(kind) && owner in Owners(node, s.epoch)
    case _ => true
  }

  /** The request's marks were read from the client's table, now or earlier: each is
      at or below the present mark. The checksums may be of any moment. */
  predicate MarksWithin(t: Tables, server: Str, q: Request) {
    && (forall kind :: RowKind(kind) ==> !After(ReqMark(q, kind), Mark(t.marks, server, kind)))
    && !After(q.evMark, Mark(t.marks, server, Event))
  }

  ghost predicate Enabled(c: State, step: Step) {
    match step
    case Local(node, now, op, emission) => node in c.nodes && OpAllowed(c.nodes[node], node, op)
    case Ask(call) =>
      call.client in c.nodes && call.server in c.nodes && MarksWithin(c.nodes[call.client].tables, call.server, call.req)
    case Serve(rep) =>
      rep.call in c.calls && rep.call.server in c.nodes
      && IsPart(c.nodes[rep.call.server].tables, rep.call.req, rep.starts, rep.resp)
    case TakeRows(rep) => rep in c.replies && rep.call.client in c.nodes
    case TakeEvents(rep) => rep in c.replies && rep.call.client in c.nodes
    case Lose(rep) => rep in c.replies
  }

  ghost function Do(c: State, step: Step): State
    requires Enabled(c, step)
  {
    match step
    case Local(node, now, op, emission) =>
      c.(nodes := c.nodes[node := LocalNode(c.nodes[node], node, now, op, emission)],
         maxWall := if now > c.maxWall then now else c.maxWall)
    case Ask(call) => c.(calls := c.calls + {call})
    case Serve(rep) => c.(replies := c.replies + {rep})
    case TakeRows(rep) => c.(nodes := c.nodes[rep.call.client := RowsTaken(c.nodes[rep.call.client], rep)])
    case TakeEvents(rep) => c.(nodes := c.nodes[rep.call.client := EventsTaken(c.nodes[rep.call.client], rep)])
    case Lose(rep) => c.(replies := c.replies - {rep})
  }

  /** Nothing stored, nothing in flight, clocks at zero, and no owner string shared
      between two nodes. */
  ghost predicate Init(c: State) {
    && (forall n :: n in c.nodes ==>
          c.nodes[n] == NodeState(ZERO, EMPTY, c.nodes[n].epoch, {}, [], 0))
    && OwnersDisjoint(c)
    && c.calls == {} && c.replies == {} && c.maxWall == 0
  }

  ghost predicate OwnersDisjoint(c: State) {
    forall m, n :: m in c.nodes && n in c.nodes && m != n ==>
      Owners(m, c.nodes[m].epoch) !! Owners(n, c.nodes[n].epoch)
  }

  /** States and the steps between them; any state may start a run. */
  ghost predicate IsRun(states: seq<State>, steps: seq<Step>) {
    && |states| == |steps| + 1
    && forall i :: 0 <= i < |steps| ==> StepAt(states, steps, i)
  }

  ghost predicate StepAt(states: seq<State>, steps: seq<Step>, i: nat)
    requires i < |steps| < |states|
  {
    Enabled(states[i], steps[i]) && states[i + 1] == Do(states[i], steps[i])
  }

  predicate IsGc(step: Step) {
    step.Local? && step.op.GcOp?
  }

  predicate IsPrune(step: Step) {
    step.Local? && step.op.PruneOp?
  }

  /** The operation, stamped h, is not a collection that finds something to remove. */
  predicate NothingRemoved(rows: Rows, op: RowOp, h: HLC) {
    op.GcOp? ==> GcKeys(rows, GcLimit(h)) == {}
  }

  lemma KeptRows(rows: Rows, op: RowOp, h: HLC)
    requires NothingRemoved(rows, op, h)
    ensures RowsAfter(rows, op, h) == rows + Delta(rows, op, h)
  {
  }

  /** The step is a collection that removes at least one tombstone. */
  predicate Removes(c: State, step: Step) {
    && step.Local? && step.node in c.nodes
    && !NothingRemoved(c.nodes[step.node].tables.rows, step.op, TickFrom(c.nodes[step.node].clock, step.now))
  }

  /** The run may collect, as the engine does after every round, but no collection finds
      a tombstone to remove. */
  ghost predicate NothingCollected(states: seq<State>, steps: seq<Step>) {
    forall i :: 0 <= i < |steps| && i < |states| ==> !Removes(states[i], steps[i])
  }

  ghost predicate NoPrune(steps: seq<Step>) {
    forall i :: 0 <= i < |steps| ==> !IsPrune(steps[i])
  }

  // ------------------------------------------------------------ owner strings

  /** Owner strings of different nodes never coincide when no node id contains a
      slash and none is the word "api". */
  lemma PlainIdsHaveDisjointOwners(m: Str, em: Str, n: Str, en: Str)
    requires SLASH !in m && SLASH !in n && m != API && n != API && m != n
    ensures Owners(m, em) !! Owners(n, en)
  {
    SplitAtSlash(m, em, n, en);
    SplitAtSlash(m, em, API, n);
    SplitAtSlash(API, m, n, en);
    SplitAtSlash(API, m, API, n);
  }

  lemma SplitAtSlash(a: Str, x: Str, b: Str, y: Str)
    requires SLASH !in a && SLASH !in b
    ensures a + [SLASH] + x == b + [SLASH] + y ==> a == b && x == y
  {
    var s, t := a + [SLASH] + x, b + [SLASH] + y;
    if s == t {
      assert s[|a|] == SLASH && t[|b|] == SLASH;
      assert a == s[..|a|] && b == t[..|b|];
      assert x == s[|a| + 1..] && y == t[|b| + 1..];
    }
  }

  /** The condition is not idle: a node called "api" whose epoch is another node's id
      writes under that node's label owner. */
  lemma ANodeCalledApiSharesAnOwner(n: Str, en: Str)
    ensures !(Owners(API, n) !! Owners(n, en))
  {
    assert AgentOwner(API, n) == ApiOwner(n);
    assert ApiOwner(n) in Owners(API, n) && ApiOwner(n) in Owners(n, en);
  }
}
