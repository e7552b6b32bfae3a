/** Runs put together from steps, and the sync round as such a run. */
module Paths {
  import opened Text
  import opened Hlc
  import opened Model
  import opened Merge
  import opened Checksum
  import opened Storage
  import opened Pull
  import opened Sync
  import opened Cluster

  /** A run from c to d. */
  ghost predicate Path(states: seq<State>, steps: seq<Step>, c: State, d: State) {
    IsRun(states, steps) && states[0] == c && states[|steps|] == d
  }

  lemma OneStep(c: State, step: Step) returns (states: seq<State>)
    requires Enabled(c, step)
    ensures Path(states, [step], c, Do(c, step))
  {
    states := [c, Do(c, step)];
    assert StepAt(states, [step], 0);
  }

  /** Runs that meet in a state join into one. */
  lemma Join(s: seq<State>, p: seq<Step>, t: seq<State>, q: seq<Step>, c: State, d: State, e: State) returns (states: seq<State>)
    requires Path(s, p, c, d) && Path(t, q, d, e)
    ensures Path(states, p + q, c, e) && states[|p|] == d && states == s + t[1..]
  {
    states := s + t[1..];
    forall i | 0 <= i < |p + q| ensures StepAt(states, p + q, i) {
      if i < |p| {
        assert StepAt(s, p, i);
      } else {
        assert StepAt(t, q, i - |p|);
        assert states[i] == t[i - |p|];
      }
    }
  }

  // ------------------------------------------------------------ a round, step by step

  /** The call a client makes: its present watermarks and checksums. */
  ghost function HonestCall(c: State, a: Str, b: Str): Call
    requires a in c.nodes
  {
    Call(a, b, RequestFor(c.nodes[a].tables, b))
  }

  /** The reply that carries a whole answer, made at one moment. */
  ghost function HonestReply(c: State, a: Str, b: Str, resp: Response): Reply
    requires a in c.nodes && b in c.nodes
  {
    var call := HonestCall(c, a, b);
    Reply(call, StartsOf(c.nodes[b].tables, call.req), resp)
  }

  ghost function Asked(c: State, call: Call): State {
    c.(calls := c.calls + {call})
  }

  ghost function Served(c: State, rep: Reply): State {
    c.(replies := c.replies + {rep})
  }

  ghost function RowsIn(c: State, rep: Reply): State
    requires rep.call.client in c.nodes
  {
    c.(nodes := c.nodes[rep.call.client := RowsTaken(c.nodes[rep.call.client], rep)])
  }

  ghost function EventsIn(c: State, rep: Reply): State
    requires rep.call.client in c.nodes
  {
    c.(nodes := c.nodes[rep.call.client := EventsTaken(c.nodes[rep.call.client], rep)])
  }

  lemma AskStep(c: State, a: Str, b: Str) returns (states: seq<State>)
    requires a in c.nodes && b in c.nodes
    ensures Path(states, [Ask(HonestCall(c, a, b))], c, Asked(c, HonestCall(c, a, b)))
  {
    states := OneStep(c, Ask(HonestCall(c, a, b)));
  }

  lemma ServeStep(c: State, rep: Reply) returns (states: seq<State>)
    requires rep.call in c.calls && rep.call.server in c.nodes
    requires IsPart(c.nodes[rep.call.server].tables, rep.call.req, rep.starts, rep.resp)
    ensures Path(states, [Serve(rep)], c, Served(c, rep))
  {
    states := OneStep(c, Serve(rep));
  }

  lemma TakeRowsStep(c: State, rep: Reply) returns (states: seq<State>)
    requires rep in c.replies && rep.call.client in c.nodes
    ensures Path(states, [TakeRows(rep)], c, RowsIn(c, rep))
  {
    states := OneStep(c, TakeRows(rep));
  }

  lemma TakeEventsStep(c: State, rep: Reply) returns (states: seq<State>)
    requires rep in c.replies && rep.call.client in c.nodes
    ensures Path(states, [TakeEvents(rep)], c, EventsIn(c, rep))
  {
    states := OneStep(c, TakeEvents(rep));
  }

  lemma AskAndServe(c: State, a: Str, b: Str, resp: Response) returns (states: seq<State>)
    requires a in c.nodes && b in c.nodes && IsAnswer(c.nodes[b].tables, RequestFor(c.nodes[a].tables, b), resp)
    ensures var rep := HonestReply(c, a, b, resp);
            Path(states, [Ask(rep.call), Serve(rep)], c, Served(Asked(c, rep.call), rep))
  {
    var rep := HonestReply(c, a, b, resp);
    AnswerIsPart(c.nodes[b].tables, rep.call.req, resp);
    var s := AskStep(c, a, b);
    var t := ServeStep(Asked(c, rep.call), rep);
    states := Join(s, [Ask(rep.call)], t, [Serve(rep)], c, Asked(c, rep.call), Served(Asked(c, rep.call), rep));
    assert [Ask(rep.call)] + [Serve(rep)] == [Ask(rep.call), Serve(rep)];
  }

  /** The row half of a round. */
  lemma PullRows(c: State, a: Str, b: Str, resp: Response) returns (states: seq<State>)
    requires a in c.nodes && b in c.nodes && IsAnswer(c.nodes[b].tables, RequestFor(c.nodes[a].tables, b), resp)
    ensures var rep := HonestReply(c, a, b, resp);
            Path(states, [Ask(rep.call), Serve(rep), TakeRows(rep)], c, RowsIn(Served(Asked(c, rep.call), rep), rep))
  {
    var rep := HonestReply(c, a, b, resp);
    var d := Served(Asked(c, rep.call), rep);
    var s := AskAndServe(c, a, b, resp);
    var t := TakeRowsStep(d, rep);
    states := Join(s, [Ask(rep.call), Serve(rep)], t, [TakeRows(rep)], c, d, RowsIn(d, rep));
    assert [Ask(rep.call), Serve(rep)] + [TakeRows(rep)] == [Ask(rep.call), Serve(rep), TakeRows(rep)];
  }

  /** What a whole round against b, answered by resp, leaves of the node. */
  ghost function AfterRound(s: NodeState, b: Str, resp: Response): NodeState {
    var q := RequestFor(s.tables, b);
    s.(tables := EventsApplied(RowsApplied(s.tables, b, resp.rows), b, q.evMark, resp.events),
       clock := ClockAfterEvents(ClockAfterRows(s.clock, resp.rows), resp.events))
  }

  /** An undisturbed sync round is one of the model's runs: ask, answer, take the rows,
      take the events. */
  lemma RoundIsARun(c: State, a: Str, b: Str, resp: Response) returns (states: seq<State>, steps: seq<Step>)
    requires a in c.nodes && b in c.nodes && IsAnswer(c.nodes[b].tables, RequestFor(c.nodes[a].tables, b), resp)
    ensures IsRun(states, steps) && |steps| == 4 && states[0] == c
    ensures states[4].nodes == c.nodes[a := AfterRound(c.nodes[a], b, resp)]
  {
    var rep := HonestReply(c, a, b, resp);
    var d := RowsIn(Served(Asked(c, rep.call), rep), rep);
    var s := PullRows(c, a, b, resp);
    var p := [Ask(rep.call), Serve(rep), TakeRows(rep)];
    var t := TakeEventsStep(d, rep);
    states := Join(s, p, t, [TakeEvents(rep)], c, d, EventsIn(d, rep));
    steps := p + [TakeEvents(rep)];
  }

  /** An answer whose kinds were made at different moments is taken at once by the code. In
      the model its parts are replies of their own; taking them one after the other leaves
      the same node. */
  lemma PartsTakenTogether(s: NodeState, first: Reply, second: Reply, whole: Reply)
    requires first.call == second.call == whole.call
    requires whole.resp.rows == first.resp.rows + second.resp.rows
    requires KindsOf(first.resp.rows) !! KindsOf(second.resp.rows) && !After(ZERO, s.clock)
    ensures RowsTaken(RowsTaken(s, first), second) == RowsTaken(s, whole)
  {
    var a, b := first.resp.rows, second.resp.rows;
    JoinSplits(s.tables.rows, a, b);
    MarksSplit(s.tables.marks, whole.call.server, a, b);
    RowsMaxSplits(a, b);
    RowsMaxIsMax(a);
    RowsMaxIsMax(b);
  }

  lemma {:induction false} RowsMaxSplits(a: seq<Row>, b: seq<Row>)
    ensures RowsMax(a + b) == Max(RowsMax(a), RowsMax(b))
  {
    RowsMaxIsMax(a);
    if b == [] {
      assert a + b == a;
    } else {
      RowsMaxSplits(a, b[..|b| - 1]);
      assert (a + b)[..|a + b| - 1] == a + b[..|b| - 1];
    }
  }

  lemma {:induction false} BatchMaxSplits(a: seq<Row>, b: seq<Row>, kind: Kind)
    ensures BatchMax(a + b, kind) == Max(BatchMax(a, kind), BatchMax(b, kind))
  {
    BatchMaxIsMax(a, kind);
    if b == [] {
      assert a + b == a;
    } else {
      BatchMaxSplits(a, b[..|b| - 1], kind);
      assert (a + b)[..|a + b| - 1] == a + b[..|b| - 1];
    }
  }

  lemma KindMaxSplits(a: seq<Row>, b: seq<Row>, kind: Kind)
    requires kind in KindsOf(a) && kind !in KindsOf(b)
    ensures BatchMax(a + b, kind) == BatchMax(a, kind) && BatchMax(b + a, kind) == BatchMax(a, kind)
  {
    BatchMaxSplits(a, b, kind);
    BatchMaxSplits(b, a, kind);
    NoKindMeansZero(b, kind);
    BatchMaxIsMax(a, kind);
  }

  lemma KindsJoin(a: seq<Row>, b: seq<Row>)
    ensures KindsOf(a + b) == KindsOf(a) + KindsOf(b)
  {
  }

  lemma MarksSplitAt(marks: Marks, peer: Str, a: seq<Row>, b: seq<Row>, k: MarkKey)
    requires KindsOf(a) !! KindsOf(b)
    ensures var left, right := AdvanceMarks(AdvanceMarks(marks, peer, a), peer, b), AdvanceMarks(marks, peer, a + b);
            (k in left <==> k in right) && (k in left ==> left[k] == right[k])
  {
    KindsJoin(a, b);
    if k.kind in KindsOf(a) {
      KindMaxSplits(a, b, k.kind);
    } else if k.kind in KindsOf(b) {
      KindMaxSplits(b, a, k.kind);
    }
  }

  /** Batches of different kinds raise the marks one after the other as they do together. */
  lemma MarksSplit(marks: Marks, peer: Str, a: seq<Row>, b: seq<Row>)
    requires KindsOf(a) !! KindsOf(b)
    ensures AdvanceMarks(AdvanceMarks(marks, peer, a), peer, b) == AdvanceMarks(marks, peer, a + b)
  {
    var left, right := AdvanceMarks(AdvanceMarks(marks, peer, a), peer, b), AdvanceMarks(marks, peer, a + b);
    forall k ensures (k in left <==> k in right) && (k in left ==> left[k] == right[k]) {
      MarksSplitAt(marks, peer, a, b, k);
    }
  }

  // ------------------------------------------------------------ small runs

  lemma LocalStep(c: State, n: Str, now: int, op: RowOp, next: NodeState) returns (states: seq<State>, d: State)
    requires n in c.nodes && OpAllowed(c.nodes[n], n, op) && next == LocalNode(c.nodes[n], n, now, op, Silent)
    ensures Path(states, [Local(n, now, op, Silent)], c, d)
    ensures d.nodes == c.nodes[n := next] && d.calls == c.calls && d.replies == c.replies
  {
    var step := Local(n, now, op, Silent);
    states := OneStep(c, step);
    d := Do(c, step);
  }

  /** The answer of a server that holds the single row r and no events. */
  ghost function OneRowAnswer(server: Str, t: Tables, r: Row): Response {
    Response(server, [r], map[Runner := RowsSum(t.rows, Runner), Meta := RowsSum(t.rows, Meta)], [], EventsSum(t.events))
  }

  lemma OneRowAnswers(client: Tables, server: Str, t: Tables, r: Row)
    requires t.rows == map[KeyOf(r) := r] && t.events == map[]
    requires RowKind(r.kind) && After(r.hlc, Mark(client.marks, server, r.kind))
    ensures IsAnswer(t, RequestFor(client, server), OneRowAnswer(server, t, r))
  {
    var q, resp := RequestFor(client, server), OneRowAnswer(server, t, r);
    assert !NothingSince(t.rows, r.kind, ReqMark(q, r.kind));
    forall x ensures x in resp.rows <==> Holds(t.rows, x) && RowKind(x.kind) && After(x.hlc, AnswerMark(t.rows, q, x.kind)) {
      assert x in resp.rows <==> x == r;
    }
  }

  /** What taking a one-row answer does to a node. */
  ghost function OneTaken(s: NodeState, server: Str, r: Row): NodeState {
    s.(tables := s.tables.(rows := ApplyRow(s.tables.rows, r), marks := RaiseMark(s.tables.marks, server, r.kind, r.hlc)),
       clock := Max(s.clock, r.hlc))
  }

  lemma TakeOne(s: NodeState, rep: Reply, r: Row)
    requires After(r.hlc, ZERO) && rep.resp.rows == [r]
    ensures RowsTaken(s, rep) == OneTaken(s, rep.call.server, r)
  {
    assert [r][..0] == [];
    assert RowsMax([]) == ZERO && JoinBatch(s.tables.rows, []) == s.tables.rows;
    assert KindsOf([r]) == {r.kind};
    assert BatchMax([r], r.kind) == r.hlc;
    assert AdvanceMarks(s.tables.marks, rep.call.server, [r]) == RaiseMark(s.tables.marks, rep.call.server, r.kind, r.hlc);
  }

  /** The client pulls the one row of the server. */
  lemma PullOne(c: State, a: Str, b: Str, r: Row, next: NodeState) returns (states: seq<State>, steps: seq<Step>, d: State, rep: Reply)
    requires a in c.nodes && b in c.nodes && RowKind(r.kind) && After(r.hlc, ZERO)
    requires c.nodes[b].tables.rows == map[KeyOf(r) := r] && c.nodes[b].tables.events == map[]
    requires After(r.hlc, Mark(c.nodes[a].tables.marks, b, r.kind))
    requires next == OneTaken(c.nodes[a], b, r)
    ensures Path(states, steps, c, d) && steps == [Ask(rep.call), Serve(rep), TakeRows(rep)]
    ensures rep.call == HonestCall(c, a, b) && rep.resp.rows == [r] && rep.starts.Keys == {Runner, Meta, Event}
    ensures d.nodes == c.nodes[a := next] && d.calls == c.calls + {rep.call} && d.replies == c.replies + {rep}
  {
    var resp := OneRowAnswer(b, c.nodes[b].tables, r);
    OneRowAnswers(c.nodes[a].tables, b, c.nodes[b].tables, r);
    states, rep := PullReply(c, a, b, resp);
    steps := [Ask(rep.call), Serve(rep), TakeRows(rep)];
    d := RowsIn(Served(Asked(c, rep.call), rep), rep);
    PulledState(c, rep, r, next);
  }

  lemma PullReply(c: State, a: Str, b: Str, resp: Response) returns (states: seq<State>, rep: Reply)
    requires a in c.nodes && b in c.nodes && IsAnswer(c.nodes[b].tables, RequestFor(c.nodes[a].tables, b), resp)
    ensures rep.call == HonestCall(c, a, b) && rep.resp == resp && rep.starts.Keys == {Runner, Meta, Event}
    ensures Path(states, [Ask(rep.call), Serve(rep), TakeRows(rep)], c, RowsIn(Served(Asked(c, rep.call), rep), rep))
  {
    rep := HonestReply(c, a, b, resp);
    AllKindsStart(c.nodes[b].tables, rep.call.req);
    states := PullRows(c, a, b, resp);
  }

  lemma PulledState(c: State, rep: Reply, r: Row, next: NodeState)
    requires rep.call.client in c.nodes && rep.resp.rows == [r] && After(r.hlc, ZERO)
    requires next == OneTaken(c.nodes[rep.call.client], rep.call.server, r)
    ensures var d := RowsIn(Served(Asked(c, rep.call), rep), rep);
            && d.nodes == c.nodes[rep.call.client := next]
            && d.calls == c.calls + {rep.call} && d.replies == c.replies + {rep}
  {
    TakeOne(c.nodes[rep.call.client], rep, r);
  }
}
