/** Quiescence: in a settled cluster pulls come back empty. */
module Quiescence {
  import opened Text
  import opened Hlc
  import opened Model
  import opened Merge
  import opened Checksum
  import opened Sorting
  import opened Pull
  import opened Sync
  import opened Cluster
  import opened Dominance
  import opened Runs
  import opened Convergence
  import opened Agreement
  import opened Reconciliation

  /** After taking an answer, the client's mark is at or above every row the server held
      when it answered. */
  lemma AnswerLiftsMark(rows: Rows, starts: map<Kind, HLC>, out: seq<Row>, k: RowKey, mark: HLC)
    requires WellKeyed(rows) && k in rows && RowKind(k.kind) && PartOfRows(rows, starts, out)
    requires k.kind in starts && !After(starts[k.kind], mark) && !After(BatchMax(out, k.kind), mark)
    ensures !After(rows[k].hlc, mark)
  {
    if After(rows[k].hlc, starts[k.kind]) {
      assert Holds(rows, rows[k]) && rows[k] in out;
      BatchMaxIsMax(out, k.kind);
    }
  }

  /** In the state where the pull is answered: once a's marks have reached the asked
      marks and the answer's maxima, nothing of b's is above them. */
  lemma PullExhausts(c: State, rep: Reply, marks: Marks, k: RowKey)
    requires ClockInv(c) && rep.call.server in c.nodes
    requires IsPart(c.nodes[rep.call.server].tables, rep.call.req, rep.starts, rep.resp)
    requires k in c.nodes[rep.call.server].tables.rows && k.kind in rep.starts
    requires !After(ZERO, Mark(marks, rep.call.server, k.kind))
    requires !After(ReqMark(rep.call.req, k.kind), Mark(marks, rep.call.server, k.kind))
    requires !After(BatchMax(rep.resp.rows, k.kind), Mark(marks, rep.call.server, k.kind))
    ensures !After(c.nodes[rep.call.server].tables.rows[k].hlc, Mark(marks, rep.call.server, k.kind))
  {
    assert NodeDominates(c.nodes[rep.call.server]);
    AnswerLiftsMark(c.nodes[rep.call.server].tables.rows, rep.starts, rep.resp.rows, k, Mark(marks, rep.call.server, k.kind));
  }

  lemma TakenMark(c: State, rep: Reply, kind: Kind)
    requires ClockInv(c) && rep in c.replies && RowKind(kind)
    ensures rep.call.client in c.nodes
    ensures var m := Mark(RowsTaken(c.nodes[rep.call.client], rep).tables.marks, rep.call.server, kind);
            !After(ReqMark(rep.call.req, kind), m) && !After(BatchMax(rep.resp.rows, kind), m)
  {
    DominatedReply(c, rep);
    CallWithin(c, rep.call, kind);
    MarkAfterRows(c, rep, rep.call.server, kind);
  }

  lemma TakenMarkReached(states: seq<State>, steps: seq<Step>, a: Str, b: Str, j: nat, k: nat, l: nat, kind: Kind)
    requires IsRun(states, steps) && Init(states[0]) && RowPull(steps, a, b, kind, j, k) && k < l < |states| && RowKind(kind)
    ensures a in states[l].nodes
    ensures !After(ReqMark(steps[j].reply.call.req, kind), Mark(states[l].nodes[a].tables.marks, b, kind))
    ensures !After(BatchMax(steps[j].reply.resp.rows, kind), Mark(states[l].nodes[a].tables.marks, b, kind))
    ensures !After(ZERO, Mark(states[l].nodes[a].tables.marks, b, kind))
  {
    BatchMaxIsMax(steps[j].reply.resp.rows, kind);
    assert StepAt(states, steps, k);
    TakenMarkAt(states, steps, k, kind);
    MarksNeverGoBack(states, steps, k + 1, l, a, b, kind);
  }

  lemma TakenMarkAt(states: seq<State>, steps: seq<Step>, k: nat, kind: Kind)
    requires IsRun(states, steps) && Init(states[0]) && k < |steps| && steps[k].TakeRows? && RowKind(kind)
    ensures var rep := steps[k].reply;
            && rep.call.client in states[k + 1].nodes
            && var m := Mark(states[k + 1].nodes[rep.call.client].tables.marks, rep.call.server, kind);
               !After(ReqMark(rep.call.req, kind), m) && !After(BatchMax(rep.resp.rows, kind), m)
  {
    ReachableClock(states, steps, k);
    assert StepAt(states, steps, k);
    TakenMark(states[k], steps[k].reply, kind);
  }

  /** Between t and l, a has taken one pull of the kind from b, answered at t or later. */
  ghost predicate PulledSince(steps: seq<Step>, t: nat, a: Str, b: Str, kind: Kind, l: nat) {
    exists j: nat, k: nat :: t <= j && RowPull(steps, a, b, kind, j, k) && k < l
  }

  /** In a settled cluster every row of b's is at or below a's mark for b. */
  lemma SettledBelowMark(states: seq<State>, steps: seq<Step>, t: nat, a: Str, b: Str, l: nat, m: nat, x: RowKey)
    requires IsRun(states, steps) && Init(states[0]) && t < |states| && RowQuiet(states, steps, t)
    requires Converged(states[t]) && a in states[t].nodes && b in states[t].nodes && t <= l <= m < |states|
    requires a in states[l].nodes && b in states[m].nodes && x in states[m].nodes[b].tables.rows
    requires PulledSince(steps, t, a, b, x.kind, l)
    ensures !After(states[m].nodes[b].tables.rows[x].hlc, Mark(states[l].nodes[a].tables.marks, b, x.kind))
  {
    var j: nat, k: nat :| t <= j && RowPull(steps, a, b, x.kind, j, k) && k < l;
    QuietTablesFrozen(states, steps, t, j, b);
    QuietTablesFrozen(states, steps, t, m, b);
    QuietRowBelowMark(states, steps, a, b, j, k, l, x);
  }

  /** What a settled cluster still sends, ties or no ties: from a converged state on, with no
      row written or removed, once a has taken one more pull of the kind from b, a later
      answer carries a row of b's if and only if a's checksum of the kind is neither zero nor
      b's. */
  lemma SettledAnswersExactly(states: seq<State>, steps: seq<Step>, t: nat, a: Str, b: Str, l: nat, m: nat, resp: Response, v: Row)
    requires IsRun(states, steps) && Init(states[0]) && t < |states| && RowQuiet(states, steps, t)
    requires Converged(states[t]) && a in states[t].nodes && b in states[t].nodes && t <= l <= m < |states|
    requires a in states[l].nodes && b in states[m].nodes && Holds(states[m].nodes[b].tables.rows, v)
    requires PulledSince(steps, t, a, b, v.kind, l)
    requires IsAnswer(states[m].nodes[b].tables, RequestFor(states[l].nodes[a].tables, b), resp)
    ensures v in resp.rows
            <==> var sum := RowsSum(states[l].nodes[a].tables.rows, v.kind);
                 sum != 0 && sum != RowsSum(states[m].nodes[b].tables.rows, v.kind)
  {
    ReachableClock(states, steps, m);
    DominatedNode(states[m], b);
    var client, server := states[l].nodes[a].tables, states[m].nodes[b].tables;
    forall x | x in server.rows && x.kind == v.kind ensures !After(server.rows[x].hlc, Mark(client.marks, b, v.kind)) {
      SettledBelowMark(states, steps, t, a, b, l, m, x);
    }
    BelowMarkAnswers(client, b, server, resp, v);
  }

  /** With nothing above the mark, a row is sent if and only if the whole kind is resent. */
  lemma BelowMarkAnswers(client: Tables, peer: Str, server: Tables, resp: Response, v: Row)
    requires Holds(server.rows, v) && RowKind(v.kind) && After(v.hlc, ZERO)
    requires NothingSince(server.rows, v.kind, Mark(client.marks, peer, v.kind))
    requires IsAnswer(server, RequestFor(client, peer), resp)
    ensures v in resp.rows
            <==> RowsSum(client.rows, v.kind) != 0 && RowsSum(client.rows, v.kind) != RowsSum(server.rows, v.kind)
  {
    SentExactlyWhen(client, peer, server, resp, v);
    assert ReqSum(RequestFor(client, peer), v.kind) == RowsSum(client.rows, v.kind);
  }

  /** Quiescence, pruning included: without ties the tables are equal, so every later
      request a builds for b is answered without rows, however late the answer is made. */
  lemma NoMoreRows(states: seq<State>, steps: seq<Step>, t: nat, a: Str, b: Str, l: nat, m: nat, resp: Response)
    requires IsRun(states, steps) && Init(states[0]) && t < |states| && RowQuiet(states, steps, t)
    requires Converged(states[t]) && NoTie(states[t]) && a in states[t].nodes && b in states[t].nodes
    requires t <= l <= m < |states| && a in states[l].nodes && b in states[m].nodes
    requires forall kind :: RowKind(kind) ==> PulledSince(steps, t, a, b, kind, l)
    requires IsAnswer(states[m].nodes[b].tables, RequestFor(states[l].nodes[a].tables, b), resp)
    ensures resp.rows == []
  {
    QuietTablesFrozen(states, steps, t, m, b);
    QuietTablesFrozen(states, steps, t, l, a);
    QuietTablesEqual(states, steps, t, a, b);
    forall v ensures v !in resp.rows {
      if v in resp.rows {
        SettledAnswersExactly(states, steps, t, a, b, l, m, resp, v);
      }
    }
    EmptyOrFirst(resp.rows);
  }

  lemma QuietTablesEqual(states: seq<State>, steps: seq<Step>, t: nat, a: Str, b: Str)
    requires IsRun(states, steps) && Init(states[0]) && t < |states|
    requires Converged(states[t]) && NoTie(states[t]) && a in states[t].nodes && b in states[t].nodes
    ensures states[t].nodes[a].tables.rows == states[t].nodes[b].tables.rows
    ensures WellKeyed(states[t].nodes[b].tables.rows)
  {
    ReachableClock(states, steps, t);
    ReachableOrigin(states, steps, t);
    NoTieMakesOneTable(states[t], a, b);
    DominatedNode(states[t], b);
  }

  lemma QuietRowBelowMark(states: seq<State>, steps: seq<Step>, a: Str, b: Str, j: nat, k: nat, l: nat, x: RowKey)
    requires IsRun(states, steps) && Init(states[0]) && RowPull(steps, a, b, x.kind, j, k) && k < l < |states|
    requires b in states[j].nodes && x in states[j].nodes[b].tables.rows
    ensures a in states[l].nodes
    ensures !After(states[j].nodes[b].tables.rows[x].hlc, Mark(states[l].nodes[a].tables.marks, b, x.kind))
  {
    ReachableClock(states, steps, j);
    DominatedNode(states[j], b);
    TakenMarkReached(states, steps, a, b, j, k, l, x.kind);
    assert StepAt(states, steps, j);
    PullExhausts(states[j], steps[j].reply, states[l].nodes[a].tables.marks, x);
  }
}
