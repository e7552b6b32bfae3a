/** One pull in full: which of the server's rows it delivers, and what the full resend
    repairs. */
module Reconciliation {
  import opened Text
  import opened Hlc
  import opened Model
  import opened Merge
  import opened Checksum
  import opened EventLog
  import opened Storage
  import opened Pull
  import opened Sync

  // ------------------------------------------------------------ what a pull delivers

  /** The server resends the kind: it has nothing above the client's mark, and the client's
      checksum is neither zero nor the server's. */
  ghost predicate ResentTo(t: Tables, peer: Str, served: Tables, kind: Kind) {
    && NothingSince(served.rows, kind, Mark(t.marks, peer, kind))
    && RowsSum(t.rows, kind) != 0 && RowsSum(t.rows, kind) != RowsSum(served.rows, kind)
  }

  /** The same for the log. */
  ghost predicate LogResentTo(t: Tables, peer: Str, served: Tables) {
    && NoEventsSince(served.events, Mark(t.marks, peer, Event))
    && EventsSum(t.events) != 0 && EventsSum(t.events) != EventsSum(served.events)
  }

  /** The answer holds v if and only if v is above the mark or the whole kind is resent. */
  lemma SentExactlyWhen(t: Tables, peer: Str, served: Tables, resp: Response, v: Row)
    requires Holds(served.rows, v) && RowKind(v.kind) && After(v.hlc, ZERO)
    requires IsAnswer(served, RequestFor(t, peer), resp)
    ensures v in resp.rows
            <==> After(v.hlc, Mark(t.marks, peer, v.kind)) || ResentTo(t, peer, served, v.kind)
  {
    assert ReqSum(RequestFor(t, peer), v.kind) == RowsSum(t.rows, v.kind);
    assert ReqMark(RequestFor(t, peer), v.kind) == Mark(t.marks, peer, v.kind);
  }

  /** For any row v that the server holds: after the pull the client covers v if and only
      if it did before, v is above the client's watermark, or the kind is resent whole. A
      row that reached the server late, through a third node, can fail all three. */
  lemma PullCoversExactly(t: Tables, peer: Str, served: Tables, resp: Response, v: Row)
    requires WellKeyed(served.rows) && Holds(served.rows, v) && RowKind(v.kind) && After(v.hlc, ZERO)
    requires IsAnswer(served, RequestFor(t, peer), resp)
    ensures Covers(RowsApplied(t, peer, resp.rows).rows, v)
            <==> || Covers(t.rows, v)
                 || After(v.hlc, Mark(t.marks, peer, v.kind))
                 || ResentTo(t, peer, served, v.kind)
  {
    SentExactlyWhen(t, peer, served, resp, v);
    JoinBatchIsJoin(t.rows, resp.rows);
    if Covers(t.rows, v) {
      JoinKeepsCover(t.rows, resp.rows, v);
    } else if v !in resp.rows {
      OthersDoNotCover(t.rows, served.rows, resp.rows, v);
    }
  }

  lemma OthersDoNotCover(rows: Rows, served: Rows, batch: seq<Row>, v: Row)
    requires WellKeyed(served) && Holds(served, v) && v !in batch && !Covers(rows, v)
    requires forall r :: r in batch ==> Holds(served, r)
    ensures !Covers(JoinBatch(rows, batch), v)
  {
    JoinBatchIsJoin(rows, batch);
    if KeyOf(v) in JoinBatch(rows, batch) && JoinBatch(rows, batch)[KeyOf(v)] in batch {
      assert Holds(served, JoinBatch(rows, batch)[KeyOf(v)]);
    }
  }

  /** Anti-entropy: when the server has nothing above the client's watermark, a pull
      repairs a missing row if and only if the client's checksum is not zero and differs
      from the server's. */
  lemma AntiEntropyExactly(t: Tables, peer: Str, served: Tables, resp: Response, v: Row)
    requires WellKeyed(served.rows) && Holds(served.rows, v) && RowKind(v.kind) && After(v.hlc, ZERO)
    requires IsAnswer(served, RequestFor(t, peer), resp)
    requires NothingSince(served.rows, v.kind, Mark(t.marks, peer, v.kind)) && !Covers(t.rows, v)
    ensures Covers(RowsApplied(t, peer, resp.rows).rows, v)
            <==> RowsSum(t.rows, v.kind) != 0 && RowsSum(t.rows, v.kind) != RowsSum(served.rows, v.kind)
  {
    PullCoversExactly(t, peer, served, resp, v);
    assert !After(served.rows[KeyOf(v)].hlc, Mark(t.marks, peer, v.kind));
  }

  // ------------------------------------------------------------ full resend

  /** A full resend carries every row of the kind, all at or below the asked mark. */
  lemma ResendCarriesAll(rows: Rows, q: Request, out: seq<Row>, kind: Kind)
    requires WellKeyed(rows) && RowKind(kind) && AllRowsAnswer(rows, q, out) && Resends(rows, q, kind)
    requires Ticked(rows)
    ensures forall k :: k in rows && k.kind == kind ==> rows[k] in out
    ensures forall r :: r in out && r.kind == kind ==> !After(r.hlc, ReqMark(q, kind))
  {
    forall k | k in rows && k.kind == kind ensures rows[k] in out {
      assert Holds(rows, rows[k]);
    }
  }

  /** A full resend makes the client dominate every row of the kind the server holds,
      and moves no watermark. */
  lemma FullResend(client: Tables, rows: Rows, peer: Str, q: Request, out: seq<Row>, kind: Kind)
    requires WellKeyed(rows) && RowKind(kind) && AllRowsAnswer(rows, q, out) && Resends(rows, q, kind)
    requires !After(ReqMark(q, kind), Mark(client.marks, peer, kind)) && !After(ZERO, Mark(client.marks, peer, kind))
    requires Ticked(rows)
    ensures forall k :: k in rows && k.kind == kind ==> Covers(RowsApplied(client, peer, out).rows, rows[k])
    ensures Mark(RowsApplied(client, peer, out).marks, peer, kind) == Mark(client.marks, peer, kind)
  {
    ResendCarriesAll(rows, q, out, kind);
    CarriedIsCovered(client.rows, rows, out, kind);
    LowBatchKeepsMark(client.marks, peer, out, kind);
  }

  lemma CarriedIsCovered(client: Rows, rows: Rows, out: seq<Row>, kind: Kind)
    requires forall k :: k in rows && k.kind == kind ==> rows[k] in out
    ensures forall k :: k in rows && k.kind == kind ==> Covers(JoinBatch(client, out), rows[k])
  {
    JoinBatchIsJoin(client, out);
  }

  lemma LowBatchKeepsMark(marks: Marks, peer: Str, out: seq<Row>, kind: Kind)
    requires forall r :: r in out && r.kind == kind ==> !After(r.hlc, Mark(marks, peer, kind))
    requires !After(ZERO, Mark(marks, peer, kind))
    ensures Mark(AdvanceMarks(marks, peer, out), peer, kind) == Mark(marks, peer, kind)
  {
    AdvancedMark(marks, peer, out, peer, kind);
    BatchMaxIsMax(out, kind);
  }

  /** a pulls a full resend from b, and then b one from a, with nothing written in
      between: the two tables are then equal on the kind, when stamps determine content. */
  lemma ResendsBothWays(a: Rows, b: Rows, qa: Request, toA: seq<Row>, qb: Request, toB: seq<Row>, kind: Kind)
    requires WellKeyed(a) && WellKeyed(b) && RowKind(kind) && StampsDetermine(a.Values + b.Values)
    requires Ticked(a) && Ticked(b)
    requires AllRowsAnswer(b, qa, toA) && Resends(b, qa, kind)
    requires AllRowsAnswer(JoinBatch(a, toA), qb, toB) && Resends(JoinBatch(a, toA), qb, kind)
    ensures SameOnKind(JoinBatch(a, toA), JoinBatch(b, toB), kind)
  {
    JoinedFromBoth(a, b, toA);
    ResendCarriesAll(b, qa, toA, kind);
    ResendCarriesAll(JoinBatch(a, toA), qb, toB, kind);
    ExchangeAgrees(a, b, toA, toB, kind);
  }

  /** Every row carries a stamp some tick issued. */
  ghost predicate Ticked(rows: Rows) {
    forall k :: k in rows ==> After(rows[k].hlc, ZERO)
  }

  ghost predicate SameOnKind(a: Rows, b: Rows, kind: Kind) {
    forall k: RowKey :: k.kind == kind ==> (k in a <==> k in b) && (k in a && k in b ==> a[k] == b[k])
  }

  lemma JoinedFromBoth(a: Rows, b: Rows, toA: seq<Row>)
    requires WellKeyed(a) && WellKeyed(b) && Ticked(a) && Ticked(b) && forall r :: r in toA ==> Holds(b, r)
    ensures WellKeyed(JoinBatch(a, toA)) && Ticked(JoinBatch(a, toA))
  {
    JoinBatchIsJoin(a, toA);
  }

  /** After both exchanges the two tables have the same keys of the kind. */
  lemma ExchangeSharesKeys(a: Rows, b: Rows, toA: seq<Row>, toB: seq<Row>, k: RowKey)
    requires k in b ==> b[k] in toA
    requires k in JoinBatch(a, toA) ==> JoinBatch(a, toA)[k] in toB
    requires WellKeyed(b) && WellKeyed(JoinBatch(a, toA)) && forall r :: r in toB ==> Holds(JoinBatch(a, toA), r)
    ensures var a', b' := JoinBatch(a, toA), JoinBatch(b, toB);
            && (k in a' <==> k in b')
            && (k in a' && k in b' ==> AtLeast(b'[k], a'[k]) && AtLeast(a'[k], b'[k]))
  {
    var a', b' := JoinBatch(a, toA), JoinBatch(b, toB);
    JoinBatchIsJoin(a, toA);
    JoinBatchIsJoin(b, toB);
    if k in a' {
      assert Covers(b', a'[k]);
    }
    if k in b' && k in b && b'[k] == b[k] {
      assert Covers(a', b[k]);
    } else if k in b' {
      assert Holds(a', b'[k]);
      AtLeastReflexive(b'[k]);
    }
  }

  lemma ExchangeAgrees(a: Rows, b: Rows, toA: seq<Row>, toB: seq<Row>, kind: Kind)
    requires WellKeyed(a) && WellKeyed(b) && WellKeyed(JoinBatch(a, toA)) && StampsDetermine(a.Values + b.Values)
    requires forall k :: k in b && k.kind == kind ==> b[k] in toA
    requires forall k :: k in JoinBatch(a, toA) && k.kind == kind ==> JoinBatch(a, toA)[k] in toB
    requires (forall r :: r in toA ==> Holds(b, r)) && (forall r :: r in toB ==> Holds(JoinBatch(a, toA), r))
    ensures SameOnKind(JoinBatch(a, toA), JoinBatch(b, toB), kind)
  {
    var a', b' := JoinBatch(a, toA), JoinBatch(b, toB);
    JoinBatchIsJoin(a, toA);
    JoinBatchIsJoin(b, toB);
    forall k: RowKey | k.kind == kind ensures (k in a' <==> k in b') && (k in a' && k in b' ==> a'[k] == b'[k]) {
      ExchangeSharesKeys(a, b, toA, toB, k);
      if k in a' && k in b' {
        ResendEntryAgrees(a, b, a', b', k);
      }
    }
  }

  lemma ResendEntryAgrees(a: Rows, b: Rows, a': Rows, b': Rows, k: RowKey)
    requires StampsDetermine(a.Values + b.Values) && k in a' && k in b'
    requires a'[k] in a.Values + b.Values && KeyOf(a'[k]) == k
    requires b'[k] in a.Values + b.Values && KeyOf(b'[k]) == k
    requires AtLeast(b'[k], a'[k]) && AtLeast(a'[k], b'[k])
    ensures a'[k] == b'[k]
  {
    NewerTrichotomy(a'[k], b'[k]);
  }

  // ------------------------------------------------------------ the same for events

  lemma EventSentExactlyWhen(t: Tables, peer: Str, served: Tables, resp: Response, e: LogEvent)
    requires HoldsEvent(served.events, e) && After(e.hlc, ZERO)
    requires IsAnswer(served, RequestFor(t, peer), resp)
    ensures e in resp.events
            <==> After(e.hlc, Mark(t.marks, peer, Event)) || LogResentTo(t, peer, served)
  {
  }

  /** For any event the server holds: after the pull the client has its number if and only
      if it had it before, the event is above the watermark, or the log is resent. */
  lemma EventPullHoldsExactly(t: Tables, peer: Str, served: Tables, resp: Response, e: LogEvent)
    requires WellKeyedEvents(served.events) && HoldsEvent(served.events, e) && After(e.hlc, ZERO)
    requires IsAnswer(served, RequestFor(t, peer), resp)
    ensures EventKeyOf(e) in EventsApplied(t, peer, Mark(t.marks, peer, Event), resp.events).events
            <==> || EventKeyOf(e) in t.events
                 || After(e.hlc, Mark(t.marks, peer, Event))
                 || LogResentTo(t, peer, served)
  {
    EventSentExactlyWhen(t, peer, served, resp, e);
    InsertAllAdds(t.events, resp.events);
    if EventKeyOf(e) in InsertAll(t.events, resp.events) && EventKeyOf(e) !in t.events {
      var f :| f in resp.events && EventKeyOf(f) == EventKeyOf(e);
      assert HoldsEvent(served.events, f);
    }
  }

  /** Anti-entropy for the log: when the server has no event above the client's watermark, a
      pull brings a missing number if and only if the client's event checksum is not zero
      and differs from the server's. */
  lemma EventAntiEntropyExactly(t: Tables, peer: Str, served: Tables, resp: Response, e: LogEvent)
    requires WellKeyedEvents(served.events) && HoldsEvent(served.events, e) && After(e.hlc, ZERO)
    requires IsAnswer(served, RequestFor(t, peer), resp)
    requires NoEventsSince(served.events, Mark(t.marks, peer, Event)) && EventKeyOf(e) !in t.events
    ensures EventKeyOf(e) in EventsApplied(t, peer, Mark(t.marks, peer, Event), resp.events).events
            <==> EventsSum(t.events) != 0 && EventsSum(t.events) != EventsSum(served.events)
  {
    EventPullHoldsExactly(t, peer, served, resp, e);
    assert !After(served.events[EventKeyOf(e)].hlc, Mark(t.marks, peer, Event));
  }

  /** A full resend of the log gives the client every number the server has, and moves no
      watermark. */
  lemma FullEventResend(client: Tables, events: Events, peer: Str, q: Request, out: seq<LogEvent>)
    requires WellKeyedEvents(events) && IsEventsSince(events, AnswerEventMark(events, q), out) && ResendsEvents(events, q)
    requires !After(q.evMark, Mark(client.marks, peer, Event))
    requires forall k :: k in events ==> After(events[k].hlc, ZERO)
    ensures forall k :: k in events ==> k in EventsApplied(client, peer, q.evMark, out).events
    ensures EventsApplied(client, peer, q.evMark, out).marks == client.marks
  {
    InsertAllAdds(client.events, out);
    forall k | k in events ensures events[k] in out {
      assert HoldsEvent(events, events[k]);
    }
    EventMaxIsMax(q.evMark, out);
    forall e | e in out ensures !After(e.hlc, q.evMark) {
      assert HoldsEvent(events, e);
    }
  }
}
