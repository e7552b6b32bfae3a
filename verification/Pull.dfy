/** The server half of a pull: what changed since the caller's watermark, and a
    full resend when nothing did but the checksums disagree. */
module Pull {
  import opened Text
  import opened Hlc
  import opened Model
  import opened Checksum
  import opened Sorting
  import opened Storage

  datatype Request = Request(marks: map<Kind, HLC>, sums: map<Kind, U64>, evMark: HLC, evSum: U64)

  datatype Response = Response(node: Str, rows: seq<Row>, sums: map<Kind, U64>, events: seq<LogEvent>, evSum: U64)

  /** A watermark the request leaves out reads as zero, and so does a checksum. */
  function ReqMark(q: Request, kind: Kind): HLC {
    if kind in q.marks then q.marks[kind] else ZERO
  }

  function ReqSum(q: Request, kind: Kind): U64 {
    if kind in q.sums then q.sums[kind] else 0
  }

  ghost predicate NothingSince(rows: Rows, kind: Kind, wm: HLC) {
    forall k :: k in rows && k.kind == kind ==> !After(rows[k].hlc, wm)
  }

  ghost predicate NoEventsSince(events: Events, wm: HLC) {
    forall k :: k in events ==> !After(events[k].hlc, wm)
  }

  /** The guard of the full resend: nothing newer, and a non-zero checksum that differs. */
  ghost predicate Resends(rows: Rows, q: Request, kind: Kind) {
    NothingSince(rows, kind, ReqMark(q, kind)) && ReqSum(q, kind) != 0 && ReqSum(q, kind) != RowsSum(rows, kind)
  }

  ghost predicate ResendsEvents(events: Events, q: Request) {
    NoEventsSince(events, q.evMark) && q.evSum != 0 && q.evSum != EventsSum(events)
  }

  /** The mark an answer really starts from. */
  ghost function AnswerMark(rows: Rows, q: Request, kind: Kind): HLC {
    if Resends(rows, q, kind) then ZERO else ReqMark(q, kind)
  }

  ghost function AnswerEventMark(events: Events, q: Request): HLC {
    if ResendsEvents(events, q) then ZERO else q.evMark
  }

  function Rank(kind: Kind): int {
    match kind
    case Runner => 0
    case Meta => 1
    case Event => 2
  }

  /** Runner rows first, then meta rows, each by stamp. */
  predicate PullOrder(a: Row, b: Row) {
    Rank(a.kind) < Rank(b.kind) || (a.kind == b.kind && !After(a.hlc, b.hlc))
  }

  ghost predicate RowsAnswer(rows: Rows, q: Request, kinds: seq<Kind>, out: seq<Row>) {
    && (forall r :: r in out <==> Holds(rows, r) && r.kind in kinds && After(r.hlc, AnswerMark(rows, q, r.kind)))
    && Sorted(out, PullOrder)
    && Distinct(out)
  }

  ghost predicate AllRowsAnswer(rows: Rows, q: Request, out: seq<Row>) {
    && (forall r :: r in out <==> Holds(rows, r) && RowKind(r.kind) && After(r.hlc, AnswerMark(rows, q, r.kind)))
    && Sorted(out, PullOrder)
    && Distinct(out)
  }

  /** `resp` is an answer the server may give to q. Only the order of rows with
      equal stamps is left open. */
  ghost predicate IsAnswer(t: Tables, q: Request, resp: Response) {
    && AllRowsAnswer(t.rows, q, resp.rows)
    && resp.sums == map[Runner := RowsSum(t.rows, Runner), Meta := RowsSum(t.rows, Meta)]
    && IsEventsSince(t.events, AnswerEventMark(t.events, q), resp.events)
    && resp.evSum == EventsSum(t.events)
  }

  /** A request that names no mark for a kind is sent every row of it that carries a tick,
      and one that names no checksum never causes a resend. */
  lemma OmittedReadsAsZero(t: Tables, q: Request, resp: Response, r: Row)
    requires IsAnswer(t, q, resp) && Holds(t.rows, r) && RowKind(r.kind)
    ensures r.kind !in q.marks && (r.hlc.ts > 0 || (r.hlc.ts == 0 && r.hlc.ctr > 0)) ==> r in resp.rows
    ensures r.kind in q.marks && r.kind !in q.sums && r in resp.rows ==> After(r.hlc, q.marks[r.kind])
  {
    AfterExactly(r.hlc, ZERO);
  }

  /** The order of an answer, on the fields: runner rows first, each kind by stamp. */
  lemma AnswerOrder(t: Tables, q: Request, resp: Response, i: nat, j: nat)
    requires IsAnswer(t, q, resp) && i < j < |resp.rows|
    ensures resp.rows[i].kind == resp.rows[j].kind ==> StampUpTo(resp.rows[i].hlc, resp.rows[j].hlc)
    ensures resp.rows[i].kind != resp.rows[j].kind ==> resp.rows[i].kind == Runner && resp.rows[j].kind == Meta
  {
    assert resp.rows[i] in resp.rows && resp.rows[j] in resp.rows;
    assert PullOrder(resp.rows[i], resp.rows[j]);
    AfterExactly(resp.rows[i].hlc, resp.rows[j].hlc);
  }

  // ------------------------------------------------------------ answers in parts

  function AskedMark(q: Request, kind: Kind): HLC {
    if kind == Event then q.evMark else ReqMark(q, kind)
  }

  /** `resp` answers q for the kinds in `starts`, each from the asked mark or, as a full
      resend does, from zero. The server makes its queries one after the other, and whether
      it resends depends on a checksum it took before, so an answer for some of the kinds,
      from either mark, is what it gives at one moment. */
  ghost predicate IsPart(t: Tables, q: Request, starts: map<Kind, HLC>, resp: Response) {
    && (forall kind :: kind in starts ==> starts[kind] == AskedMark(q, kind) || starts[kind] == ZERO)
    && PartOfRows(t.rows, starts, resp.rows)
    && if Event in starts then IsEventsSince(t.events, starts[Event], resp.events) else resp.events == []
  }

  ghost predicate PartOfRows(rows: Rows, starts: map<Kind, HLC>, out: seq<Row>) {
    && (forall r :: r in out <==> Holds(rows, r) && RowKind(r.kind) && r.kind in starts && After(r.hlc, starts[r.kind]))
    && Sorted(out, PullOrder)
    && Distinct(out)
  }

  /** Where a whole answer, made at one moment, starts. */
  ghost function StartsOf(t: Tables, q: Request): map<Kind, HLC> {
    map[Runner := AnswerMark(t.rows, q, Runner), Meta := AnswerMark(t.rows, q, Meta), Event := AnswerEventMark(t.events, q)]
  }

  lemma AllKindsStart(t: Tables, q: Request)
    ensures StartsOf(t, q).Keys == {Runner, Meta, Event}
  {
  }

  /** A whole answer is one part. */
  lemma AnswerIsPart(t: Tables, q: Request, resp: Response)
    requires IsAnswer(t, q, resp)
    ensures IsPart(t, q, StartsOf(t, q), resp)
  {
    var starts := StartsOf(t, q);
    forall kind | RowKind(kind) ensures kind in starts && starts[kind] == AnswerMark(t.rows, q, kind) {
    }
  }

  method ServePull(st: Store, node: Str, q: Request) returns (resp: Response)
    requires st.Valid()
    ensures IsAnswer(st.Contents(), q, resp) && resp.node == node
  {
    var rows: seq<Row> := [];
    var sums: map<Kind, U64> := map[];
    for i := 0 to |ROW_KINDS|
      invariant RowsAnswer(st.rows, q, ROW_KINDS[..i], rows)
      invariant AreSums(st.rows, ROW_KINDS[..i], sums)
    {
      var kind := ROW_KINDS[i];
      var chk, found := ServeKind(st, q, kind);
      assert ROW_KINDS[..i + 1] == ROW_KINDS[..i] + [kind];
      AppendKind(st.rows, q, i, rows, found);
      rows := rows + found;
      sums := sums[kind := chk];
    }
    assert ROW_KINDS[..|ROW_KINDS|] == ROW_KINDS;
    AllKindsAnswered(st.rows, q, rows, sums);
    var evChk, evs := ServeEvents(st, q);
    resp := Response(node, rows, sums, evs, evChk);
  }

  ghost predicate AreSums(rows: Rows, kinds: seq<Kind>, sums: map<Kind, U64>) {
    && (forall k :: k in sums <==> k in kinds)
    && forall k :: k in sums ==> sums[k] == RowsSum(rows, k)
  }

  lemma AllKindsAnswered(rows: Rows, q: Request, out: seq<Row>, sums: map<Kind, U64>)
    requires RowsAnswer(rows, q, ROW_KINDS, out) && AreSums(rows, ROW_KINDS, sums)
    ensures AllRowsAnswer(rows, q, out)
    ensures sums == map[Runner := RowsSum(rows, Runner), Meta := RowsSum(rows, Meta)]
  {
    assert forall kind :: RowKind(kind) <==> kind in ROW_KINDS;
    assert sums.Keys == {Runner, Meta};
  }

  /** One turn of the loop over the kinds. */
  method ServeKind(st: Store, q: Request, kind: Kind) returns (chk: U64, rows: seq<Row>)
    requires st.Valid()
    ensures chk == RowsSum(st.rows, kind)
    ensures IsChanges(st.rows, kind, AnswerMark(st.rows, q, kind), rows)
  {
    var wm := ReqMark(q, kind);
    chk := st.RowChecksum(kind);
    var reqChk := ReqSum(q, kind);
    rows := st.ChangesSince(kind, wm);
    EmptyMeansNothing(st.rows, kind, wm, rows);
    if |rows| == 0 && reqChk != 0 && reqChk != chk {
      wm := ZERO;
      rows := st.ChangesSince(kind, wm);
    }
  }

  method ServeEvents(st: Store, q: Request) returns (chk: U64, evs: seq<LogEvent>)
    requires st.Valid()
    ensures chk == EventsSum(st.events)
    ensures IsEventsSince(st.events, AnswerEventMark(st.events, q), evs)
  {
    chk := st.EventChecksum();
    evs := st.EventsSince(q.evMark);
    EmptyMeansNoEvents(st.events, q.evMark, evs);
    if |evs| == 0 && q.evSum != 0 && q.evSum != chk {
      evs := st.EventsSince(ZERO);
    }
  }

  lemma EmptyMeansNothing(rows: Rows, kind: Kind, wm: HLC, out: seq<Row>)
    requires WellKeyed(rows) && IsChanges(rows, kind, wm, out)
    ensures out == [] <==> NothingSince(rows, kind, wm)
  {
    if out == [] {
      forall k | k in rows && k.kind == kind ensures !After(rows[k].hlc, wm) {
        assert Holds(rows, rows[k]);
        assert rows[k] !in out;
      }
    } else {
      assert out[0] in out;
      assert After(rows[KeyOf(out[0])].hlc, wm);
    }
  }

  lemma EmptyMeansNoEvents(events: Events, wm: HLC, out: seq<LogEvent>)
    requires WellKeyedEvents(events) && IsEventsSince(events, wm, out)
    ensures out == [] <==> NoEventsSince(events, wm)
  {
    if out == [] {
      forall k | k in events ensures !After(events[k].hlc, wm) {
        assert HoldsEvent(events, events[k]);
        assert events[k] !in out;
      }
    } else {
      assert out[0] in out;
      assert After(events[EventKeyOf(out[0])].hlc, wm);
    }
  }

  lemma AppendKind(rows: Rows, q: Request, i: nat, out: seq<Row>, found: seq<Row>)
    requires i < |ROW_KINDS|
    requires RowsAnswer(rows, q, ROW_KINDS[..i], out)
    requires IsChanges(rows, ROW_KINDS[i], AnswerMark(rows, q, ROW_KINDS[i]), found)
    ensures RowsAnswer(rows, q, ROW_KINDS[..i + 1], out + found)
  {
    var all := out + found;
    assert ROW_KINDS[..i + 1] == ROW_KINDS[..i] + [ROW_KINDS[i]];
    assert forall r :: r in all <==> r in out || r in found;
    forall a, b | 0 <= a < b < |all| ensures PullOrder(all[a], all[b]) && all[a] != all[b] {
      if b < |out| {
        assert PullOrder(out[a], out[b]) && out[a] != out[b];
      } else if a >= |out| {
        assert found[a - |out|] in found && found[b - |out|] in found;
        assert RowOrder(found[a - |out|], found[b - |out|]);
      } else {
        assert out[a] in out && found[b - |out|] in found;
        assert out[a].kind in ROW_KINDS[..i];
      }
    }
  }
}
