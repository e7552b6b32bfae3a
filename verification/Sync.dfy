/** The client half: one sync round against one peer, and tombstone collection. */
module Sync {
  import opened Text
  import opened Hlc
  import opened Model
  import opened Merge
  import opened Checksum
  import opened EventLog
  import opened Storage
  import opened Pull

  /** Tombstones are kept for one hour, in milliseconds. */
  const GRACE: int := 3_600_000

  /** What a client asks a peer: its marks for that peer and its own checksums. */
  ghost function RequestFor(t: Tables, peer: Str): Request {
    Request(map[Runner := Mark(t.marks, peer, Runner), Meta := Mark(t.marks, peer, Meta)],
            map[Runner := RowsSum(t.rows, Runner), Meta := RowsSum(t.rows, Meta)],
            Mark(t.marks, peer, Event),
            EventsSum(t.events))
  }

  /** The tables after a response's rows were merged. */
  function RowsApplied(t: Tables, peer: Str, rows: seq<Row>): Tables {
    t.(rows := JoinBatch(t.rows, rows), marks := AdvanceMarks(t.marks, peer, rows))
  }

  /** The tables after a response's events were stored, `evWm` being the mark that was asked with. */
  function EventsApplied(t: Tables, peer: Str, evWm: HLC, events: seq<LogEvent>): Tables {
    if events == [] then t
    else t.(events := InsertAll(t.events, events), marks := SetMark(t.marks, peer, Event, EventMax(evWm, events)))
  }

  function ClockAfterRows(c: HLC, rows: seq<Row>): HLC {
    if rows == [] then c else Max(c, RowsMax(rows))
  }

  function ClockAfterEvents(c: HLC, events: seq<LogEvent>): HLC {
    if events == [] then c else Max(c, EventMax(ZERO, events))
  }

  /** After a round the clock is the greatest of its old value and the stamps received: at
      or above all of them, and equal to one. */
  lemma RoundClockIsMax(c: HLC, rows: seq<Row>, events: seq<LogEvent>)
    requires !After(ZERO, c)
    ensures var d := ClockAfterEvents(ClockAfterRows(c, rows), events);
            && !After(c, d) && (forall r :: r in rows ==> !After(r.hlc, d)) && (forall e :: e in events ==> !After(e.hlc, d))
            && (d == c || (exists r :: r in rows && r.hlc == d) || (exists e :: e in events && e.hlc == d))
  {
    RowsMaxIsMax(rows);
    EventMaxIsMax(ZERO, events);
  }

  /** The stamp below which tombstones are collected, for a clock reading h. */
  function GcLimit(h: HLC): HLC {
    HLC(if h.ts > GRACE then h.ts - GRACE else 0, 0)
  }

  /** A map filled by the loop over the kinds is the map of both kinds. */
  lemma PerKind<T>(m: map<Kind, T>, x: T, y: T)
    requires forall k :: k in m <==> k in ROW_KINDS
    requires m[Runner] == x && m[Meta] == y
    ensures m == map[Runner := x, Meta := y]
  {
    assert m.Keys == {Runner, Meta};
  }

  method BuildRequest(st: Store, peer: Str) returns (q: Request)
    requires st.Valid()
    ensures q == RequestFor(st.Contents(), peer)
  {
    var marks: map<Kind, HLC> := map[];
    var sums: map<Kind, U64> := map[];
    for i := 0 to |ROW_KINDS|
      invariant forall k :: k in marks <==> k in ROW_KINDS[..i]
      invariant forall k :: k in sums <==> k in ROW_KINDS[..i]
      invariant forall k :: k in marks ==> marks[k] == Mark(st.marks, peer, k)
      invariant forall k :: k in sums ==> sums[k] == RowsSum(st.rows, k)
    {
      var kind := ROW_KINDS[i];
      assert ROW_KINDS[..i + 1] == ROW_KINDS[..i] + [kind];
      var wm := st.Watermark(peer, kind);
      marks := marks[kind := wm];
      var chk := st.RowChecksum(kind);
      sums := sums[kind := chk];
    }
    assert ROW_KINDS[..|ROW_KINDS|] == ROW_KINDS;
    PerKind(marks, Mark(st.marks, peer, Runner), Mark(st.marks, peer, Meta));
    PerKind(sums, RowsSum(st.rows, Runner), RowsSum(st.rows, Meta));
    var evWm := st.Watermark(peer, Event);
    var evChk := st.EventChecksum();
    q := Request(marks, sums, evWm, evChk);
  }

  method ApplyResponse(st: Store, clock: Clock, peer: Str, evMark: HLC, resp: Response)
    requires st.Valid()
    modifies st, clock
    ensures st.Valid()
    ensures st.Contents() == EventsApplied(RowsApplied(old(st.Contents()), peer, resp.rows), peer, evMark, resp.events)
    ensures clock.Value() == ClockAfterEvents(ClockAfterRows(old(clock.Value()), resp.rows), resp.events)
  {
    if |resp.rows| > 0 {
      var rows: seq<Row> := [];
      var maxHLC := ZERO;
      for i := 0 to |resp.rows|
        invariant rows == resp.rows[..i] && maxHLC == RowsMax(resp.rows[..i])
      {
        var row := resp.rows[i];
        assert resp.rows[..i + 1][..i] == resp.rows[..i];
        rows := rows + [row];
        if After(row.hlc, maxHLC) {
          maxHLC := row.hlc;
        }
      }
      assert resp.rows[..|resp.rows|] == resp.rows;
      st.ApplyRemote(peer, rows);
      clock.Update(maxHLC);
    } else {
      assert RowsApplied(st.Contents(), peer, resp.rows) == st.Contents();
    }
    if |resp.events| > 0 {
      var evWm := evMark;
      var incoming: seq<LogEvent> := [];
      var maxEvHLC := ZERO;
      for i := 0 to |resp.events|
        invariant incoming == resp.events[..i]
        invariant evWm == EventMax(evMark, resp.events[..i]) && maxEvHLC == EventMax(ZERO, resp.events[..i])
      {
        var ev := resp.events[i];
        assert resp.events[..i + 1][..i] == resp.events[..i];
        incoming := incoming + [ev];
        if After(ev.hlc, evWm) {
          evWm := ev.hlc;
        }
        if After(ev.hlc, maxEvHLC) {
          maxEvHLC := ev.hlc;
        }
      }
      assert resp.events[..|resp.events|] == resp.events;
      st.ApplyEvents(incoming);
      st.SetWatermark(peer, Event, evWm);
      clock.Update(maxEvHLC);
    }
  }

  /** One round with nothing else going on. A peer that cannot be reached leaves
      everything as it was; otherwise the client ends up at or above every row the
      peer holds beyond the watermark, and loses nothing it covered before. */
  method RoundOnce(st: Store, clock: Clock, peer: Str, server: Store, reachable: bool)
    returns (ok: bool, resp: Response)
    requires st.Valid() && server.Valid() && st != server
    modifies st, clock
    ensures ok == reachable && st.Valid()
    ensures !ok ==> st.Contents() == old(st.Contents()) && clock.Value() == old(clock.Value())
    ensures ok ==>
      var was := old(st.Contents());
      var q := RequestFor(was, peer);
      && IsAnswer(server.Contents(), q, resp)
      && st.Contents() == EventsApplied(RowsApplied(was, peer, resp.rows), peer, q.evMark, resp.events)
      && clock.Value() == ClockAfterEvents(ClockAfterRows(old(clock.Value()), resp.rows), resp.events)
      && (forall r :: Holds(server.rows, r) && RowKind(r.kind) && After(r.hlc, Mark(was.marks, peer, r.kind)) ==> Covers(st.rows, r))
      && (forall w :: Covers(was.rows, w) ==> Covers(st.rows, w))
  {
    var q := BuildRequest(st, peer);
    if !reachable {
      return false, Response(peer, [], map[], [], 0);
    }
    resp := ServePull(server, peer, q);
    RoundDelivers(st.Contents(), peer, server.Contents(), resp);
    ApplyResponse(st, clock, peer, q.evMark, resp);
    ok := true;
  }

  /** The rows beyond the watermark arrive, and nothing covered is lost. */
  lemma RoundDelivers(was: Tables, peer: Str, served: Tables, resp: Response)
    requires IsAnswer(served, RequestFor(was, peer), resp) && WellKeyed(served.rows)
    ensures forall r :: Holds(served.rows, r) && RowKind(r.kind) && After(r.hlc, Mark(was.marks, peer, r.kind)) ==>
              Covers(JoinBatch(was.rows, resp.rows), r)
    ensures forall w :: Covers(was.rows, w) ==> Covers(JoinBatch(was.rows, resp.rows), w)
  {
    JoinBatchIsJoin(was.rows, resp.rows);
    forall r | Holds(served.rows, r) && RowKind(r.kind) && After(r.hlc, Mark(was.marks, peer, r.kind))
      ensures Covers(JoinBatch(was.rows, resp.rows), r)
    {
      assert r in resp.rows;
    }
    forall w | Covers(was.rows, w) ensures Covers(JoinBatch(was.rows, resp.rows), w) {
      JoinKeepsCover(was.rows, resp.rows, w);
    }
  }

  method GcTombstones(st: Store, clock: Clock, now: int) returns (removed: nat)
    requires st.Valid()
    modifies st, clock
    ensures st.Valid()
    ensures clock.Value() == TickFrom(old(clock.Value()), now)
    ensures st.Contents() == old(st.Contents()).(rows := old(st.rows) - GcKeys(old(st.rows), GcLimit(clock.Value())))
  {
    var h := clock.Tick(now);
    var minTS := 0;
    if h.ts > GRACE {
      minTS := h.ts - GRACE;
    }
    removed := st.GCTombstones(HLC(minTS, 0));
  }
}
