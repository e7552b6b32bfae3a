/** One node's database: three tables, changed in place. Each SQL statement or
    transaction is one method; what it leaves in the tables is a function of
    what it found there. */
module Storage {
  import opened Text
  import opened Hlc
  import opened Model
  import opened Merge
  import opened Checksum
  import opened EventLog
  import opened Sorting

  // ------------------------------------------------------------ queries

  predicate RowOrder(a: Row, b: Row) {
    !After(a.hlc, b.hlc)
  }

  predicate EventOrder(a: LogEvent, b: LogEvent) {
    !After(a.hlc, b.hlc)
  }

  /** The answer to "rows of this kind above the mark": exactly those, once each,
      tombstones included, in stamp order. */
  ghost predicate IsChanges(rows: Rows, kind: Kind, wm: HLC, out: seq<Row>) {
    && (forall r :: r in out <==> Holds(rows, r) && r.kind == kind && After(r.hlc, wm))
    && Sorted(out, RowOrder)
    && Distinct(out)
  }

  ghost predicate IsEventsSince(events: Events, wm: HLC, out: seq<LogEvent>) {
    && (forall e :: e in out <==> HoldsEvent(events, e) && After(e.hlc, wm))
    && Sorted(out, EventOrder)
    && Distinct(out)
  }

  /** A stamp at or before another, on the fields. */
  predicate StampUpTo(g: HLC, h: HLC) {
    g.ts < h.ts || (g.ts == h.ts && g.ctr <= h.ctr)
  }

  /** The change query, on the fields: the kind's rows whose stamp is greater than the mark,
      by timestamp and then by counter. */
  lemma ChangesExactly(rows: Rows, kind: Kind, wm: HLC, out: seq<Row>, r: Row)
    requires IsChanges(rows, kind, wm, out)
    ensures r in out <==> Holds(rows, r) && r.kind == kind && (r.hlc.ts > wm.ts || (r.hlc.ts == wm.ts && r.hlc.ctr > wm.ctr))
    ensures forall i, j :: 0 <= i < j < |out| ==> StampUpTo(out[i].hlc, out[j].hlc) && out[i] != out[j]
  {
    AfterExactly(r.hlc, wm);
    forall i, j | 0 <= i < j < |out| ensures StampUpTo(out[i].hlc, out[j].hlc) && out[i] != out[j] {
      assert RowOrder(out[i], out[j]);
      AfterExactly(out[i].hlc, out[j].hlc);
    }
  }

  lemma EventChangesExactly(events: Events, wm: HLC, out: seq<LogEvent>, e: LogEvent)
    requires IsEventsSince(events, wm, out)
    ensures e in out <==> HoldsEvent(events, e) && (e.hlc.ts > wm.ts || (e.hlc.ts == wm.ts && e.hlc.ctr > wm.ctr))
    ensures forall i, j :: 0 <= i < j < |out| ==> StampUpTo(out[i].hlc, out[j].hlc) && out[i] != out[j]
  {
    AfterExactly(e.hlc, wm);
    forall i, j | 0 <= i < j < |out| ensures StampUpTo(out[i].hlc, out[j].hlc) && out[i] != out[j] {
      assert EventOrder(out[i], out[j]);
      AfterExactly(out[i].hlc, out[j].hlc);
    }
  }

  predicate KeyOrder(a: Row, b: Row) {
    a.key == b.key || Less(a.key, b.key)
  }

  lemma KeyOrderIsTotal()
    ensures TotalPreorder(KeyOrder)
  {
    forall a, b ensures KeyOrder(a, b) || KeyOrder(b, a) {
      LessTotal(a.key, b.key);
    }
    forall a, b, c | KeyOrder(a, b) && KeyOrder(b, c) ensures KeyOrder(a, c) {
      if a.key != b.key && b.key != c.key {
        LessTransitive(a.key, b.key, c.key);
      }
    }
  }

  /** The answer to a listing without filters and limits: the live rows of the kind, once
      each, by key. */
  ghost predicate IsListing(rows: Rows, kind: Kind, out: seq<Row>) {
    && (forall r :: r in out <==> Holds(rows, r) && r.kind == kind && !r.tombstone)
    && Sorted(out, KeyOrder)
    && Distinct(out)
  }

  lemma ListingIsStrict(rows: Rows, kind: Kind, a: seq<Row>, i: nat, j: nat)
    requires WellKeyed(rows) && IsListing(rows, kind, a) && i < j < |a|
    ensures Less(a[i].key, a[j].key) && !Less(a[j].key, a[i].key)
  {
    assert a[i] in a && a[j] in a && KeyOrder(a[i], a[j]);
    assert KeyOf(a[i]) != KeyOf(a[j]);
    LessTrichotomy(a[i].key, a[j].key);
  }

  /** Earlier in the listing means the smaller byte at the first difference of the keys, or
      the shorter key. */
  lemma ListingIsByKey(rows: Rows, kind: Kind, a: seq<Row>, i: nat, j: nat)
    requires WellKeyed(rows) && IsListing(rows, kind, a) && i < |a| && j < |a|
    ensures i < j <==> exists d: nat :: SmallerAt(a[i].key, a[j].key, d)
  {
    LessExactly(a[i].key, a[j].key);
    if i < j {
      ListingIsStrict(rows, kind, a, i, j);
    } else if j < i {
      ListingIsStrict(rows, kind, a, j, i);
    } else {
      LessIrreflexive(a[i].key);
    }
  }

  /** There is only one such answer, since keys do not repeat. */
  lemma {:induction false} ListingIsUnique(rows: Rows, kind: Kind, a: seq<Row>, b: seq<Row>, i: nat)
    requires WellKeyed(rows) && IsListing(rows, kind, a) && IsListing(rows, kind, b) && i < |a|
    ensures i < |b| && a[i] == b[i]
  {
    forall m: nat | m < i ensures m < |b| && a[m] == b[m] {
      ListingIsUnique(rows, kind, a, b, m);
    }
    assert a[i] in b;
    var j :| 0 <= j < |b| && b[j] == a[i];
    assert i <= j;
    assert b[i] in b && b[i] in a;
    var m :| 0 <= m < |a| && a[m] == b[i];
    assert i <= m;
    assert i < m ==> KeyOrder(a[i], a[m]) && KeyOf(a[i]) != KeyOf(a[m]);
    if i < j {
      ListingIsStrict(rows, kind, b, i, j);
    }
  }

  /** LIMIT and OFFSET as the query is put together: an offset needs a limit, and -1 is no
      limit. */
  function Page<T>(all: seq<T>, limit: int, offset: int): seq<T> {
    var from := if (limit > 0 || limit == -1) && offset > 0 then (if offset < |all| then offset else |all|) else 0;
    if 0 < limit < |all| - from then all[from..from + limit] else all[from..]
  }

  function AtMost(x: int, y: int): int {
    if x < y then x else y
  }

  /** A page is the stretch of the listing that starts at the offset and is as long as the
      limit, cut at the end. Without a limit there is no offset, unless the limit is -1. */
  lemma PageExactly<T>(all: seq<T>, limit: int, offset: nat, i: nat)
    ensures limit > 0 ==>
              && |Page(all, limit, offset)| == AtMost(limit, |all| - AtMost(offset, |all|))
              && (i < |Page(all, limit, offset)| ==> offset + i < |all| && Page(all, limit, offset)[i] == all[offset + i])
    ensures limit == -1 ==> Page(all, limit, offset) == all[AtMost(offset, |all|)..]
    ensures limit <= 0 && limit != -1 ==> Page(all, limit, offset) == all
  {
  }

  /** Pages of one size, one after the other, are the whole listing. */
  lemma PagesJoin<T>(all: seq<T>, limit: int, offset: int)
    requires limit > 0 && offset >= 0
    ensures Page(all, -1, 0) == all
    ensures Page(all, -1, offset) == Page(all, limit, offset) + Page(all, -1, offset + limit)
  {
  }

  // ------------------------------------------------------------ local writes

  /** The row a delete stores: a tombstone that keeps the old payload. */
  function Tombstone(rows: Rows, kind: Kind, key: Str, owner: Str, h: HLC): Row {
    var k := RowKey(kind, key);
    Row(kind, key, owner, h, true, if k in rows then rows[k].payload else NoPayload)
  }

  predicate OwnedBy(r: Row, node: Str) {
    HasPrefix(r.owner, node + [SLASH])
  }

  /** The rows a prune of `node` rewrites: its live rows become tombstones that
      keep their owner and payload but take the stamp h. */
  function PruneDelta(rows: Rows, node: Str, h: HLC): Rows {
    map k | k in rows && OwnedBy(rows[k], node) && !rows[k].tombstone :: rows[k].(tombstone := true, hlc := h)
  }

  /** The tombstones below the limit. */
  function GcKeys(rows: Rows, limit: HLC): set<RowKey> {
    set k | k in rows && rows[k].tombstone && After(limit, rows[k].hlc)
  }

  datatype OnDisk<T> = Missing | Found(table: T)

  /** What a database file holds before it is opened. Primary keys file every record under
      its own key. */
  datatype File = File(rows: OnDisk<Rows>, events: OnDisk<Events>, marks: OnDisk<Marks>) {
    ghost predicate Keyed() {
      && (rows.Found? ==> WellKeyed(rows.table))
      && (events.Found? ==> WellKeyedEvents(events.table))
    }
  }

  class Store {
    var rows: Rows
    var events: Events
    var marks: Marks

    ghost predicate Valid()
      reads this
    {
      WellKeyed(rows) && WellKeyedEvents(events)
    }

    function Contents(): Tables
      reads this
    {
      Tables(rows, events, marks)
    }

    /** Opens a database: tables that exist are kept, and those that do not are created
        empty. */
    constructor Open(file: File)
      requires file.Keyed()
      ensures Valid()
      ensures rows == (if file.rows.Found? then file.rows.table else map[])
      ensures events == (if file.events.Found? then file.events.table else map[])
      ensures marks == (if file.marks.Found? then file.marks.table else map[])
    {
      rows := if file.rows.Found? then file.rows.table else map[];
      events := if file.events.Found? then file.events.table else map[];
      marks := if file.marks.Found? then file.marks.table else map[];
    }

    method Put(r: Row)
      requires Valid()
      modifies `rows
      ensures Valid()
      ensures rows == PutRow(old(rows), r)
    {
      rows := rows[KeyOf(r) := r];
    }

    method Apply(r: Row)
      requires Valid()
      modifies `rows
      ensures Valid()
      ensures rows == ApplyRow(old(rows), r)
      ensures Covers(rows, r)
    {
      AtLeastReflexive(r);
      if KeyOf(r) in rows && !Newer(r, rows[KeyOf(r)]) {
        return;
      }
      rows := rows[KeyOf(r) := r];
    }

    /** The transaction of a pull: merge the batch row by row, remember the greatest
        stamp of each kind (also of rows that lost), then raise the watermarks. */
    method ApplyRemote(peer: Str, batch: seq<Row>)
      requires Valid()
      modifies `rows, `marks
      ensures Valid()
      ensures rows == JoinBatch(old(rows), batch)
      ensures marks == AdvanceMarks(old(marks), peer, batch)
    {
      if |batch| == 0 {
        assert marks == AdvanceMarks(marks, peer, batch);
        return;
      }
      var maxByKind: map<Kind, HLC> := map[];
      for i := 0 to |batch|
        invariant Valid() && marks == old(marks)
        invariant rows == JoinBatch(old(rows), batch[..i])
        invariant AreMaxima(maxByKind, batch[..i])
      {
        var r := batch[i];
        assert batch[..i + 1] == batch[..i] + [r];
        JoinOneMore(old(rows), batch[..i], r);
        MaximaGrow(maxByKind, batch[..i], r);
        var seen := if r.kind in maxByKind then maxByKind[r.kind] else ZERO;
        if KeyOf(r) in rows && !Newer(r, rows[KeyOf(r)]) {
        } else {
          rows := rows[KeyOf(r) := r];
        }
        maxByKind := maxByKind[r.kind := Max(seen, r.hlc)];
      }
      assert batch[..|batch|] == batch;
      RaiseAll(peer, batch, maxByKind);
    }

    /** The second loop of ApplyRemote: the kinds in any order. */
    method RaiseAll(peer: Str, ghost batch: seq<Row>, maxByKind: map<Kind, HLC>)
      requires Valid()
      requires AreMaxima(maxByKind, batch)
      modifies `marks
      ensures marks == AdvanceMarks(old(marks), peer, batch)
    {
      var todo := maxByKind.Keys;
      ghost var done: set<Kind> := {};
      assert marks == RaiseKinds(marks, peer, batch, {});
      while todo != {}
        invariant todo !! done && todo + done == maxByKind.Keys
        invariant marks == RaiseKinds(old(marks), peer, batch, done)
        decreases todo
      {
        var kind :| kind in todo;
        RaiseOneMore(old(marks), peer, batch, done, kind);
        marks := RaiseMark(marks, peer, kind, maxByKind[kind]);
        todo, done := todo - {kind}, done + {kind};
      }
    }

    method Get(kind: Kind, key: Str) returns (found: bool, r: Row)
      ensures found <==> RowKey(kind, key) in rows
      ensures found ==> r == rows[RowKey(kind, key)]
    {
      var k := RowKey(kind, key);
      found := k in rows;
      r := if found then rows[k] else Row(kind, [], [], ZERO, false, NoPayload);
    }

    /** The listing, whole or a page of it. */
    method List(kind: Kind, limit: int, offset: int) returns (out: seq<Row>, ghost all: seq<Row>)
      requires Valid()
      ensures IsListing(rows, kind, all) && out == Page(all, limit, offset) && |out| <= |rows|
    {
      var list := ListAll(kind);
      all := list;
      out := Page(list, limit, offset);
    }

    method ListAll(kind: Kind) returns (out: seq<Row>)
      requires Valid()
      ensures IsListing(rows, kind, out) && |out| <= |rows|
    {
      KeyOrderIsTotal();
      out := [];
      var todo := rows.Keys;
      while todo != {}
        invariant todo <= rows.Keys && |out| + |todo| <= |rows.Keys|
        invariant forall r :: r in out <==> Holds(rows, r) && KeyOf(r) !in todo && r.kind == kind && !r.tombstone
        invariant Sorted(out, KeyOrder) && Distinct(out)
        decreases todo
      {
        var k :| k in todo;
        var r := rows[k];
        if r.kind == kind && !r.tombstone {
          ghost var was := |out|;
          out := Insert(out, r, KeyOrder);
          assert |out| == |multiset(out)| == was + 1;
        }
        todo := todo - {k};
      }
    }

    method ChangesSince(kind: Kind, wm: HLC) returns (out: seq<Row>)
      requires Valid()
      ensures IsChanges(rows, kind, wm, out)
    {
      out := [];
      var todo := rows.Keys;
      while todo != {}
        invariant todo <= rows.Keys
        invariant forall r :: r in out <==> Holds(rows, r) && KeyOf(r) !in todo && r.kind == kind && After(r.hlc, wm)
        invariant Sorted(out, RowOrder) && Distinct(out)
        decreases todo
      {
        var k :| k in todo;
        var r := rows[k];
        if r.kind == kind && After(r.hlc, wm) {
          out := Insert(out, r, RowOrder);
        }
        todo := todo - {k};
      }
    }

    method Delete(kind: Kind, key: Str, owner: Str, h: HLC)
      requires Valid()
      modifies `rows
      ensures Valid()
      ensures rows == PutRow(old(rows), Tombstone(old(rows), kind, key, owner, h))
    {
      var payload := NoPayload;
      var found, cur := Get(kind, key);
      if found {
        payload := cur.payload;
      }
      Put(Row(kind, key, owner, h, true, payload));
    }

    method DeleteByNode(node: Str, h: HLC)
      requires Valid()
      modifies `rows
      ensures Valid()
      ensures rows == old(rows) + PruneDelta(old(rows), node, h)
    {
      rows := map k | k in rows ::
        if OwnedBy(rows[k], node) && !rows[k].tombstone then rows[k].(tombstone := true, hlc := h) else rows[k];
    }

    method GCTombstones(limit: HLC) returns (removed: nat)
      requires Valid()
      modifies `rows
      ensures Valid()
      ensures rows == old(rows) - GcKeys(old(rows), limit)
      ensures removed == |old(rows)| - |rows|
    {
      var kept := map k | k in rows && !(rows[k].tombstone && After(limit, rows[k].hlc)) :: rows[k];
      assert kept.Keys <= rows.Keys;
      SubsetSize(kept.Keys, rows.Keys);
      removed := |rows| - |kept|;
      rows := kept;
    }

    /** The checksum loop; the query returns the live rows in no particular order. */
    method RowChecksum(kind: Kind) returns (hash: U64)
      requires Valid()
      ensures hash == RowsSum(rows, kind)
    {
      hash := 0;
      var todo := rows.Keys;
      while todo != {}
        invariant todo <= rows.Keys
        invariant hash == Fold(LiveEntries(Without(rows, todo), kind))
        decreases todo
      {
        var k :| k in todo;
        if k.kind == kind && !rows[k].tombstone {
          LiveEntriesGrow(rows, todo, k);
          var e := Entry(k.key, rows[k].hlc);
          FoldAnyFirst(LiveEntries(Without(rows, todo - {k}), kind), e);
          hash := AddTerm(hash, k.key, rows[k].hlc);
        } else {
          assert LiveEntries(Without(rows, todo - {k}), kind) == LiveEntries(Without(rows, todo), kind);
        }
        todo := todo - {k};
      }
      assert Without(rows, {}) == rows;
    }

    method AppendEvent(runner: Str, kind: EventType, payload: map<Str, Str>, h: HLC)
      requires Valid()
      modifies `events
      ensures Valid()
      ensures var e := Numbered(old(events), runner, kind, payload, h);
              EventKeyOf(e) !in old(events) && events == old(events)[EventKeyOf(e) := e]
    {
      var num := 0;
      var any := false;
      var todo := events.Keys;
      while todo != {}
        invariant todo <= events.Keys
        invariant any <==> exists k :: k in events && k !in todo && k.runner == runner
        invariant !any ==> num == 0
        invariant any ==> EventKey(runner, num) in events
        invariant forall k :: k in events && k !in todo && k.runner == runner ==> k.num <= num
        decreases todo
      {
        var k :| k in todo;
        if k.runner == runner && (!any || k.num > num) {
          num, any := k.num, true;
        }
        todo := todo - {k};
      }
      assert any ==> EventKey(runner, num) in KeysOf(events, runner);
      assert num == LastNum(events, runner);
      num := num + 1;
      var e := LogEvent(runner, num, kind, payload, h);
      assert EventKeyOf(e) !in KeysOf(events, runner);
      events := events[EventKeyOf(e) := e];
    }

    method EventsSince(wm: HLC) returns (out: seq<LogEvent>)
      requires Valid()
      ensures IsEventsSince(events, wm, out)
    {
      out := [];
      var todo := events.Keys;
      while todo != {}
        invariant todo <= events.Keys
        invariant forall e :: e in out <==> HoldsEvent(events, e) && EventKeyOf(e) !in todo && After(e.hlc, wm)
        invariant Sorted(out, EventOrder) && Distinct(out)
        decreases todo
      {
        var k :| k in todo;
        var e := events[k];
        if After(e.hlc, wm) {
          out := Insert(out, e, EventOrder);
        }
        todo := todo - {k};
      }
    }

    method EventChecksum() returns (hash: U64)
      requires Valid()
      ensures hash == EventsSum(events)
    {
      hash := 0;
      var todo := events.Keys;
      while todo != {}
        invariant todo <= events.Keys
        invariant hash == Fold(EventEntries(WithoutEvents(events, todo)))
        decreases todo
      {
        var k :| k in todo;
        EventEntriesGrow(events, todo, k);
        var e := Entry(EventText(k), events[k].hlc);
        FoldAnyFirst(EventEntries(WithoutEvents(events, todo - {k})), e);
        hash := AddTerm(hash, EventText(k), events[k].hlc);
        todo := todo - {k};
      }
      assert WithoutEvents(events, {}) == events;
    }

    method ApplyEvents(batch: seq<LogEvent>)
      requires Valid()
      modifies `events
      ensures Valid()
      ensures events == InsertAll(old(events), batch)
    {
      if |batch| == 0 {
        return;
      }
      for i := 0 to |batch|
        invariant Valid() && events == InsertAll(old(events), batch[..i])
      {
        var e := batch[i];
        assert batch[..i + 1][..i] == batch[..i];
        if EventKeyOf(e) !in events {
          events := events[EventKeyOf(e) := e];
        }
      }
      assert batch[..|batch|] == batch;
    }

    method Watermark(peer: Str, kind: Kind) returns (h: HLC)
      ensures h == Mark(marks, peer, kind)
    {
      var k := MarkKey(peer, kind);
      h := if k in marks then marks[k] else ZERO;
    }

    method SetWatermark(peer: Str, kind: Kind, h: HLC)
      modifies `marks
      ensures forall p, k :: Mark(marks, p, k)
                == if p == peer && k == kind then Max(Mark(old(marks), p, k), h) else Mark(old(marks), p, k)
      ensures marks == SetMark(old(marks), peer, kind, h)
    {
      var cur := Watermark(peer, kind);
      if !After(h, cur) {
        return;
      }
      marks := marks[MarkKey(peer, kind) := h];
    }
  }

  function SetMark(marks: Marks, peer: Str, kind: Kind, h: HLC): Marks {
    if After(h, Mark(marks, peer, kind)) then marks[MarkKey(peer, kind) := h] else marks
  }

  // ------------------------------------------------------------ helpers of the loops

  /** The running maxima of a batch: one for each kind it mentions. */
  ghost predicate AreMaxima(maxByKind: map<Kind, HLC>, batch: seq<Row>) {
    && maxByKind.Keys == KindsOf(batch)
    && forall k :: k in maxByKind ==> maxByKind[k] == BatchMax(batch, k)
  }

  lemma MaximaGrow(maxByKind: map<Kind, HLC>, batch: seq<Row>, r: Row)
    requires AreMaxima(maxByKind, batch)
    ensures var seen := if r.kind in maxByKind then maxByKind[r.kind] else ZERO;
            AreMaxima(maxByKind[r.kind := Max(seen, r.hlc)], batch + [r])
  {
    assert (batch + [r])[..|batch|] == batch;
    assert KindsOf(batch + [r]) == KindsOf(batch) + {r.kind};
    NoKindMeansZero(batch, r.kind);
  }

  lemma JoinOneMore(rows: Rows, batch: seq<Row>, r: Row)
    ensures JoinBatch(rows, batch + [r]) == ApplyRow(JoinBatch(rows, batch), r)
  {
    assert (batch + [r])[..|batch|] == batch;
  }

  lemma {:induction false} NoKindMeansZero(batch: seq<Row>, kind: Kind)
    ensures kind !in KindsOf(batch) ==> BatchMax(batch, kind) == ZERO
  {
    if batch != [] {
      var init, last := batch[..|batch| - 1], batch[|batch| - 1];
      assert batch == init + [last];
      NoKindMeansZero(init, kind);
      assert last in batch;
      assert kind in KindsOf(init) ==> kind in KindsOf(batch);
    }
  }

  lemma SubsetSize<T>(a: set<T>, b: set<T>)
    requires a <= b
    ensures |a| <= |b|
  {
    assert b == a + (b - a);
  }

  function Without(rows: Rows, todo: set<RowKey>): Rows {
    map k | k in rows && k !in todo :: rows[k]
  }

  lemma LiveEntriesGrow(rows: Rows, todo: set<RowKey>, k: RowKey)
    requires k in todo && k in rows && !rows[k].tombstone
    ensures var e := Entry(k.key, rows[k].hlc);
            var s := LiveEntries(Without(rows, todo), k.kind);
            && LiveEntries(Without(rows, todo - {k}), k.kind) == s + {e}
            && e !in s
  {
    var e := Entry(k.key, rows[k].hlc);
    var s, t := LiveEntries(Without(rows, todo), k.kind), LiveEntries(Without(rows, todo - {k}), k.kind);
    assert k in Without(rows, todo - {k}) && e in t;
    forall x ensures x in t <==> x in s || x == e {
      if x in t && x != e {
        var j :| j in Without(rows, todo - {k}) && j.kind == k.kind && !rows[j].tombstone && x == Entry(j.key, rows[j].hlc);
        assert j in Without(rows, todo);
      }
      if x in s {
        var j :| j in Without(rows, todo) && j.kind == k.kind && !rows[j].tombstone && x == Entry(j.key, rows[j].hlc);
        assert j in Without(rows, todo - {k});
      }
    }
  }

  function WithoutEvents(events: Events, todo: set<EventKey>): Events {
    map k | k in events && k !in todo :: events[k]
  }

  lemma EventEntriesGrow(events: Events, todo: set<EventKey>, k: EventKey)
    requires k in todo && k in events
    ensures var e := Entry(EventText(k), events[k].hlc);
            var s := EventEntries(WithoutEvents(events, todo));
            && EventEntries(WithoutEvents(events, todo - {k})) == s + {e}
            && e !in s
  {
    var e := Entry(EventText(k), events[k].hlc);
    var s, t := EventEntries(WithoutEvents(events, todo)), EventEntries(WithoutEvents(events, todo - {k}));
    forall j | j in WithoutEvents(events, todo) ensures EventText(j) != EventText(k) {
      if EventText(j) == EventText(k) {
        EventTextInjective(j, k);
      }
    }
    assert k in WithoutEvents(events, todo - {k}) && e in t;
    forall x ensures x in t <==> x in s || x == e {
      if x in t && x != e {
        var j :| j in WithoutEvents(events, todo - {k}) && x == Entry(EventText(j), events[j].hlc);
        assert j in WithoutEvents(events, todo);
      }
      if x in s {
        var j :| j in WithoutEvents(events, todo) && x == Entry(EventText(j), events[j].hlc);
        assert j in WithoutEvents(events, todo - {k});
      }
    }
  }

  /** The body of the checksum loops: hash ^= kHash ^ ts ^ seq. */
  method AddTerm(hash: U64, key: Str, h: HLC) returns (out: U64)
    ensures out == Xor(Term(key, h), hash)
  {
    var kHash := FnvLoop(key);
    XorFits(kHash, U64Of(h.ts));
    XorFits(Xor(kHash, U64Of(h.ts)), U64Of(h.ctr));
    XorFits(hash, Term(key, h));
    XorCommutes(hash, Term(key, h));
    out := Xor(hash, Xor(Xor(kHash, U64Of(h.ts)), U64Of(h.ctr)));
  }
}
