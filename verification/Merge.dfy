/** The guarded merge of remote rows, and the watermark it advances.
    `ApplyRemote` turns out to be a join: pointwise maximum under last-writer-wins. */
module Merge {
  import opened Text
  import opened Hlc
  import opened Model

  /** A blind write: whatever was there is replaced. */
  function PutRow(rows: Rows, r: Row): Rows {
    rows[KeyOf(r) := r]
  }

  /** A guarded write: r replaces the current row only if it is newer. */
  function ApplyRow(rows: Rows, r: Row): Rows {
    if KeyOf(r) in rows && !Newer(r, rows[KeyOf(r)]) then rows else PutRow(rows, r)
  }

  /** The batch applied row by row, in order. */
  function JoinBatch(rows: Rows, batch: seq<Row>): Rows {
    if batch == [] then rows
    else ApplyRow(JoinBatch(rows, batch[..|batch| - 1]), batch[|batch| - 1])
  }

  function ToSet<T>(s: seq<T>): set<T> {
    set x | x in s
  }

  // ------------------------------------------------------------ the join

  /** `out` is the pointwise maximum of `rows` and the rows in `s`. */
  ghost predicate IsJoin(rows: Rows, s: set<Row>, out: Rows) {
    && (forall k :: k in rows ==> k in out && AtLeast(out[k], rows[k]))
    && (forall r :: r in s ==> Covers(out, r))
    && (forall k :: k in out ==> (k in rows && out[k] == rows[k]) || (out[k] in s && KeyOf(out[k]) == k))
  }

  lemma {:induction false} JoinBatchIsJoin(rows: Rows, batch: seq<Row>)
    ensures IsJoin(rows, ToSet(batch), JoinBatch(rows, batch))
  {
    if batch == [] {
      forall k | k in rows ensures AtLeast(rows[k], rows[k]) {
        AtLeastReflexive(rows[k]);
      }
    } else {
      var init, last := batch[..|batch| - 1], batch[|batch| - 1];
      JoinBatchIsJoin(rows, init);
      assert batch == init + [last];
      assert ToSet(batch) == ToSet(init) + {last};
      ApplyRowExtendsJoin(rows, ToSet(init), JoinBatch(rows, init), last);
    }
  }

  lemma ApplyRowExtendsJoin(rows: Rows, s: set<Row>, mid: Rows, r: Row)
    requires IsJoin(rows, s, mid)
    ensures IsJoin(rows, s + {r}, ApplyRow(mid, r))
  {
    var out := ApplyRow(mid, r);
    AtLeastReflexive(r);
    if KeyOf(r) in mid {
      NewerTrichotomy(r, mid[KeyOf(r)]);
    }
    forall k | k in rows ensures k in out && AtLeast(out[k], rows[k]) {
      if k == KeyOf(r) {
        AtLeastTransitive(out[k], mid[k], rows[k]);
      }
    }
    forall x | x in s ensures Covers(out, x) {
      if KeyOf(x) == KeyOf(r) {
        AtLeastTransitive(out[KeyOf(x)], mid[KeyOf(x)], x);
      }
    }
  }

  /** When stamps determine content there is only one join. */
  lemma JoinIsUnique(rows: Rows, s: set<Row>, a: Rows, b: Rows)
    requires WellKeyed(rows)
    requires StampsDetermine(rows.Values + s)
    requires IsJoin(rows, s, a) && IsJoin(rows, s, b)
    ensures a == b
  {
    forall k | k in a ensures k in b && a[k] == b[k] {
      JoinEntryUnique(rows, s, a, b, k);
    }
    forall k | k in b ensures k in a {
      JoinEntryUnique(rows, s, b, a, k);
    }
  }

  lemma JoinEntryUnique(rows: Rows, s: set<Row>, a: Rows, b: Rows, k: RowKey)
    requires WellKeyed(rows)
    requires StampsDetermine(rows.Values + s)
    requires IsJoin(rows, s, a) && IsJoin(rows, s, b)
    requires k in a
    ensures k in b && a[k] == b[k]
  {
    assert a[k] in rows.Values + s && KeyOf(a[k]) == k;
    assert k in b && AtLeast(b[k], a[k]);
    assert b[k] in rows.Values + s && KeyOf(b[k]) == k;
    assert AtLeast(a[k], b[k]);
    NewerTrichotomy(a[k], b[k]);
  }

  /** Applying a batch in pieces is applying it whole. */
  lemma {:induction false} JoinSplits(rows: Rows, a: seq<Row>, b: seq<Row>)
    ensures JoinBatch(JoinBatch(rows, a), b) == JoinBatch(rows, a + b)
  {
    if b == [] {
      assert a + b == a;
    } else {
      var init, last := b[..|b| - 1], b[|b| - 1];
      JoinSplits(rows, a, init);
      assert a + b == (a + init) + [last];
      assert (a + b)[..|a + b| - 1] == a + init;
    }
  }

  /** Reordering or duplicating rows of a batch changes nothing, as long as
      stamps determine content. */
  lemma JoinIgnoresOrder(rows: Rows, a: seq<Row>, b: seq<Row>)
    requires WellKeyed(rows)
    requires ToSet(a) == ToSet(b)
    requires StampsDetermine(rows.Values + ToSet(a))
    ensures JoinBatch(rows, a) == JoinBatch(rows, b)
  {
    JoinBatchIsJoin(rows, a);
    JoinBatchIsJoin(rows, b);
    JoinIsUnique(rows, ToSet(a), JoinBatch(rows, a), JoinBatch(rows, b));
  }

  /** Replaying a batch, in any order and with any repetition, is a no-op. */
  lemma JoinIdempotent(rows: Rows, a: seq<Row>, b: seq<Row>)
    requires WellKeyed(rows)
    requires ToSet(b) <= ToSet(a)
    requires StampsDetermine(rows.Values + ToSet(a))
    ensures JoinBatch(JoinBatch(rows, a), b) == JoinBatch(rows, a)
  {
    JoinSplits(rows, a, b);
    assert ToSet(a + b) == ToSet(a) + ToSet(b) == ToSet(a);
    JoinIgnoresOrder(rows, a + b, a);
  }

  /** The hypothesis on stamps is needed: with equal stamps the first row of
      the batch wins, so the order of the batch shows in the result. */
  lemma JoinOrderShowsOnEqualStamps(a: Row, b: Row)
    requires a != b && KeyOf(a) == KeyOf(b)
    ensures JoinBatch(map[], [a, b]) == JoinBatch(map[], [b, a]) <==> !SameStamp(a, b)
  {
    NewerTrichotomy(a, b);
    assert [a, b][..1] == [a] && [b, a][..1] == [b];
    assert [a][..0] == [] && [b][..0] == [];
    assert JoinBatch(map[], [a]) == map[KeyOf(a) := a];
    assert JoinBatch(map[], [b]) == map[KeyOf(b) := b];
    var k := KeyOf(a);
    assert JoinBatch(map[], [a, b])[k] == if Newer(b, a) then b else a;
    assert JoinBatch(map[], [b, a])[k] == if Newer(a, b) then a else b;
  }

  /** Nothing the table covered is lost. */
  ghost predicate KeepsAll(rows: Rows, rows': Rows) {
    forall v :: Covers(rows, v) ==> Covers(rows', v)
  }

  /** Covering survives a merge. */
  lemma JoinKeepsCover(rows: Rows, batch: seq<Row>, w: Row)
    requires Covers(rows, w)
    ensures Covers(JoinBatch(rows, batch), w)
  {
    JoinBatchIsJoin(rows, batch);
    AtLeastTransitive(JoinBatch(rows, batch)[KeyOf(w)], rows[KeyOf(w)], w);
  }

  // ------------------------------------------------------------ blind writes

  /** A blind write is the guarded write exactly when the key is free, the row
      is newer, or it is the very row already there. */
  lemma BlindPutIsGuardedExactlyWhen(rows: Rows, r: Row)
    ensures PutRow(rows, r) == ApplyRow(rows, r)
            <==> KeyOf(r) !in rows || Newer(r, rows[KeyOf(r)]) || rows[KeyOf(r)] == r
  {
    if KeyOf(r) in rows && !Newer(r, rows[KeyOf(r)]) && rows[KeyOf(r)] != r {
      assert PutRow(rows, r)[KeyOf(r)] != ApplyRow(rows, r)[KeyOf(r)];
    } else if KeyOf(r) in rows && rows[KeyOf(r)] == r {
      assert PutRow(rows, r) == rows;
    }
  }

  // ------------------------------------------------------------ watermarks

  /** The greatest stamp among the batch's rows of the kind; zero if there is none. */
  function BatchMax(batch: seq<Row>, kind: Kind): HLC {
    if batch == [] then ZERO
    else
      var rest := BatchMax(batch[..|batch| - 1], kind);
      var last := batch[|batch| - 1];
      if last.kind == kind then Max(rest, last.hlc) else rest
  }

  /** BatchMax is the least upper bound of zero and that kind's stamps. */
  lemma {:induction false} BatchMaxIsMax(batch: seq<Row>, kind: Kind)
    ensures forall r :: r in batch && r.kind == kind ==> !After(r.hlc, BatchMax(batch, kind))
    ensures !After(ZERO, BatchMax(batch, kind))
    ensures BatchMax(batch, kind) == ZERO
            || exists r :: r in batch && r.kind == kind && r.hlc == BatchMax(batch, kind)
  {
    if batch != [] {
      var init, last := batch[..|batch| - 1], batch[|batch| - 1];
      BatchMaxIsMax(init, kind);
      assert batch == init + [last];
      if last.kind == kind && After(last.hlc, BatchMax(init, kind)) {
        assert last in batch;
      } else if BatchMax(init, kind) != ZERO {
        var r :| r in init && r.kind == kind && r.hlc == BatchMax(init, kind);
        assert r in batch;
      }
    }
  }

  /** The greatest stamp of the batch over all kinds; zero for an empty batch. */
  function RowsMax(batch: seq<Row>): HLC {
    if batch == [] then ZERO else Max(RowsMax(batch[..|batch| - 1]), batch[|batch| - 1].hlc)
  }

  lemma {:induction false} RowsMaxIsMax(batch: seq<Row>)
    ensures forall r :: r in batch ==> !After(r.hlc, RowsMax(batch))
    ensures !After(ZERO, RowsMax(batch))
    ensures RowsMax(batch) == ZERO || exists r :: r in batch && r.hlc == RowsMax(batch)
  {
    if batch != [] {
      var init, last := batch[..|batch| - 1], batch[|batch| - 1];
      RowsMaxIsMax(init);
      assert batch == init + [last];
      if After(last.hlc, RowsMax(init)) {
        assert last in batch;
      } else if RowsMax(init) != ZERO {
        var r :| r in init && r.hlc == RowsMax(init);
        assert r in batch;
      }
    }
  }

  /** The kinds a batch mentions. */
  function KindsOf(batch: seq<Row>): set<Kind> {
    set r | r in batch :: r.kind
  }

  /** One kind's watermark raised to h; never lowered. */
  function RaiseMark(marks: Marks, peer: Str, kind: Kind, h: HLC): Marks {
    var k := MarkKey(peer, kind);
    if k in marks && !After(h, marks[k]) then marks else marks[k := h]
  }

  /** Each of the kinds raised to the batch's maximum of that kind. */
  function RaiseKinds(marks: Marks, peer: Str, batch: seq<Row>, kinds: set<Kind>): Marks {
    map k | k in marks.Keys + (set kind | kind in kinds :: MarkKey(peer, kind)) ::
      if k.peer == peer && k.kind in kinds && !(k in marks && !After(BatchMax(batch, k.kind), marks[k]))
      then BatchMax(batch, k.kind) else marks[k]
  }

  /** The kinds may be raised one at a time, in any order. */
  lemma RaiseOneMore(marks: Marks, peer: Str, batch: seq<Row>, kinds: set<Kind>, kind: Kind)
    requires kind !in kinds
    ensures RaiseMark(RaiseKinds(marks, peer, batch, kinds), peer, kind, BatchMax(batch, kind))
            == RaiseKinds(marks, peer, batch, kinds + {kind})
  {
    var now := RaiseMark(RaiseKinds(marks, peer, batch, kinds), peer, kind, BatchMax(batch, kind));
    var goal := RaiseKinds(marks, peer, batch, kinds + {kind});
    assert MarkKey(peer, kind) in goal;
    assert now.Keys == goal.Keys;
  }

  /** Every kind the batch mentions is raised to the batch's maximum of that kind. */
  function AdvanceMarks(marks: Marks, peer: Str, batch: seq<Row>): Marks {
    RaiseKinds(marks, peer, batch, KindsOf(batch))
  }

  /** What a reader of the watermark table sees after a batch: the maximum of the
      old value and the batch's stamps of that kind, also for rows that lost. */
  lemma AdvancedMark(marks: Marks, peer: Str, batch: seq<Row>, p: Str, kind: Kind)
    ensures Mark(AdvanceMarks(marks, peer, batch), p, kind)
            == if p == peer && kind in KindsOf(batch) then Max(Mark(marks, p, kind), BatchMax(batch, kind))
               else Mark(marks, p, kind)
  {
    BatchMaxIsMax(batch, kind);
    var k := MarkKey(p, kind);
    if p == peer && kind in KindsOf(batch) {
      assert k in AdvanceMarks(marks, peer, batch);
    }
  }
}
