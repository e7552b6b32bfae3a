/** Label editing over HTTP: PUT merges, DELETE buries, GET overlays the runner's
    configured labels. */
module Labels {
  import opened Text
  import opened Hlc
  import opened Model
  import opened Storage
  import opened Cluster
  import opened Placement

  type LabelMap = map<Str, Str>

  datatype HttpStatus = Ok | NoContent | BadRequest | NotFound

  datatype Body = Malformed | Parsed(labels: LabelMap)

  // ------------------------------------------------------------ what the tables say

  predicate LiveRunner(rows: Rows, id: Str) {
    var k := RowKey(Runner, id);
    k in rows && !rows[k].tombstone
  }

  /** The labels in the runner's own row; none if its payload does not decode. */
  function ConfigLabels(rows: Rows, id: Str): LabelMap {
    var k := RowKey(Runner, id);
    if k in rows && rows[k].payload.RunnerPayload? then rows[k].payload.runner.labels else map[]
  }

  /** The labels set over the API: none behind a tombstone or an undecodable payload. */
  function ApiLabels(rows: Rows, id: Str): LabelMap {
    var k := RowKey(Meta, id);
    if k in rows && !rows[k].tombstone && rows[k].payload.LabelPayload? then rows[k].payload.labels else map[]
  }

  /** What a reader sees. */
  function ReadLabels(rows: Rows, id: Str): LabelMap {
    ConfigLabels(rows, id) + ApiLabels(rows, id)
  }

  /** The overlay that listings and placement apply to each runner. */
  function MergeMetaLabels(rows: Rows, r: RunnerInfo): RunnerInfo {
    r.(labels := r.labels + ApiLabels(rows, r.id))
  }

  // ------------------------------------------------------------ listings

  /** The runners of the rows that decode, in order. */
  function RunnersOf(list: seq<Row>): seq<RunnerInfo> {
    if list == [] then []
    else
      var last := list[|list| - 1];
      RunnersOf(list[..|list| - 1]) + (if last.payload.RunnerPayload? then [last.payload.runner] else [])
  }

  lemma {:induction false} RunnersOfExactly(list: seq<Row>, r: RunnerInfo)
    ensures |RunnersOf(list)| <= |list|
    ensures r in RunnersOf(list) <==> exists i :: 0 <= i < |list| && list[i].payload == RunnerPayload(r)
  {
    if list != [] {
      RunnersOfExactly(list[..|list| - 1], r);
    }
  }

  /** Decoding keeps the order: the runners of a list come before those of what follows it. */
  lemma {:induction false} RunnersOfAppends(a: seq<Row>, b: seq<Row>)
    ensures RunnersOf(a + b) == RunnersOf(a) + RunnersOf(b)
  {
    if b == [] {
      assert a + b == a;
    } else {
      var n := |b| - 1;
      RunnersOfAppends(a, b[..n]);
      assert (a + b)[..|a + b| - 1] == a + b[..n];
    }
  }

  function Overlay(rows: Rows, runners: seq<RunnerInfo>): seq<RunnerInfo> {
    seq(|runners|, i requires 0 <= i < |runners| => MergeMetaLabels(rows, runners[i]))
  }

  /** A live runner row and how the API shows it. */
  predicate ShownAs(rows: Rows, k: RowKey, r: RunnerInfo) {
    && k in rows && k.kind == Runner && !rows[k].tombstone && rows[k].payload.RunnerPayload?
    && r == MergeMetaLabels(rows, rows[k].payload.runner)
  }

  /** The listing shows exactly the live runner rows that decode. */
  lemma ListingShows(rows: Rows, list: seq<Row>, r: RunnerInfo)
    requires WellKeyed(rows) && IsListing(rows, Runner, list)
    ensures r in Overlay(rows, RunnersOf(list)) <==> exists k :: ShownAs(rows, k, r)
  {
    var bare := RunnersOf(list);
    if r in Overlay(rows, bare) {
      var i :| 0 <= i < |bare| && r == MergeMetaLabels(rows, bare[i]);
      RunnersOfExactly(list, bare[i]);
      var j :| 0 <= j < |list| && list[j].payload == RunnerPayload(bare[i]);
      assert list[j] in list;
      assert ShownAs(rows, KeyOf(list[j]), r);
    }
    if k :| ShownAs(rows, k, r) {
      assert Holds(rows, rows[k]) && rows[k] in list;
      RunnersOfExactly(list, rows[k].payload.runner);
      var i :| 0 <= i < |bare| && bare[i] == rows[k].payload.runner;
      assert Overlay(rows, bare)[i] == r;
    }
  }

  /** A runner filed under its own id is shown with the labels a direct read gives. */
  lemma ShownLabelsAreRead(rows: Rows, k: RowKey, r: RunnerInfo)
    requires ShownAs(rows, k, r) && r.id == k.key
    ensures r.labels == ReadLabels(rows, k.key)
  {
  }

  // ------------------------------------------------------------ the handlers

  class Api {
    const node: Str
    const store: Store
    const clock: Clock

    constructor (node: Str, store: Store, clock: Clock)
      ensures this.node == node && this.store == store && this.clock == clock
    {
      this.node, this.store, this.clock := node, store, clock;
    }

    method GetLabels(id: Str) returns (status: HttpStatus, labels: LabelMap)
      ensures status == if LiveRunner(store.rows, id) then Ok else NotFound
      ensures status == Ok <==> RowKey(Runner, id) in store.rows && !store.rows[RowKey(Runner, id)].tombstone
      ensures status == Ok ==> labels == ReadLabels(store.rows, id)
    {
      labels := map[];
      var ok, runnerRow := store.Get(Runner, id);
      if !ok || runnerRow.tombstone {
        return NotFound, labels;
      }
      if runnerRow.payload.RunnerPayload? {
        labels := labels + runnerRow.payload.runner.labels;
      }
      var found, metaRow := store.Get(Meta, id);
      if found && !metaRow.tombstone {
        if metaRow.payload.LabelPayload? {
          labels := labels + metaRow.payload.labels;
        }
      }
      status := Ok;
    }

    method ListRunners(limit: int, offset: int) returns (runners: seq<RunnerInfo>, ghost list: seq<Row>)
      requires store.Valid()
      ensures IsListing(store.rows, Runner, list)
      ensures runners == RunnersOf(Page(list, limit, offset)) && |runners| <= |store.rows|
    {
      var found;
      found, list := store.List(Runner, limit, offset);
      runners := [];
      for i := 0 to |found|
        invariant runners == RunnersOf(found[..i]) && |runners| <= i
      {
        assert found[..i + 1][..i] == found[..i];
        if found[i].payload.RunnerPayload? {
          runners := runners + [found[i].payload.runner];
        }
      }
      assert found[..|found|] == found;
    }

    /** The overlay loop: each runner's API labels over its own, one lookup each. */
    method MergeLabels(runners: seq<RunnerInfo>) returns (out: seq<RunnerInfo>)
      ensures out == Overlay(store.rows, runners)
    {
      out := runners;
      for i := 0 to |runners|
        invariant |out| == |runners|
        invariant forall j :: 0 <= j < i ==> out[j] == MergeMetaLabels(store.rows, runners[j])
        invariant forall j :: i <= j < |runners| ==> out[j] == runners[j]
      {
        var found, row := store.Get(Meta, out[i].id);
        if found && !row.tombstone && row.payload.LabelPayload? {
          out := out[i := out[i].(labels := out[i].labels + row.payload.labels)];
        } else {
          assert runners[i].labels + map[] == runners[i].labels;
        }
      }
    }

    /** The placement query over the store. `draws` is the random source, long enough for
        every row. */
    method BestRunner(region: Str, labels: seq<Str>, draws: seq<real>) returns (found: bool, out: seq<Scored>, ghost list: seq<Row>)
      requires store.Valid() && |draws| >= |store.rows|
      ensures IsListing(store.rows, Runner, list)
      ensures found <==> exists k, r :: ShownAs(store.rows, k, r) && Eligible(r, labels)
      ensures var shown := Overlay(store.rows, RunnersOf(list));
              && |Candidates(shown, region, labels)| <= |draws|
              && IsRanking(Candidates(shown, region, labels), draws, found && FallsBack(shown, region, labels), out)
      ensures forall s :: s in out ==>
                s.runner.status == Active && s.runner.availableWorkers != 0 && exists k :: ShownAs(store.rows, k, s.runner)
    {
      var runners;
      runners, list := ListRunners(-1, 0);
      runners := MergeLabels(runners);
      forall r ensures r in runners <==> exists k :: ShownAs(store.rows, k, r) {
        ListingShows(store.rows, list, r);
      }
      CandidatesBounded(runners, region, labels);
      found, out := Placement.BestRunner(runners, region, labels, draws);
    }

    /** PUT: refused for an unknown or dead runner and for a bad body; otherwise one tick
        and one write of the old API labels overridden by the new ones. */
    method UpdateLabels(id: Str, body: Body, now: int) returns (status: HttpStatus, labels: LabelMap)
      requires store.Valid()
      modifies store, clock
      ensures store.Valid()
      ensures status == if !LiveRunner(old(store.rows), id) then NotFound else if body.Malformed? then BadRequest else Ok
      ensures status == NotFound <==> RowKey(Runner, id) !in old(store.rows) || old(store.rows)[RowKey(Runner, id)].tombstone
      ensures status != Ok ==> store.Contents() == old(store.Contents()) && clock.Value() == old(clock.Value())
      ensures body.Parsed? ==> store.rows == AfterOp(old(store.rows), node, PutLabels(id, body.labels), clock.Value())
      ensures status == Ok ==>
        && labels == ApiLabels(old(store.rows), id) + body.labels
        && clock.Value() == TickFrom(old(clock.Value()), now)
        && store.Contents() == LocalTables(old(store.Contents()), node,
             PutOp(Meta, id, ApiOwner(node), LabelPayload(labels)), Silent, clock.Value())
    {
      labels := map[];
      var ok, runnerRow := store.Get(Runner, id);
      if !ok || runnerRow.tombstone {
        return NotFound, labels;
      }
      if body.Malformed? {
        return BadRequest, labels;
      }
      var existing: LabelMap := map[];
      var found, metaRow := store.Get(Meta, id);
      if found && !metaRow.tombstone {
        if metaRow.payload.LabelPayload? {
          existing := metaRow.payload.labels;
        }
      }
      labels := existing + body.labels;
      var h := clock.Tick(now);
      var row := Row(Meta, id, ApiOwner(node), h, false, LabelPayload(labels));
      store.Put(row);
      assert store.rows == old(store.rows) + map[RowKey(Meta, id) := row];
      status := Ok;
    }

    /** DELETE: always one tick and one tombstone, whether or not anything was there. */
    method DeleteLabels(id: Str, now: int) returns (status: HttpStatus)
      requires store.Valid()
      modifies store, clock
      ensures store.Valid() && status == NoContent
      ensures clock.Value() == TickFrom(old(clock.Value()), now)
      ensures store.Contents() == LocalTables(old(store.Contents()), node,
                DeleteOp(Meta, id, ApiOwner(node)), Silent, clock.Value())
      ensures store.rows == AfterOp(old(store.rows), node, DropLabels(id), clock.Value())
    {
      var h := clock.Tick(now);
      store.Delete(Meta, id, ApiOwner(node), h);
      assert store.rows == old(store.rows) + map[RowKey(Meta, id) := Tombstone(old(store.rows), Meta, id, ApiOwner(node), h)];
      status := NoContent;
    }
  }

  // ------------------------------------------------------------ label history

  datatype LabelOp = PutLabels(id: Str, labels: LabelMap) | DropLabels(id: Str)

  /** The table after one handled request, stamped h. */
  function AfterOp(rows: Rows, node: Str, op: LabelOp, h: HLC): Rows {
    match op
    case PutLabels(id, labels) =>
      if LiveRunner(rows, id)
      then RowsAfter(rows, PutOp(Meta, id, ApiOwner(node), LabelPayload(ApiLabels(rows, id) + labels)), h)
      else rows
    case DropLabels(id) => RowsAfter(rows, DeleteOp(Meta, id, ApiOwner(node)), h)
  }

  function AfterOps(rows: Rows, node: Str, ops: seq<LabelOp>, stamps: seq<HLC>): Rows
    requires |stamps| == |ops|
  {
    if ops == [] then rows
    else
      var n := |ops| - 1;
      AfterOp(AfterOps(rows, node, ops[..n], stamps[..n]), node, ops[n], stamps[n])
  }

  /** The right-biased merge of all that was PUT for the id. */
  function MergedPuts(ops: seq<LabelOp>, id: Str): LabelMap {
    if ops == [] then map[]
    else
      var n := |ops| - 1;
      if ops[n].PutLabels? && ops[n].id == id then MergedPuts(ops[..n], id) + ops[n].labels
      else MergedPuts(ops[..n], id)
  }

  predicate NoDropOf(ops: seq<LabelOp>, id: Str) {
    forall i :: 0 <= i < |ops| ==> ops[i] != DropLabels(id)
  }

  /** No label request touches a runner row. */
  lemma {:induction false} RunnersUntouched(rows: Rows, node: Str, ops: seq<LabelOp>, stamps: seq<HLC>, id: Str)
    requires |stamps| == |ops|
    ensures var out := AfterOps(rows, node, ops, stamps);
            var k := RowKey(Runner, id);
            && (k in out <==> k in rows)
            && (k in rows ==> out[k] == rows[k])
  {
    if ops != [] {
      var n := |ops| - 1;
      RunnersUntouched(rows, node, ops[..n], stamps[..n], id);
    }
  }

  lemma OneOp(rows: Rows, node: Str, op: LabelOp, h: HLC, id: Str)
    ensures ApiLabels(AfterOp(rows, node, op, h), id)
            == if op == DropLabels(id) then map[]
               else if op.PutLabels? && op.id == id && LiveRunner(rows, id) then ApiLabels(rows, id) + op.labels
               else ApiLabels(rows, id)
  {
  }

  /** A PUT for a runner that is missing or buried changes nothing; for a live one it leaves
      a live label row under the API's owner and the request's stamp. */
  lemma PutNeedsALiveRunner(rows: Rows, node: Str, id: Str, labels: LabelMap, h: HLC)
    ensures var out := AfterOp(rows, node, PutLabels(id, labels), h);
            var k, m := RowKey(Runner, id), RowKey(Meta, id);
            && (k !in rows || rows[k].tombstone ==> out == rows)
            && (k in rows && !rows[k].tombstone ==>
                  m in out && !out[m].tombstone && out[m].owner == API + [SLASH] + node && out[m].hlc == h
                  && out[m].payload.LabelPayload? && forall name :: name in labels ==>
                       name in out[m].payload.labels && out[m].payload.labels[name] == labels[name])
  {
  }

  /** A runner whose node was pruned is shown no more and takes no labels. */
  lemma PrunedRunnerIsGone(rows: Rows, n: Str, epoch: Str, h: HLC, id: Str, node: Str, labels: LabelMap, g: HLC, r: RunnerInfo)
    requires SLASH !in n && RowKey(Runner, id) in rows && rows[RowKey(Runner, id)].owner == AgentOwner(n, epoch)
    ensures var out := RowsAfter(rows, PruneOp(n), h);
            !ShownAs(out, RowKey(Runner, id), r) && AfterOp(out, node, PutLabels(id, labels), g) == out
  {
    PruneLands(rows, n, h);
    IdIsFirstPart(n, n, epoch);
    PutNeedsALiveRunner(RowsAfter(rows, PruneOp(n), h), node, id, labels, g);
  }

  /** Without a DELETE of the id, its API labels are what was there overridden by the PUTs. */
  lemma {:induction false} PutsAccumulate(rows: Rows, node: Str, ops: seq<LabelOp>, stamps: seq<HLC>, id: Str)
    requires |stamps| == |ops| && NoDropOf(ops, id) && LiveRunner(rows, id)
    ensures ApiLabels(AfterOps(rows, node, ops, stamps), id) == ApiLabels(rows, id) + MergedPuts(ops, id)
  {
    if ops == [] {
      assert ApiLabels(rows, id) + map[] == ApiLabels(rows, id);
    } else {
      var n := |ops| - 1;
      assert ops[n] != DropLabels(id);
      PutsAccumulate(rows, node, ops[..n], stamps[..n], id);
      RunnersUntouched(rows, node, ops[..n], stamps[..n], id);
      OneOp(AfterOps(rows, node, ops[..n], stamps[..n]), node, ops[n], stamps[n], id);
    }
  }

  lemma {:induction false} OpsSplit(rows: Rows, node: Str, a: seq<LabelOp>, sa: seq<HLC>, b: seq<LabelOp>, sb: seq<HLC>)
    requires |sa| == |a| && |sb| == |b|
    ensures AfterOps(rows, node, a + b, sa + sb) == AfterOps(AfterOps(rows, node, a, sa), node, b, sb)
  {
    if b == [] {
      assert a + b == a && sa + sb == sa;
    } else {
      var n := |b| - 1;
      OpsSplit(rows, node, a, sa, b[..n], sb[..n]);
      var m := |a + b| - 1;
      assert (a + b)[..m] == a + b[..n] && (sa + sb)[..m] == sa + sb[..n];
    }
  }

  /** Label history with a DELETE in it: whatever came before, a reader sees the runner's
      configured labels overridden by the merge of the PUTs since the last DELETE. The
      tombstone's retained payload never shows. */
  lemma LabelsSinceLastDelete(rows: Rows, node: Str, id: Str,
                              before: seq<LabelOp>, sb: seq<HLC>, h: HLC, since: seq<LabelOp>, ss: seq<HLC>)
    requires |sb| == |before| && |ss| == |since| && LiveRunner(rows, id) && NoDropOf(since, id)
    ensures ReadLabels(AfterOps(rows, node, before + [DropLabels(id)] + since, sb + [h] + ss), id)
            == ConfigLabels(rows, id) + MergedPuts(since, id)
  {
    var pre, sp := before + [DropLabels(id)], sb + [h];
    var mid := AfterOps(rows, node, pre, sp);
    OpsSplit(rows, node, pre, sp, since, ss);
    RunnersUntouched(rows, node, pre, sp, id);
    RunnersUntouched(rows, node, pre + since, sp + ss, id);
    PutsAccumulate(mid, node, since, ss, id);
    assert pre[..|pre| - 1] == before && sp[..|sp| - 1] == sb;
    OneOp(AfterOps(rows, node, before, sb), node, DropLabels(id), h, id);
    assert map[] + MergedPuts(since, id) == MergedPuts(since, id);
  }

  /** Label history without a DELETE: the PUTs override what was there. */
  lemma LabelsWithoutDelete(rows: Rows, node: Str, id: Str, ops: seq<LabelOp>, stamps: seq<HLC>)
    requires |stamps| == |ops| && LiveRunner(rows, id) && NoDropOf(ops, id)
    ensures ReadLabels(AfterOps(rows, node, ops, stamps), id)
            == ConfigLabels(rows, id) + (ApiLabels(rows, id) + MergedPuts(ops, id))
  {
    RunnersUntouched(rows, node, ops, stamps, id);
    PutsAccumulate(rows, node, ops, stamps, id);
  }

  // ------------------------------------------------------------ what placement filters on

  /** Filter text: a name without a colon, a colon, and any value. */
  function FilterText(name: Str, value: Str): Str {
    name + [COLON] + value
  }

  lemma FilterTextParts(name: Str, value: Str)
    requires COLON !in name
    ensures var f := FilterText(name, value);
            ColonAt(f) == |name| && f[..|name|] == name && f[|name| + 1..] == value
  {
    var f := FilterText(name, value);
    assert f[|name|] == COLON;
  }

  /** Placement filters on the labels of the history: after any requests without a DELETE
      of the id, the runner passes the filter name:value if and only if value is what the
      PUTs last gave the name, or, if no PUT names it, what was read before. */
  lemma PlacementFiltersOnPuts(rows: Rows, node: Str, id: Str, ops: seq<LabelOp>, stamps: seq<HLC>, r: RunnerInfo, name: Str, value: Str)
    requires |stamps| == |ops| && NoDropOf(ops, id) && LiveRunner(rows, id) && COLON !in name
    requires ShownAs(AfterOps(rows, node, ops, stamps), RowKey(Runner, id), r) && r.id == id
    ensures MatchesLabel(r, FilterText(name, value))
            <==> value == if name in MergedPuts(ops, id) then MergedPuts(ops, id)[name] else LabelIn(ReadLabels(rows, id), name)
  {
    ShownLabelsAreRead(AfterOps(rows, node, ops, stamps), RowKey(Runner, id), r);
    LabelsWithoutDelete(rows, node, id, ops, stamps);
    FilterTextParts(name, value);
  }

  /** And a DELETE takes the API's labels out of the filter. */
  lemma PlacementForgetsDeleted(rows: Rows, node: Str, id: Str,
                                before: seq<LabelOp>, sb: seq<HLC>, h: HLC, since: seq<LabelOp>, ss: seq<HLC>,
                                r: RunnerInfo, name: Str, value: Str)
    requires |sb| == |before| && |ss| == |since| && NoDropOf(since, id) && LiveRunner(rows, id) && COLON !in name
    requires ShownAs(AfterOps(rows, node, before + [DropLabels(id)] + since, sb + [h] + ss), RowKey(Runner, id), r) && r.id == id
    ensures MatchesLabel(r, FilterText(name, value))
            <==> value == if name in MergedPuts(since, id) then MergedPuts(since, id)[name] else LabelIn(ConfigLabels(rows, id), name)
  {
    ShownLabelsAreRead(AfterOps(rows, node, before + [DropLabels(id)] + since, sb + [h] + ss), RowKey(Runner, id), r);
    LabelsSinceLastDelete(rows, node, id, before, sb, h, since, ss);
    FilterTextParts(name, value);
  }
}
