/** The replicated records: rows, events and the runner snapshot that rows carry. */
module Model {
  import opened Text
  import opened Hlc

  datatype Kind = Runner | Meta | Event

  /** The kinds that live in the rows table, in the order a pull visits them. */
  const ROW_KINDS: seq<Kind> := [Runner, Meta]

  predicate RowKind(kind: Kind) {
    kind == Runner || kind == Meta
  }

  datatype Status = Active | Draining | Offline

  datatype RunnerInfo = RunnerInfo(
    id: Str, region: Str, status: Status,
    cpuUtil: real, memUtil: real, freeDiskMB: int, availableWorkers: int,
    labels: map<Str, Str>)

  /** A decoded payload. `NoPayload` is the empty byte string a delete of an
      absent key stores; `Raw` is anything that does not decode. */
  datatype Payload = RunnerPayload(runner: RunnerInfo) | LabelPayload(labels: map<Str, Str>) | NoPayload | Raw(bytes: Str)

  datatype Row = Row(kind: Kind, key: Str, owner: Str, hlc: HLC, tombstone: bool, payload: Payload)

  /** The primary key of the rows table. */
  datatype RowKey = RowKey(kind: Kind, key: Str)

  function KeyOf(r: Row): RowKey {
    RowKey(r.kind, r.key)
  }

  type Rows = map<RowKey, Row>

  /** Every row is filed under its own primary key. */
  ghost predicate WellKeyed(rows: Rows) {
    forall k :: k in rows ==> KeyOf(rows[k]) == k
  }

  predicate Holds(rows: Rows, r: Row) {
    KeyOf(r) in rows && rows[KeyOf(r)] == r
  }

  datatype EventType = RunnerJoined | RunnerLeft | RunnerDraining

  datatype LogEvent = LogEvent(runner: Str, num: int, kind: EventType, payload: map<Str, Str>, hlc: HLC)

  /** The primary key of the events table. */
  datatype EventKey = EventKey(runner: Str, num: int)

  function EventKeyOf(e: LogEvent): EventKey {
    EventKey(e.runner, e.num)
  }

  type Events = map<EventKey, LogEvent>

  ghost predicate WellKeyedEvents(events: Events) {
    forall k :: k in events ==> EventKeyOf(events[k]) == k
  }

  predicate HoldsEvent(events: Events, e: LogEvent) {
    EventKeyOf(e) in events && events[EventKeyOf(e)] == e
  }

  /** The primary key of the watermarks table. */
  datatype MarkKey = MarkKey(peer: Str, kind: Kind)

  type Marks = map<MarkKey, HLC>

  /** A missing watermark reads as zero. */
  function Mark(marks: Marks, peer: Str, kind: Kind): HLC {
    var k := MarkKey(peer, kind);
    if k in marks then marks[k] else ZERO
  }

  /** The three tables of one node's database. */
  datatype Tables = Tables(rows: Rows, events: Events, marks: Marks)

  const EMPTY := Tables(map[], map[], map[])

  // ------------------------------------------------------------ last writer wins

  /** Row a beats row b: the later stamp wins, and the greater owner on a tie. */
  predicate Newer(a: Row, b: Row) {
    var c := Compare(a.hlc, b.hlc);
    if c == 1 then true
    else if c == -1 then false
    else Less(b.owner, a.owner)
  }

  predicate AtLeast(a: Row, b: Row) {
    !Newer(b, a)
  }

  predicate SameStamp(a: Row, b: Row) {
    a.hlc == b.hlc && a.owner == b.owner
  }

  /** `Newer` is a strict order on stamps and total up to equal stamps. */
  lemma NewerTrichotomy(a: Row, b: Row)
    ensures Newer(a, b) || Newer(b, a) || SameStamp(a, b)
    ensures !(Newer(a, b) && Newer(b, a))
    ensures SameStamp(a, b) ==> !Newer(a, b)
  {
    LessTrichotomy(a.owner, b.owner);
  }

  /** Who wins, on the fields: the later timestamp, then the greater counter, then the owner
      that is greater at the first byte where the two differ. */
  lemma NewerExactly(a: Row, b: Row)
    ensures Newer(a, b)
            <==> || a.hlc.ts > b.hlc.ts
                 || (a.hlc.ts == b.hlc.ts && a.hlc.ctr > b.hlc.ctr)
                 || (a.hlc.ts == b.hlc.ts && a.hlc.ctr == b.hlc.ctr && exists i: nat :: SmallerAt(b.owner, a.owner, i))
  {
    LessExactly(b.owner, a.owner);
  }

  lemma NewerTransitive(a: Row, b: Row, c: Row)
    requires Newer(a, b) && Newer(b, c)
    ensures Newer(a, c)
  {
    if a.hlc == b.hlc == c.hlc {
      LessTransitive(c.owner, b.owner, a.owner);
    }
  }

  lemma AtLeastTransitive(a: Row, b: Row, c: Row)
    requires AtLeast(a, b) && AtLeast(b, c)
    ensures AtLeast(a, c)
  {
    NewerTrichotomy(a, b);
    NewerTrichotomy(b, c);
    NewerTrichotomy(a, c);
    if Newer(a, b) && Newer(b, c) {
      NewerTransitive(a, b, c);
    }
  }

  lemma AtLeastReflexive(a: Row)
    ensures AtLeast(a, a)
  {
    LessIrreflexive(a.owner);
  }

  /** Stamps determine content: no two rows of the set share key and stamp. */
  ghost predicate StampsDetermine(s: set<Row>) {
    forall a, b :: a in s && b in s && KeyOf(a) == KeyOf(b) && SameStamp(a, b) ==> a == b
  }

  /** The table has a row for w's key that equals or beats w. */
  predicate Covers(rows: Rows, w: Row) {
    KeyOf(w) in rows && AtLeast(rows[KeyOf(w)], w)
  }
}
