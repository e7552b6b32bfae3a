/** The append-only event table: numbering at the origin, insert-if-absent elsewhere. */
module EventLog {
  import opened Text
  import opened Hlc
  import opened Model

  function KeysOf(events: Events, runner: Str): set<EventKey> {
    set k | k in events && k.runner == runner
  }

  ghost function LastKey(s: set<EventKey>): (m: EventKey)
    requires s != {}
    ensures m in s && forall k :: k in s ==> k.num <= m.num
  {
    var k :| k in s;
    if s == {k} then k
    else
      var m := LastKey(s - {k});
      assert forall j :: j in s ==> j == k || j in s - {k};
      if k.num > m.num then k else m
  }

  /** The greatest number in use for the runner, 0 when it has no event. */
  ghost function LastNum(events: Events, runner: Str): int {
    var s := KeysOf(events, runner);
    if s == {} then 0 else LastKey(s).num
  }

  /** The event that appending stores: the next number of its runner. */
  ghost function Numbered(events: Events, runner: Str, kind: EventType, payload: map<Str, Str>, h: HLC): LogEvent {
    LogEvent(runner, LastNum(events, runner) + 1, kind, payload, h)
  }

  function InsertEvent(events: Events, e: LogEvent): Events {
    if EventKeyOf(e) in events then events else events[EventKeyOf(e) := e]
  }

  function InsertAll(events: Events, batch: seq<LogEvent>): Events {
    if batch == [] then events
    else InsertEvent(InsertAll(events, batch[..|batch| - 1]), batch[|batch| - 1])
  }

  /** Insertion never rewrites an event, takes every new number, and adds nothing else. */
  lemma {:induction false} InsertAllAdds(events: Events, batch: seq<LogEvent>)
    ensures var out := InsertAll(events, batch);
            && (forall k :: k in events ==> k in out && out[k] == events[k])
            && (forall e :: e in batch ==> EventKeyOf(e) in out)
            && (forall k :: k in out ==> k in events || (out[k] in batch && EventKeyOf(out[k]) == k))
  {
    if batch != [] {
      var init, last := batch[..|batch| - 1], batch[|batch| - 1];
      InsertAllAdds(events, init);
      assert batch == init + [last];
    }
  }

  /** The greatest of `start` and the batch's stamps. */
  function EventMax(start: HLC, batch: seq<LogEvent>): HLC {
    if batch == [] then start
    else Max(EventMax(start, batch[..|batch| - 1]), batch[|batch| - 1].hlc)
  }

  lemma {:induction false} EventMaxIsMax(start: HLC, batch: seq<LogEvent>)
    ensures forall e :: e in batch ==> !After(e.hlc, EventMax(start, batch))
    ensures !After(start, EventMax(start, batch))
    ensures EventMax(start, batch) == start || exists e :: e in batch && e.hlc == EventMax(start, batch)
  {
    if batch != [] {
      var init, last := batch[..|batch| - 1], batch[|batch| - 1];
      EventMaxIsMax(start, init);
      assert batch == init + [last];
      if After(last.hlc, EventMax(start, init)) {
        assert last in batch;
      } else if EventMax(start, init) != start {
        var e :| e in init && e.hlc == EventMax(start, init);
        assert e in batch;
      }
    }
  }
}
