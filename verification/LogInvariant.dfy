/** The replicated event log: one content per (runner, number), origins number
    their events 1, 2, 3, ... with growing stamps, and event watermarks skip
    nothing the peer emitted itself. Holds of every run. */
module LogInvariant {
  import opened Text
  import opened Hlc
  import opened Model
  import opened Merge
  import opened EventLog
  import opened Pull
  import opened Cluster
  import opened Sync
  import opened Dominance
  import opened Coverage

  /** e is what its own runner emitted under its number. */
  ghost predicate Logged(c: State, e: LogEvent) {
    && e.runner in c.nodes
    && 1 <= e.num <= |c.nodes[e.runner].log|
    && c.nodes[e.runner].log[e.num - 1] == e
  }

  /** The origin's own events: numbered from 1 without gaps, all of them in its table. */
  ghost predicate OwnLog(s: NodeState, n: Str) {
    && (forall i :: 0 <= i < |s.log| ==> s.log[i].runner == n && s.log[i].num == i + 1)
    && (forall e :: e in s.log ==> HoldsEvent(s.tables.events, e))
  }

  /** Stamps grow with the numbers. */
  ghost predicate Ordered(log: seq<LogEvent>) {
    forall i, j :: 0 <= i < j < |log| ==> After(log[j].hlc, log[i].hlc)
  }

  ghost predicate OwnLogs(c: State) {
    forall n :: n in c.nodes ==> OwnLog(c.nodes[n], n)
  }

  ghost predicate EventsLogged(c: State) {
    && (forall n, k :: n in c.nodes && k in c.nodes[n].tables.events ==>
          EventKeyOf(c.nodes[n].tables.events[k]) == k && Logged(c, c.nodes[n].tables.events[k]))
    && (forall rep, e :: rep in c.replies && e in rep.resp.events ==> Logged(c, e))
  }

  predicate SkippableEvent(s: NodeState, b: Str, origin: NodeState, e: LogEvent) {
    e in origin.log && !After(e.hlc, Mark(s.tables.marks, b, Event))
  }

  ghost predicate EventMarksCover(c: State) {
    forall a, b, e :: a in c.nodes && b in c.nodes && SkippableEvent(c.nodes[a], b, c.nodes[b], e) ==>
      EventKeyOf(e) in c.nodes[a].tables.events
  }

  predicate ClaimedEvent(rep: Reply, origin: NodeState, e: LogEvent) {
    e in origin.log && After(e.hlc, rep.call.req.evMark) && !After(e.hlc, EventMax(ZERO, rep.resp.events))
  }

  ghost predicate EventRepliesCover(c: State) {
    forall rep, e :: rep in c.replies && rep.call.server in c.nodes && ClaimedEvent(rep, c.nodes[rep.call.server], e) ==>
      e in rep.resp.events
  }

  /** One content per runner and number, numbers without gaps. */
  ghost predicate NumberInv(c: State) {
    OwnLogs(c) && EventsLogged(c)
  }

  ghost predicate LogInv(c: State) {
    NumberInv(c) && EventMarksCover(c) && EventRepliesCover(c)
  }

  lemma InitLogInv(c: State)
    requires Init(c)
    ensures LogInv(c)
  {
  }

  // ------------------------------------------------------------ numbering

  /** The next number at the origin is one more than the length of its log. */
  lemma NextNumber(c: State, n: Str)
    requires OwnLogs(c) && EventsLogged(c) && n in c.nodes
    ensures LastNum(c.nodes[n].tables.events, n) == |c.nodes[n].log|
  {
    var s := c.nodes[n];
    assert OwnLog(s, n);
    var keys := KeysOf(s.tables.events, n);
    forall k | k in keys ensures 1 <= k.num <= |s.log| {
      assert Logged(c, s.tables.events[k]);
    }
    if s.log != [] {
      var e := s.log[|s.log| - 1];
      assert HoldsEvent(s.tables.events, e);
      assert EventKeyOf(e) in keys;
    }
  }

  // ------------------------------------------------------------ a log grows

  /** Node n moved; its log and event table gained the events es, which are none or one,
      correctly numbered. */
  ghost predicate LogGrew(c: State, c': State, n: Str, es: seq<LogEvent>) {
    && n in c.nodes && c'.nodes.Keys == c.nodes.Keys && c'.replies == c.replies
    && (forall m :: m in c.nodes && m != n ==> c'.nodes[m] == c.nodes[m])
    && c'.nodes[n].tables.marks == c.nodes[n].tables.marks
    && c'.nodes[n].log == c.nodes[n].log + es
    && c'.nodes[n].tables.events == Filed(c.nodes[n].tables.events, es)
    && |es| <= 1
    && forall e :: e in es ==>
         e.runner == n && e.num == |c.nodes[n].log| + 1 && EventKeyOf(e) !in c.nodes[n].tables.events
  }

  /** e is above every event watermark that peers hold for n, and outside the range that
      any reply of n's in flight speaks for. */
  ghost predicate Unheard(c: State, n: Str, e: LogEvent) {
    && (forall a :: a in c.nodes && a != n ==> After(e.hlc, Mark(c.nodes[a].tables.marks, n, Event)))
    && (forall rep :: rep in c.replies && rep.call.server == n && After(e.hlc, rep.call.req.evMark) ==>
          After(e.hlc, EventMax(ZERO, rep.resp.events)))
  }

  function Filed(events: Events, es: seq<LogEvent>): Events {
    if es == [] then events else events[EventKeyOf(es[0]) := es[0]]
  }

  lemma EmissionGrowsLog(c: State, n: Str, emission: Emission, h: HLC)
    requires NumberInv(c) && n in c.nodes
    ensures var s := c.nodes[n];
            var es := Emitted(s.tables.events, n, emission, h);
            && |es| <= 1 && EventsAfter(s.tables.events, n, emission, h) == Filed(s.tables.events, es)
            && forall e :: e in es ==>
                 e.runner == n && e.num == |s.log| + 1 && e.hlc == h && EventKeyOf(e) !in s.tables.events
  {
    var s := c.nodes[n];
    NextNumber(c, n);
    var k := EventKey(n, |s.log| + 1);
    if k in s.tables.events {
      BeyondLog(c, n, k);
    }
  }

  lemma LocalGrowsLog(c: State, step: Step)
    requires NumberInv(c) && step.Local? && Enabled(c, step)
    ensures LogGrew(c, Do(c, step), step.node,
                    Emitted(c.nodes[step.node].tables.events, step.node, step.emission, TickFrom(c.nodes[step.node].clock, step.now)))
  {
    EmissionGrowsLog(c, step.node, step.emission, TickFrom(c.nodes[step.node].clock, step.now));
  }

  /** No event of a runner is filed beyond its own log. */
  lemma BeyondLog(c: State, n: Str, k: EventKey)
    requires EventsLogged(c) && n in c.nodes && k in c.nodes[n].tables.events
    ensures k.runner in c.nodes && k.num <= |c.nodes[k.runner].log|
  {
    assert Logged(c, c.nodes[n].tables.events[k]);
  }

  lemma GrowthKeepsOwnLog(s: NodeState, s': NodeState, n: Str, es: seq<LogEvent>)
    requires OwnLog(s, n) && |es| <= 1
    requires s'.log == s.log + es && s'.tables.events == Filed(s.tables.events, es)
    requires forall e :: e in es ==> e.runner == n && e.num == |s.log| + 1 && EventKeyOf(e) !in s.tables.events
    ensures OwnLog(s', n)
  {
    if es != [] {
      var e := es[0];
      assert e in es && es == [e];
      forall x | x in s'.log ensures HoldsEvent(s'.tables.events, x) {
        if x != e {
          assert x in s.log;
        }
      }
    } else {
      assert s'.log == s.log;
    }
  }

  /** A log stays ordered if and only if what it gains is above its last event. */
  lemma GrowthKeepsOrderExactly(log: seq<LogEvent>, es: seq<LogEvent>)
    requires Ordered(log) && |es| <= 1
    ensures Ordered(log + es) <==> es == [] || log == [] || After(es[0].hlc, log[|log| - 1].hlc)
  {
    var all := log + es;
    if es != [] && log != [] {
      assert all[|log|] == es[0] && all[|log| - 1] == log[|log| - 1];
      if After(es[0].hlc, log[|log| - 1].hlc) {
        forall i, j | 0 <= i < j < |all| ensures After(all[j].hlc, all[i].hlc) {
          if j == |log| && i < |log| - 1 {
            assert After(log[|log| - 1].hlc, log[i].hlc);
          }
        }
      }
    }
    if es == [] {
      assert all == log;
    }
  }

  lemma GrowthKeepsLogged(c: State, c': State, n: Str, es: seq<LogEvent>, e: LogEvent)
    requires LogGrew(c, c', n, es)
    requires Logged(c, e) || e in es
    ensures Logged(c', e)
  {
  }

  lemma GrowthKeepsEventsLogged(c: State, c': State, n: Str, es: seq<LogEvent>)
    requires LogGrew(c, c', n, es) && EventsLogged(c)
    ensures EventsLogged(c')
  {
    forall m, k | m in c'.nodes && k in c'.nodes[m].tables.events
      ensures EventKeyOf(c'.nodes[m].tables.events[k]) == k && Logged(c', c'.nodes[m].tables.events[k])
    {
      GrowthKeepsLogged(c, c', n, es, c'.nodes[m].tables.events[k]);
    }
    forall rep, e | rep in c'.replies && e in rep.resp.events ensures Logged(c', e) {
      GrowthKeepsLogged(c, c', n, es, e);
    }
  }

  lemma GrowthIsFresh(c: State, c': State, n: Str, es: seq<LogEvent>, b: Str, e: LogEvent)
    requires LogGrew(c, c', n, es) && b in c.nodes && e in c'.nodes[b].log
    ensures e in c.nodes[b].log || (b == n && e in es)
  {
  }

  lemma GrowthKeepsTables(c: State, c': State, n: Str, es: seq<LogEvent>, a: Str)
    requires LogGrew(c, c', n, es) && a in c.nodes
    ensures c'.nodes[a].tables.marks == c.nodes[a].tables.marks
    ensures c.nodes[a].tables.events.Keys <= c'.nodes[a].tables.events.Keys
  {
  }

  lemma GrowthKeepsMarks(c: State, c': State, n: Str, es: seq<LogEvent>)
    requires LogGrew(c, c', n, es) && EventMarksCover(c) && forall e :: e in es ==> Unheard(c, n, e)
    ensures EventMarksCover(c')
  {
    forall a, b, e | a in c'.nodes && b in c'.nodes && SkippableEvent(c'.nodes[a], b, c'.nodes[b], e)
      ensures EventKeyOf(e) in c'.nodes[a].tables.events
    {
      GrowthIsFresh(c, c', n, es, b, e);
      GrowthKeepsTables(c, c', n, es, a);
      if e in c.nodes[b].log {
        assert SkippableEvent(c.nodes[a], b, c.nodes[b], e);
      } else {
        assert Unheard(c, n, e);
        assert a == n;
      }
    }
  }

  lemma GrowthKeepsReplies(c: State, c': State, n: Str, es: seq<LogEvent>)
    requires LogGrew(c, c', n, es) && EventRepliesCover(c) && forall e :: e in es ==> Unheard(c, n, e)
    ensures EventRepliesCover(c')
  {
    forall rep, e | rep in c'.replies && rep.call.server in c'.nodes && ClaimedEvent(rep, c'.nodes[rep.call.server], e)
      ensures e in rep.resp.events
    {
      GrowthIsFresh(c, c', n, es, rep.call.server, e);
      assert rep.call.server == n && e in es ==> Unheard(c, n, e);
      assert ClaimedEvent(rep, c.nodes[rep.call.server], e);
    }
  }

  lemma GrowthKeepsNumbers(c: State, c': State, n: Str, es: seq<LogEvent>)
    requires LogGrew(c, c', n, es) && NumberInv(c)
    ensures NumberInv(c')
  {
    GrowthKeepsOwnLog(c.nodes[n], c'.nodes[n], n, es);
    GrowthKeepsEventsLogged(c, c', n, es);
  }

  lemma GrowthKeepsLogInv(c: State, c': State, n: Str, es: seq<LogEvent>)
    requires LogGrew(c, c', n, es) && LogInv(c) && forall e :: e in es ==> Unheard(c, n, e)
    ensures LogInv(c')
  {
    GrowthKeepsNumbers(c, c', n, es);
    GrowthKeepsMarks(c, c', n, es);
    GrowthKeepsReplies(c, c', n, es);
  }

  /** An event that some mark or reply already passed is skipped. */
  lemma HeardIsSkipped(c: State, c': State, n: Str, es: seq<LogEvent>, e: LogEvent)
    requires LogGrew(c, c', n, es) && NumberInv(c) && e in es && EventMarksCover(c') && EventRepliesCover(c')
    ensures Unheard(c, n, e)
  {
    assert !Logged(c, e);
    forall a | a in c.nodes && a != n ensures After(e.hlc, Mark(c.nodes[a].tables.marks, n, Event)) {
      if !After(e.hlc, Mark(c.nodes[a].tables.marks, n, Event)) {
        assert SkippableEvent(c'.nodes[a], n, c'.nodes[n], e);
        BeyondLog(c, n, EventKeyOf(e));
      }
    }
    forall rep | rep in c.replies && rep.call.server == n && After(e.hlc, rep.call.req.evMark)
      ensures After(e.hlc, EventMax(ZERO, rep.resp.events))
    {
      assert ClaimedEvent(rep, c'.nodes[n], e) ==> Logged(c, e);
    }
  }

  /** Exactly when an emission leaves every mark and reply complete. */
  lemma GrowthKeepsLogExactly(c: State, c': State, n: Str, es: seq<LogEvent>)
    requires LogGrew(c, c', n, es) && LogInv(c)
    ensures LogInv(c') <==> forall e :: e in es ==> Unheard(c, n, e)
  {
    if LogInv(c') {
      forall e | e in es ensures Unheard(c, n, e) {
        HeardIsSkipped(c, c', n, es, e);
      }
    } else if forall e :: e in es ==> Unheard(c, n, e) {
      GrowthKeepsLogInv(c, c', n, es);
    }
  }

  /** A tick's event is above all that was heard of its node. */
  lemma FreshIsUnheard(c: State, n: Str, e: LogEvent)
    requires ClockInv(c) && n in c.nodes && After(e.hlc, c.nodes[n].clock)
    ensures Unheard(c, n, e)
  {
    forall a | a in c.nodes ensures After(e.hlc, Mark(c.nodes[a].tables.marks, n, Event)) {
      DominatedMark(c, a, n, Event);
    }
    forall rep | rep in c.replies && rep.call.server == n ensures After(e.hlc, EventMax(ZERO, rep.resp.events)) {
      ReplyMaxima(c, rep, Event);
    }
  }

  lemma LocalKeepsLogInv(c: State, step: Step)
    requires ClockInv(c) && LogInv(c) && step.Local? && Enabled(c, step)
    ensures LogInv(Do(c, step))
  {
    var h := TickFrom(c.nodes[step.node].clock, step.now);
    var es := Emitted(c.nodes[step.node].tables.events, step.node, step.emission, h);
    LocalGrowsLog(c, step);
    forall e | e in es ensures Unheard(c, step.node, e) {
      FreshIsUnheard(c, step.node, e);
    }
    GrowthKeepsLogInv(c, Do(c, step), step.node, es);
  }

  // ------------------------------------------------------------ replies

  /** A reply holds every event of its server above the asked mark. */
  lemma AnswerHoldsLog(s: NodeState, n: Str, rep: Reply, e: LogEvent)
    requires OwnLog(s, n) && IsPart(s.tables, rep.call.req, rep.starts, rep.resp) && Event in rep.starts
    requires e in s.log && After(e.hlc, rep.call.req.evMark) && After(e.hlc, ZERO)
    ensures e in rep.resp.events
  {
    assert HoldsEvent(s.tables.events, e);
  }

  lemma AnswerLogged(c: State, rep: Reply, e: LogEvent)
    requires EventsLogged(c) && rep.call.server in c.nodes && e in rep.resp.events
    requires IsPart(c.nodes[rep.call.server].tables, rep.call.req, rep.starts, rep.resp)
    ensures Logged(c, e)
  {
    assert HoldsEvent(c.nodes[rep.call.server].tables.events, e);
    assert Logged(c, c.nodes[rep.call.server].tables.events[EventKeyOf(e)]);
  }

  lemma AddReplyKeepsLogInv(c: State, rep: Reply)
    requires LogInv(c) && rep.call.server in c.nodes
    requires forall e :: ClaimedEvent(rep, c.nodes[rep.call.server], e) ==> e in rep.resp.events
    requires forall e :: e in rep.resp.events ==> Logged(c, e)
    ensures LogInv(c.(replies := c.replies + {rep}))
  {
    var c' := c.(replies := c.replies + {rep});
    assert forall e :: Logged(c, e) ==> Logged(c', e);
  }

  lemma ServeKeepsLogInv(c: State, rep: Reply)
    requires LogInv(c) && rep.call.server in c.nodes
    requires forall e :: e in c.nodes[rep.call.server].log ==> After(e.hlc, ZERO)
    requires IsPart(c.nodes[rep.call.server].tables, rep.call.req, rep.starts, rep.resp)
    ensures LogInv(c.(replies := c.replies + {rep}))
  {
    var b := rep.call.server;
    forall e | ClaimedEvent(rep, c.nodes[b], e) ensures e in rep.resp.events {
      if Event in rep.starts {
        AnswerHoldsLog(c.nodes[b], b, rep, e);
      }
    }
    forall e | e in rep.resp.events ensures Logged(c, e) {
      AnswerLogged(c, rep, e);
    }
    AddReplyKeepsLogInv(c, rep);
  }

  /** Node a moved without touching any log, and its event table only gained entries. */
  ghost predicate TookFrame(c: State, c': State, a: Str) {
    && a in c.nodes && c'.nodes.Keys == c.nodes.Keys && c'.replies == c.replies
    && (forall m :: m in c.nodes && m != a ==> c'.nodes[m] == c.nodes[m])
    && c'.nodes[a].log == c.nodes[a].log
    && TableGrew(c.nodes[a].tables.events, c'.nodes[a].tables.events)
  }

  ghost predicate TableGrew(events: Events, events': Events) {
    forall k :: k in events ==> k in events' && events'[k] == events[k]
  }

  /** What the table gained is logged. */
  ghost predicate TookLogged(c: State, c': State, a: Str)
    requires a in c.nodes && a in c'.nodes
  {
    forall k :: k in c'.nodes[a].tables.events && k !in c.nodes[a].tables.events ==>
      EventKeyOf(c'.nodes[a].tables.events[k]) == k && Logged(c, c'.nodes[a].tables.events[k])
  }

  /** The table holds whatever its event marks newly claim. */
  ghost predicate TookCovered(c: State, c': State, a: Str)
    requires a in c.nodes && a in c'.nodes
  {
    forall b, e :: b in c.nodes && SkippableEvent(c'.nodes[a], b, c.nodes[b], e) && !SkippableEvent(c.nodes[a], b, c.nodes[b], e) ==>
      EventKeyOf(e) in c'.nodes[a].tables.events
  }

  lemma OwnLogKept(s: NodeState, s': NodeState, n: Str)
    requires OwnLog(s, n) && s'.log == s.log && TableGrew(s.tables.events, s'.tables.events)
    ensures OwnLog(s', n)
  {
  }

  lemma TakingKeepsOwnLogs(c: State, c': State, a: Str)
    requires OwnLogs(c) && TookFrame(c, c', a)
    ensures OwnLogs(c')
  {
    OwnLogKept(c.nodes[a], c'.nodes[a], a);
  }

  lemma TakingKeepsLogged(c: State, c': State, a: Str)
    requires EventsLogged(c) && TookFrame(c, c', a) && TookLogged(c, c', a)
    ensures EventsLogged(c')
  {
    assert forall e :: Logged(c, e) ==> Logged(c', e);
  }

  lemma TakingKeepsMarks(c: State, c': State, a: Str)
    requires EventMarksCover(c) && TookFrame(c, c', a) && TookCovered(c, c', a)
    ensures EventMarksCover(c')
  {
    forall m, b, e | m in c'.nodes && b in c'.nodes && SkippableEvent(c'.nodes[m], b, c'.nodes[b], e)
      ensures EventKeyOf(e) in c'.nodes[m].tables.events
    {
      if SkippableEvent(c.nodes[m], b, c.nodes[b], e) {
        assert EventKeyOf(e) in c.nodes[m].tables.events;
      } else {
        assert SkippableEvent(c'.nodes[m], b, c.nodes[b], e);
      }
    }
  }

  lemma TakingKeepsReplies(c: State, c': State, a: Str)
    requires EventRepliesCover(c) && TookFrame(c, c', a)
    ensures EventRepliesCover(c')
  {
    forall rep, e | rep in c'.replies && rep.call.server in c'.nodes && ClaimedEvent(rep, c'.nodes[rep.call.server], e)
      ensures e in rep.resp.events
    {
      assert ClaimedEvent(rep, c.nodes[rep.call.server], e);
    }
  }

  lemma TakingKeepsNumbers(c: State, c': State, a: Str)
    requires NumberInv(c) && TookFrame(c, c', a) && TookLogged(c, c', a)
    ensures NumberInv(c')
  {
    TakingKeepsOwnLogs(c, c', a);
    TakingKeepsLogged(c, c', a);
  }

  lemma TakingKeepsLogInv(c: State, c': State, a: Str)
    requires LogInv(c) && TookFrame(c, c', a) && TookLogged(c, c', a) && TookCovered(c, c', a)
    ensures LogInv(c')
  {
    TakingKeepsNumbers(c, c', a);
    TakingKeepsMarks(c, c', a);
    TakingKeepsReplies(c, c', a);
  }

  /** Rows never move the event watermark: no row has the event kind. */
  lemma RowsMoveNoEventMark(marks: Marks, peer: Str, rep: Reply, b: Str)
    requires ReplyStructured(rep)
    ensures Mark(AdvanceMarks(marks, peer, rep.resp.rows), b, Event) == Mark(marks, b, Event)
  {
    AdvancedMark(marks, peer, rep.resp.rows, b, Event);
  }

  /** Merging a reply's rows, whether or not the clock sees them, touches no log. */
  lemma MergedTook(c: State, c': State, rep: Reply)
    requires MergedAt(c, c', rep) && ReplyStructured(rep)
    requires c'.nodes[rep.call.client].log == c.nodes[rep.call.client].log
    requires c'.nodes[rep.call.client].tables.events == c.nodes[rep.call.client].tables.events
    ensures TookFrame(c, c', rep.call.client) && TookLogged(c, c', rep.call.client) && TookCovered(c, c', rep.call.client)
  {
    var a := rep.call.client;
    forall b ensures Mark(c'.nodes[a].tables.marks, b, Event) == Mark(c.nodes[a].tables.marks, b, Event) {
      RowsMoveNoEventMark(c.nodes[a].tables.marks, rep.call.server, rep, b);
    }
  }

  lemma TakeRowsKeepsLogInv(c: State, step: Step)
    requires ClockInv(c) && LogInv(c) && step.TakeRows? && Enabled(c, step)
    ensures LogInv(Do(c, step))
  {
    DominatedIsStructured(c);
    MergedTook(c, Do(c, step), step.reply);
    TakingKeepsLogInv(c, Do(c, step), step.reply.call.client);
  }

  /** Node a stored the events of a reply to it; all else but its clock is as before. */
  ghost predicate EventsMergedAt(c: State, c': State, rep: Reply) {
    var a := rep.call.client;
    && rep in c.replies && a in c.nodes && c'.nodes.Keys == c.nodes.Keys && c'.replies == c.replies
    && (forall m :: m in c.nodes && m != a ==> c'.nodes[m] == c.nodes[m])
    && c'.nodes[a].log == c.nodes[a].log
    && c'.nodes[a].tables == EventsApplied(c.nodes[a].tables, rep.call.server, rep.call.req.evMark, rep.resp.events)
  }

  /** The event watermark after a reply: the old one or the reply's greatest stamp. */
  lemma EventMarkAfter(t: Tables, rep: Reply, b: Str)
    requires !After(ZERO, Mark(t.marks, rep.call.server, Event)) && !After(rep.call.req.evMark, Mark(t.marks, rep.call.server, Event))
    ensures var m := Mark(EventsApplied(t, rep.call.server, rep.call.req.evMark, rep.resp.events).marks, b, Event);
            m == if b == rep.call.server then Max(Mark(t.marks, b, Event), EventMax(ZERO, rep.resp.events)) else Mark(t.marks, b, Event)
  {
    EventMaxStart(Mark(t.marks, rep.call.server, Event), rep.call.req.evMark, rep.resp.events);
  }

  /** What the event watermark newly claims, the reply just delivered. */
  lemma TakenEventCovered(c: State, c': State, rep: Reply, b: Str, e: LogEvent)
    requires Structured(c) && EventRepliesCover(c) && EventsMergedAt(c, c', rep) && b in c.nodes
    requires SkippableEvent(c'.nodes[rep.call.client], b, c.nodes[b], e)
    requires !SkippableEvent(c.nodes[rep.call.client], b, c.nodes[b], e)
    ensures EventKeyOf(e) in c'.nodes[rep.call.client].tables.events
  {
    StructuredReply(c, rep);
    CallWithin(c, rep.call, Event);
    EventMarkAfter(c.nodes[rep.call.client].tables, rep, b);
    assert ClaimedEvent(rep, c.nodes[b], e);
    InsertAllAdds(c.nodes[rep.call.client].tables.events, rep.resp.events);
  }

  lemma EventsMergedTook(c: State, c': State, rep: Reply)
    requires EventsLogged(c) && EventsMergedAt(c, c', rep)
    ensures TookFrame(c, c', rep.call.client) && TookLogged(c, c', rep.call.client)
  {
    InsertAllAdds(c.nodes[rep.call.client].tables.events, rep.resp.events);
  }

  lemma EventsMergedKeepsLogInv(c: State, c': State, rep: Reply)
    requires Structured(c) && LogInv(c) && EventsMergedAt(c, c', rep)
    ensures LogInv(c')
  {
    var a := rep.call.client;
    EventsMergedTook(c, c', rep);
    forall b, e | b in c.nodes && SkippableEvent(c'.nodes[a], b, c.nodes[b], e) && !SkippableEvent(c.nodes[a], b, c.nodes[b], e)
      ensures EventKeyOf(e) in c'.nodes[a].tables.events
    {
      TakenEventCovered(c, c', rep, b, e);
    }
    TakingKeepsLogInv(c, c', a);
  }

  lemma TakeEventsKeepsLogInv(c: State, step: Step)
    requires ClockInv(c) && LogInv(c) && step.TakeEvents? && Enabled(c, step)
    ensures LogInv(Do(c, step))
  {
    DominatedIsStructured(c);
    EventsMergedKeepsLogInv(c, Do(c, step), step.reply);
  }

  /** Every step keeps the log invariant. */
  lemma StepKeepsLogInv(c: State, step: Step)
    requires ClockInv(c) && LogInv(c) && Enabled(c, step)
    ensures LogInv(Do(c, step))
  {
    match step
    case Local(_, _, _, _) => LocalKeepsLogInv(c, step);
    case Ask(call) => AskKeepsLogInv(c, call);
    case Serve(rep) =>
      DominatedNode(c, rep.call.server);
      ServeKeepsLogInv(c, rep);
    case TakeRows(_) => TakeRowsKeepsLogInv(c, step);
    case TakeEvents(_) => TakeEventsKeepsLogInv(c, step);
    case Lose(rep) => LoseKeepsLogInv(c, rep);
  }

  lemma LoseKeepsLogInv(c: State, rep: Reply)
    requires LogInv(c)
    ensures LogInv(c.(replies := c.replies - {rep}))
  {
    var c' := c.(replies := c.replies - {rep});
    assert forall e :: Logged(c, e) ==> Logged(c', e);
  }

  lemma AskKeepsLogInv(c: State, call: Call)
    requires LogInv(c)
    ensures LogInv(c.(calls := c.calls + {call}))
  {
    assert forall e :: Logged(c, e) ==> Logged(c.(calls := c.calls + {call}), e);
  }
}
