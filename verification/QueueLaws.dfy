/**
 * What each call does to the messages, in plain numbers: when it is refused and why,
 * which messages it moves, and what their entries are afterwards.
 */
module QueueLaws {
  import opened Sequences
  import opened Keys
  import opened QueueModel
  import opened QueueInvariant
  import opened QueueScans
  import opened QueueSystem
  import opened QueueService
  import opened QueueWakeups

  // ----- Steps of at most one transition -----

  lemma NextIs(cfg: Config, x: Sys, a: Action, wake: set<Tid>)
    requires |Steps(cfg, x.q, a)| <= 1
    ensures var ms, y := Steps(cfg, x.q, a), Next(cfg, x, a, wake);
      if ms == [] then y.q == x.q && y.log == x.log
      else Can(cfg, x.q, ms[0]) && y.q == Do(cfg, x.q, ms[0]) && y.log == x.log + [EventOf(x.q, ms[0])]
  {
    StepsRun(cfg, x.q, a);
    AfterFew(cfg, x.q, a);
    hide Do, Can, NextPhase, Notifications, FallsAsleep, EventOf, After;
    var ms := Steps(cfg, x.q, a);
    hide Steps;
    if ms == [] {
      assert x.log + [] == x.log;
    } else {
      assert ms[1..] == [] && Events(cfg, Do(cfg, x.q, ms[0]), []) == [];
    }
  }

  // ----- push -----

  /** A push is refused for one of three reasons, looked for in this order. */
  lemma PushErrors(cfg: Config, s: State, id: Id, priority: nat)
    requires Inv(cfg, s)
    ensures var err := PushError(cfg, s, id, priority);
      && (err == None <==> priority < |s.queues| && id !in s.msgs && |s.msgs| < cfg.capacity)
      && (err == Some(InvalidPriority) <==> priority >= |s.queues|)
      && (err == Some(DuplicateId) <==> priority < |s.queues| && id in s.msgs)
      && (err == Some(CapacityExceeded) <==> priority < |s.queues| && id !in s.msgs && |s.msgs| == cfg.capacity)
  {
    CountersAreHonest(cfg, s);
    hide Inv;
  }

  /**
   * A push is accepted exactly if the priority exists, the id is not held and the
   * messages held are fewer than the capacity. A refused push changes nothing.
   */
  lemma PushIsAccepted(cfg: Config, x: Sys, id: Id, priority: nat, delay: nat, now: int, wake: set<Tid>)
    requires Inv(cfg, x.q)
    ensures var y := Next(cfg, x, PushMsg(id, priority, delay, now), wake);
      if priority < |x.q.queues| && id !in x.q.msgs && |x.q.msgs| < cfg.capacity then
        && y.log == x.log + [Pushed(id)]
        && y.q.msgs == x.q.msgs[id := Entry(priority, false, 0, if delay == 0 then Queued else Delayed, now + 1000000 * delay, "")]
        && |y.q.queues| == |x.q.queues|
      else y.log == x.log && y.q == x.q
  {
    hide Inv, UpperBound, Insert, SetQueue, PushError, Next;
    PushErrors(cfg, x.q, id, priority);
    NextIs(cfg, x, PushMsg(id, priority, delay, now), wake);
    if PushError(cfg, x.q, id, priority) == None { PushedEntry(cfg, x.q, id, priority, delay, now); }
    hide Do, Can, EventOf, PushSteps;
  }

  lemma PushedEntry(cfg: Config, s: State, id: Id, priority: nat, delay: nat, now: int)
    requires Can(cfg, s, Push(id, priority, delay, now))
    ensures var m := Push(id, priority, delay, now); var t := Do(cfg, s, m);
      && t.msgs == s.msgs[id := Entry(priority, false, 0, if delay == 0 then Queued else Delayed, now + 1000000 * delay, "")]
      && |t.queues| == |s.queues| && EventOf(s, m) == Pushed(id)
  {
    hide UpperBound, Insert, At;
  }

  // ----- ack -----

  /** An acknowledgement is refused for one of three reasons, looked for in this order. */
  lemma AckErrors(s: State, id: Id, token: string)
    ensures var err := AckError(s, id, token);
      && (err == None <==> id in s.msgs && s.msgs[id].token == token && s.msgs[id].state == Running)
      && (err == Some(NoSuchMessage) <==> id !in s.msgs)
      && (err == Some(InvalidToken) <==> id in s.msgs && s.msgs[id].token != token)
      && (err == Some(InvalidState) <==> id in s.msgs && s.msgs[id].token == token && s.msgs[id].state != Running)
  {
  }

  /** An acknowledgement is accepted exactly if the message is running under the token. A refused one changes nothing. */
  lemma AckIsAccepted(cfg: Config, x: Sys, id: Id, token: string, requeue: bool, delay: nat, now: int, wake: set<Tid>)
    ensures var y := Next(cfg, x, Ack(id, token, requeue, delay, now), wake);
      if id in x.q.msgs && x.q.msgs[id].token == token && x.q.msgs[id].state == Running then
        var e := x.q.msgs[id];
        && y.log == x.log + [if requeue then Requeued(id) else Finished(id)]
        && y.q.msgs == (if requeue
             then x.q.msgs[id := Entry(e.priority, false, e.failCount, if delay == 0 then Queued else Delayed, now + 1000000 * delay, "")]
             else x.q.msgs - {id})
        && |y.q.queues| == |x.q.queues|
      else y.log == x.log && y.q == x.q
  {
    hide UpperBound, Insert, SetQueue, AckError, Next;
    AckErrors(x.q, id, token);
    NextIs(cfg, x, Ack(id, token, requeue, delay, now), wake);
    if AckError(x.q, id, token) == None { SettledEntry(cfg, x.q, id, requeue, delay, now); }
    hide Do, Can, EventOf;
  }

  lemma SettledEntry(cfg: Config, s: State, id: Id, requeue: bool, delay: nat, now: int)
    requires id in s.msgs && s.msgs[id].state == Running
    ensures var m, e := if requeue then Requeue(id, delay, now) else Finish(id), s.msgs[id]; var t := Do(cfg, s, m);
      && t.msgs == (if requeue
           then s.msgs[id := Entry(e.priority, false, e.failCount, if delay == 0 then Queued else Delayed, now + 1000000 * delay, "")]
           else s.msgs - {id})
      && |t.queues| == |s.queues| && EventOf(s, m) == if requeue then Requeued(id) else Finished(id)
  {
    hide UpperBound, Insert, At;
  }

  /** After a final acknowledgement there is room for another message, however full the queue was. */
  lemma PushAfterAck(cfg: Config, x: Sys, id: Id, token: string, now: int, wake: set<Tid>,
                     id': Id, priority: nat, delay: nat, later: int, wake': set<Tid>)
    requires Inv(cfg, x.q) && id in x.q.msgs && x.q.msgs[id].token == token && x.q.msgs[id].state == Running
    requires id' == id || id' !in x.q.msgs
    requires priority < |x.q.queues|
    ensures var y := Next(cfg, x, Ack(id, token, false, 0, now), wake);
      var z := Next(cfg, y, PushMsg(id', priority, delay, later), wake');
      z.log == x.log + [Finished(id)] + [Pushed(id')] && id' in z.q.msgs
  {
    hide Next;
    var y := Next(cfg, x, Ack(id, token, false, 0, now), wake);
    NextKeepsInv(cfg, x, Ack(id, token, false, 0, now), wake);
    CountersAreHonest(cfg, x.q);
    hide Inv;
    AckIsAccepted(cfg, x, id, token, false, 0, now, wake);
    PushIsAccepted(cfg, y, id', priority, delay, later, wake');
    assert y.q.msgs.Keys == x.q.msgs.Keys - {id};
    assert |y.q.msgs| == |y.q.msgs.Keys|;
  }

  lemma NextKeepsInv(cfg: Config, x: Sys, a: Action, wake: set<Tid>)
    requires Inv(cfg, x.q)
    ensures Inv(cfg, Next(cfg, x, a, wake).q)
  {
    hide Inv, After, Steps, NextPhase, Notifications, FallsAsleep;
    StepKeepsInv(cfg, x.q, a);
  }

  // ----- pop -----

  /** p is the first queue that is not empty. */
  ghost predicate IsFirstQueue(qs: seq<seq<Id>>, p: nat) {
    p < |qs| && qs[p] != [] && forall i :: 0 <= i < p ==> qs[i] == []
  }

  /** A pop takes the last message of the first queue that is not empty, and stamps it with the time and the token. */
  lemma PopTakes(cfg: Config, x: Sys, tid: Tid, token: string, now: int, wake: set<Tid>, p: nat)
    requires Inv(cfg, x.q) && IsFirstQueue(x.q.queues, p)
    ensures var y, q := Next(cfg, x, PopMsg(tid, token, now), wake), x.q.queues[p];
      var id := q[|q| - 1];
      && id in x.q.msgs
      && y.log == x.log + [Popped(id, token)]
      && y.q.msgs == x.q.msgs[id := x.q.msgs[id].(state := Running, ts := now, token := token)]
      && y.q.queues == x.q.queues[p := q[..|q| - 1]]
      && FallsAsleep(cfg, x.q, PopMsg(tid, token, now)) == {}
  {
    FirstIsFirst(x.q.queues, p);
    CountersAreHonest(cfg, x.q);
    hide *;
    PopNext(cfg, x, tid, token, now, wake);
    PoppedEntry(cfg, x.q, token, now);
  }

  lemma PopNext(cfg: Config, x: Sys, tid: Tid, token: string, now: int, wake: set<Tid>)
    requires x.q.countQueued != 0 && Poppable(x.q)
    ensures var y, m, a := Next(cfg, x, PopMsg(tid, token, now), wake), Pop(token, now), PopMsg(tid, token, now);
      && Can(cfg, x.q, m) && y.q == Do(cfg, x.q, m) && y.log == x.log + [EventOf(x.q, m)]
      && FallsAsleep(cfg, x.q, a) == {}
  {
    hide Do, EventOf, Next, Poppable;
    NextIs(cfg, x, PopMsg(tid, token, now), wake);
  }

  lemma PoppedEntry(cfg: Config, s: State, token: string, now: int)
    requires s.countQueued != 0 && Poppable(s)
    ensures var p, m := FirstNonEmpty(s.queues), Pop(token, now);
      && p < |s.queues| && s.queues[p] != [] && Can(cfg, s, m)
      && var q := s.queues[p]; var id := q[|q| - 1]; var t := Do(cfg, s, m);
      && id in s.msgs && EventOf(s, m) == Popped(id, token)
      && t.msgs == s.msgs[id := s.msgs[id].(state := Running, ts := now, token := token)]
      && t.queues == s.queues[p := q[..|q| - 1]]
  {
  }

  lemma {:induction false} FirstIsFirst(qs: seq<seq<Id>>, p: nat)
    requires IsFirstQueue(qs, p)
    ensures FirstNonEmpty(qs) == p
  {
    if p > 0 {
      assert forall i :: 0 <= i < p - 1 ==> qs[1..][i] == qs[i + 1];
      FirstIsFirst(qs[1..], p - 1);
    }
  }

  /** With nothing queued a pop changes nothing, and its thread goes to sleep. */
  lemma PopWaits(cfg: Config, x: Sys, tid: Tid, token: string, now: int, wake: set<Tid>)
    requires Inv(cfg, x.q) && forall id :: id in x.q.msgs ==> x.q.msgs[id].state != Queued
    ensures var y := Next(cfg, x, PopMsg(tid, token, now), wake);
      y.log == x.log && y.q == x.q && FallsAsleep(cfg, x.q, PopMsg(tid, token, now)) == {tid}
  {
    CountersAreHonest(cfg, x.q);
    hide Inv, FirstNonEmpty, Next, Poppable;
    NextIs(cfg, x, PopMsg(tid, token, now), wake);
  }

  // ----- The monitor's scan -----

  /** Running for longer than the ack timeout, in milliseconds; 0 switches it off. The clock counts nanoseconds. */
  predicate IsOverdue(cfg: Config, e: Entry, now: int) {
    e.state == Running && cfg.failTimeout != 0 && e.ts + 1000000 * cfg.failTimeout < now
  }

  /** Queued for longer than the boost timeout below the top priority, and not boosted yet. */
  predicate IsStarved(cfg: Config, e: Entry, now: int) {
    e.state == Queued && e.priority > 0 && !e.boosted && e.ts + 1000000 * cfg.boostTimeout < now
  }

  /** What a scan makes of an entry. The failure counter has 8 bits. */
  function EntryAfterScan(cfg: Config, e: Entry, now: int): Entry {
    var n := if e.failCount == 255 then 0 else e.failCount + 1;
    if IsOverdue(cfg, e, now) && n == cfg.maxRetries then Entry(e.priority, e.boosted, n, Failed, e.ts, e.token)
    else if IsOverdue(cfg, e, now) then Entry(e.priority, e.boosted, n, Queued, e.ts, "")
    else if IsStarved(cfg, e, now) then Entry(e.priority, true, e.failCount, Queued, e.ts, e.token)
    else e
  }

  lemma ScanEntryIs(cfg: Config, e: Entry, now: int)
    requires e.failCount < 256
    ensures ScanEntry(cfg, e, now) == EntryAfterScan(cfg, e, now)
    ensures Expired(cfg, e, now) <==> IsOverdue(cfg, e, now)
    ensures Starving(cfg, e, now) <==> IsStarved(cfg, e, now)
  {
  }

  ghost predicate InOrder(es: seq<Event>) {
    forall i, j :: 0 <= i < j < |es| ==> Less(es[i].id, es[j].id)
  }

  ghost predicate LogsTimeouts(cfg: Config, msgs: map<Id, Entry>, order: seq<Id>, now: int, es: seq<Event>) {
    forall id :: TimedOut(id) in es <==> id in order && id in msgs && IsOverdue(cfg, msgs[id], now)
  }

  ghost predicate LogsBoosts(cfg: Config, msgs: map<Id, Entry>, order: seq<Id>, now: int, es: seq<Event>) {
    forall id :: BoostedUp(id) in es <==> id in order && id in msgs && IsStarved(cfg, msgs[id], now)
  }

  /** The events of a scan: which messages it times out and which it boosts, in the order of their ids. */
  ghost predicate ScanLogs(cfg: Config, msgs: map<Id, Entry>, order: seq<Id>, now: int, es: seq<Event>) {
    && LogsTimeouts(cfg, msgs, order, now, es)
    && LogsBoosts(cfg, msgs, order, now, es)
    && (forall e :: e in es ==> e.TimedOut? || e.BoostedUp?)
    && InOrder(es)
  }

  /** What one message adds. */
  function LogOf(cfg: Config, id: Id, e: Entry, now: int): seq<Event> {
    if IsOverdue(cfg, e, now) then [TimedOut(id)] else if IsStarved(cfg, e, now) then [BoostedUp(id)] else []
  }

  lemma ScanStepLogs(cfg: Config, s: State, id: Id, now: int)
    requires Inv(cfg, s) && id in s.msgs
    ensures var ms := ScanStep(cfg, s, id, now);
      && CanAll(cfg, s, ms) && DoAll(cfg, s, ms) == AfterScanStep(cfg, s, id, now)
      && Events(cfg, s, ms) == LogOf(cfg, id, s.msgs[id], now)
  {
    EntryFacts(cfg, s, id);
    ScanEntryIs(cfg, s.msgs[id], now);
    if Starving(cfg, s.msgs[id], now) { StarvingIsFound(cfg, s, id, now); }
    hide Inv, Do;
    var ms := ScanStep(cfg, s, id, now);
    if ms != [] { assert ms[1..] == [] && Events(cfg, Do(cfg, s, ms[0]), []) == []; }
  }

  lemma LogsCons(cfg: Config, msgs: map<Id, Entry>, msgs': map<Id, Entry>, id: Id, rest: seq<Id>, now: int, es: seq<Event>)
    requires id in msgs && id !in rest && ScanLogs(cfg, msgs', rest, now, es) && forall x :: x in rest ==> Less(id, x)
    requires forall x :: x != id ==> (x in msgs <==> x in msgs') && (x in msgs ==> msgs[x] == msgs'[x])
    ensures ScanLogs(cfg, msgs, [id] + rest, now, LogOf(cfg, id, msgs[id], now) + es)
  {
    var e := LogOf(cfg, id, msgs[id], now);
    LogOfIs(cfg, id, msgs[id], now);
    EventsAreFor(cfg, msgs', rest, now, es);
    hide LogOf, IsOverdue, IsStarved, InOrder, Less;
    TimeoutsCons(cfg, msgs, msgs', id, rest, now, e, es);
    BoostsCons(cfg, msgs, msgs', id, rest, now, e, es);
    hide LogsTimeouts, LogsBoosts;
    InOrderCons(e, es);
  }

  lemma LogOfIs(cfg: Config, id: Id, e: Entry, now: int)
    ensures var l := LogOf(cfg, id, e, now);
      && |l| <= 1 && (forall x :: x in l ==> x.id == id && (x.TimedOut? || x.BoostedUp?))
      && (TimedOut(id) in l <==> IsOverdue(cfg, e, now)) && (BoostedUp(id) in l <==> IsStarved(cfg, e, now))
  {
  }

  lemma TimeoutsCons(cfg: Config, msgs: map<Id, Entry>, msgs': map<Id, Entry>, id: Id, rest: seq<Id>, now: int, e: seq<Event>, es: seq<Event>)
    requires id in msgs && id !in rest && LogsTimeouts(cfg, msgs', rest, now, es)
    requires forall x :: x != id ==> (x in msgs <==> x in msgs') && (x in msgs ==> msgs[x] == msgs'[x])
    requires (forall x :: x in e ==> x.id == id) && (TimedOut(id) in e <==> IsOverdue(cfg, msgs[id], now))
    ensures LogsTimeouts(cfg, msgs, [id] + rest, now, e + es)
  {
    hide IsOverdue;
    assert forall x :: x in [id] + rest <==> x == id || x in rest;
    assert forall x :: x in e + es <==> x in e || x in es;
  }

  lemma BoostsCons(cfg: Config, msgs: map<Id, Entry>, msgs': map<Id, Entry>, id: Id, rest: seq<Id>, now: int, e: seq<Event>, es: seq<Event>)
    requires id in msgs && id !in rest && LogsBoosts(cfg, msgs', rest, now, es)
    requires forall x :: x != id ==> (x in msgs <==> x in msgs') && (x in msgs ==> msgs[x] == msgs'[x])
    requires (forall x :: x in e ==> x.id == id) && (BoostedUp(id) in e <==> IsStarved(cfg, msgs[id], now))
    ensures LogsBoosts(cfg, msgs, [id] + rest, now, e + es)
  {
    hide IsStarved;
    assert forall x :: x in [id] + rest <==> x == id || x in rest;
    assert forall x :: x in e + es <==> x in e || x in es;
  }

  lemma EventsAreFor(cfg: Config, msgs: map<Id, Entry>, order: seq<Id>, now: int, es: seq<Event>)
    requires ScanLogs(cfg, msgs, order, now, es)
    ensures forall y :: y in es ==> y.id in order
  {
    hide IsOverdue, IsStarved, InOrder;
    forall y | y in es ensures y.id in order { assert y == TimedOut(y.id) || y == BoostedUp(y.id); }
  }

  lemma InOrderCons(e: seq<Event>, es: seq<Event>)
    requires |e| <= 1 && InOrder(es) && forall x, y :: x in e && y in es ==> Less(x.id, y.id)
    ensures InOrder(e + es)
  {
    var s := e + es;
    forall i, j | 0 <= i < j < |s| ensures Less(s[i].id, s[j].id) {
      assert s[j] == es[j - |e|] && s[j] in es;
      if i < |e| { assert s[i] == e[i] && s[i] in e; } else { assert s[i] == es[i - |e|]; }
    }
  }

  lemma {:induction false} ScanEvents(cfg: Config, s: State, order: seq<Id>, now: int)
    requires Inv(cfg, s) && NoDup(order) && Ascending(order) && forall id :: id in order ==> id in s.msgs
    ensures CanAll(cfg, s, Scan(cfg, s, order, now))
    ensures ScanLogs(cfg, s.msgs, order, now, Events(cfg, s, Scan(cfg, s, order, now)))
    decreases |order|
  {
    hide Inv, Do, Can, EventOf, ScanStep, ScanEntry, AfterScanStep, IsOverdue, IsStarved;
    ScanRuns(cfg, s, order, now);
    if order == [] {
      NoLogs(cfg, s.msgs, now);
    } else {
      var id, rest := order[0], order[1..];
      var t := AfterScanStep(cfg, s, id, now);
      NoDupTail(order);
      AscendingTail(order);
      ScanStepEffect(cfg, s, id, now);
      ScanStepLogs(cfg, s, id, now);
      hide NoDup, ScanLogs, Ascending;
      ScanRuns(cfg, t, rest, now);
      ScanEvents(cfg, t, rest, now);
      EventsConcat(cfg, s, ScanStep(cfg, s, id, now), Scan(cfg, t, rest, now));
      LogsCons(cfg, s.msgs, t.msgs, id, rest, now, Events(cfg, t, Scan(cfg, t, rest, now)));
      assert order == [id] + rest;
    }
  }

  lemma AscendingTail(s: seq<Id>)
    requires Ascending(s) && s != []
    ensures Ascending(s[1..]) && forall x :: x in s[1..] ==> Less(s[0], x)
  {
    forall x | x in s[1..] ensures Less(s[0], x) {
      var i :| 0 <= i < |s[1..]| && s[1..][i] == x;
      assert s[i + 1] == x;
    }
  }

  lemma NoLogs(cfg: Config, msgs: map<Id, Entry>, now: int)
    ensures ScanLogs(cfg, msgs, [], now, [])
  {
  }

  /**
   * A scan times out exactly the messages that have been running for longer than the
   * ack timeout, boosts exactly those that have been queued below the top priority for
   * longer than the boost timeout and were not boosted before, each once and in the
   * order of their ids, and does nothing else.
   */
  lemma ScanLaw(cfg: Config, x: Sys, now: int, wake: set<Tid>) returns (es: seq<Event>)
    requires Inv(cfg, x.q)
    ensures var y := Next(cfg, x, MonitorScan(now), wake);
      && y.log == x.log + es
      && y.q.msgs == (map id | id in x.q.msgs :: EntryAfterScan(cfg, x.q.msgs[id], now))
    ensures forall i, j :: 0 <= i < j < |es| ==> Precedes(es[i].id, es[j].id)
    ensures forall id :: TimedOut(id) in es <==> id in x.q.msgs && IsOverdue(cfg, x.q.msgs[id], now)
    ensures forall id :: BoostedUp(id) in es <==> id in x.q.msgs && IsStarved(cfg, x.q.msgs[id], now)
    ensures forall e :: e in es ==> e.TimedOut? || e.BoostedUp?
  {
    hide Inv, NoDup, Ascending, Sorted, Scan, IsOverdue, IsStarved, EntryAfterScan, NextPhase, Notifications, FallsAsleep, After,
      Events, CanAll, ScanLogs;
    var order := Sorted(x.q.msgs.Keys);
    SortedNoDup(x.q.msgs.Keys);
    ScanEvents(cfg, x.q, order, now);
    ScannedEntries(cfg, x.q, now);
    es := Events(cfg, x.q, Scan(cfg, x.q, order, now));
    AllLogged(cfg, x.q.msgs, order, now, es);
    hide Less, Precedes;
    forall i, j | 0 <= i < j < |es| ensures Precedes(es[i].id, es[j].id) { LessIs(es[i].id, es[j].id); }
  }

  lemma AllLogged(cfg: Config, msgs: map<Id, Entry>, order: seq<Id>, now: int, es: seq<Event>)
    requires ScanLogs(cfg, msgs, order, now, es) && forall id :: id in order <==> id in msgs
    ensures forall i, j :: 0 <= i < j < |es| ==> Less(es[i].id, es[j].id)
    ensures forall id :: TimedOut(id) in es <==> id in msgs && IsOverdue(cfg, msgs[id], now)
    ensures forall id :: BoostedUp(id) in es <==> id in msgs && IsStarved(cfg, msgs[id], now)
    ensures forall e :: e in es ==> e.TimedOut? || e.BoostedUp?
  {
    hide IsOverdue, IsStarved, Less;
  }

  lemma ScannedEntries(cfg: Config, s: State, now: int)
    requires Inv(cfg, s)
    ensures After(cfg, s, MonitorScan(now)).msgs == (map id | id in s.msgs :: EntryAfterScan(cfg, s.msgs[id], now))
  {
    hide Inv, After, AfterScan, NoDup, ScanEntry, EntryAfterScan, Sorted;
    ScanAfter(cfg, s, now);
    SortedNoDup(s.msgs.Keys);
    ScanEffect(cfg, s, Sorted(s.msgs.Keys), now);
    forall id | id in s.msgs ensures ScanEntry(cfg, s.msgs[id], now) == EntryAfterScan(cfg, s.msgs[id], now) {
      EntryFacts(cfg, s, id);
      ScanEntryIs(cfg, s.msgs[id], now);
    }
  }

  // ----- Notifications -----

  /** Consumers are notified of what is queued: one by one, but in a scan by a broadcast if it queues more than one. */
  lemma NotifiesWhatIsQueued(cfg: Config, s: State, a: Action)
    requires Inv(cfg, s)
    ensures var n := After(cfg, s, a).countQueued - s.countQueued; var r := Notifications(cfg, s, a);
      if a.MonitorScan? then n >= 0 && r == (if n <= 1 then Notify(n, false) else Notify(0, true))
      else if a.PushMsg? || a.Ack? || a.DelayRelease? then n >= 0 && r == Notify(n, false)
      else a.PopMsg? || a.EraseFailed? || a.SpuriousWake? || a.DelayCheck? || a.DelayWake? ==> r == Notify(0, false)
  {
    hide Inv, After, AckError, PushError, ReleaseDue, Retries;
    QueuedChange(cfg, s, a);
  }

  // ----- The delay thread -----

  /**
   * The delay thread runs a release pass exactly if some delayed message is due; else it
   * waits for the first due time, or without limit if nothing is delayed.
   */
  lemma CheckLaw(cfg: Config, s: State, now: int)
    requires Inv(cfg, s)
    ensures var p := CheckPhase(s, now);
      && (p == Awake <==> exists id :: id in s.msgs && s.msgs[id].state == Delayed && s.msgs[id].ts <= now)
      && (p == Asleep(None) <==> forall id :: id in s.msgs ==> s.msgs[id].state != Delayed)
      && (forall d :: p == Asleep(Some(d)) ==>
            && now < d
            && (exists id :: id in s.msgs && s.msgs[id].state == Delayed && s.msgs[id].ts == d)
            && forall id :: id in s.msgs && s.msgs[id].state == Delayed ==> d <= s.msgs[id].ts)
      && p != Checking
  {
    DelayFacts(cfg, s);
    hide Inv, NoDup;
    if s.delay != [] {
      assert s.delay[0] in s.delay;
      forall id | id in s.delay ensures Due(s.msgs, s.delay[0]) <= Due(s.msgs, id) {
        var i :| 0 <= i < |s.delay| && s.delay[i] == id;
      }
    } else {
      assert forall id :: id !in s.delay;
    }
  }

  // ----- Failed messages -----

  /** `getFailed` lists exactly the failed messages, each once, in the order of their ids. */
  lemma FailedLaw(s: State)
    ensures forall id :: id in FailedList(s) <==> id in s.msgs && s.msgs[id].state == Failed
    ensures var ids := FailedList(s); forall i, j :: 0 <= i < j < |ids| ==> Precedes(ids[i], ids[j])
  {
    var ids := Sorted(s.msgs.Keys);
    SortedNoDup(s.msgs.Keys);
    FilterAscends(ids, id => IsFailed(s, id));
    hide Sorted, Less, Precedes;
    var r := FailedList(s);
    forall i, j | 0 <= i < j < |r| ensures Precedes(r[i], r[j]) { LessIs(r[i], r[j]); }
  }

  lemma {:induction false} FilterAscends(ids: seq<Id>, f: Id -> bool)
    requires Ascending(ids) && NoDup(ids)
    ensures Ascending(Filter(ids, f)) && NoDup(Filter(ids, f))
    ensures forall id :: id in Filter(ids, f) <==> id in ids && f(id)
  {
    if ids != [] {
      assert ids == [ids[0]] + ids[1..];
      FilterAscends(ids[1..], f);
      var r := Filter(ids[1..], f);
      forall id | id in r ensures Less(ids[0], id) && id != ids[0] {
        var i :| 0 <= i < |ids[1..]| && ids[1..][i] == id;
        assert ids[i + 1] == id;
      }
      assert Filter(ids, f) == if f(ids[0]) then [ids[0]] + r else r;
      AscendingCons(ids[0], r);
    }
  }

  lemma AscendingCons(x: Id, r: seq<Id>)
    requires Ascending(r) && NoDup(r) && forall id :: id in r ==> Less(x, id) && id != x
    ensures Ascending([x] + r) && NoDup([x] + r)
  {
    var s := [x] + r;
    forall i, j | 0 <= i < j < |s| ensures Less(s[i], s[j]) && s[i] != s[j] {
      assert s[j] == r[j - 1] && r[j - 1] in r;
      if i > 0 { assert s[i] == r[i - 1]; }
    }
  }

  /** Where an id is listed first. */
  function FirstPlace(ids: seq<Id>, id: Id): nat {
    if ids == [] || ids[0] == id then 0 else 1 + FirstPlace(ids[1..], id)
  }

  /** What r lists is listed first in this order in ids. */
  ghost predicate Follows(r: seq<Id>, ids: seq<Id>) {
    forall i, j :: 0 <= i < j < |r| ==> FirstPlace(ids, r[i]) < FirstPlace(ids, r[j])
  }

  /** `eraseFailed` reports the messages in the order in which they are listed first. */
  lemma {:induction false} ErasedInOrder(cfg: Config, s: State, ids: seq<Id>)
    ensures Follows(Erased(cfg, s, ids), ids)
    decreases |ids|
  {
    hide Do, NoDup, Follows;
    if ids == [] {
      NothingFollows(ids);
    } else {
      var t := if IsFailed(s, ids[0]) then Do(cfg, s, Erase(ids[0])) else s;
      var q := Erased(cfg, t, ids[1..]);
      ErasePointwise(cfg, t, ids[1..]);
      ErasedInOrder(cfg, t, ids[1..]);
      NotErasedAgain(cfg, s, ids[0]);
      FollowsTail(q, ids);
      FollowsCons(q, ids);
    }
  }

  lemma NothingFollows(ids: seq<Id>)
    ensures Follows([], ids)
  {
  }

  lemma FollowsTail(q: seq<Id>, ids: seq<Id>)
    requires ids != [] && ids[0] !in q && Follows(q, ids[1..])
    ensures Follows(q, ids)
  {
    hide FirstPlace;
    forall i, j | 0 <= i < j < |q| ensures FirstPlace(ids, q[i]) < FirstPlace(ids, q[j]) {
      PlaceNext(ids, q[i]);
      PlaceNext(ids, q[j]);
    }
  }

  lemma FollowsCons(q: seq<Id>, ids: seq<Id>)
    requires ids != [] && ids[0] !in q && Follows(q, ids)
    ensures Follows([ids[0]] + q, ids)
  {
    hide FirstPlace;
    var r := [ids[0]] + q;
    assert r[1..] == q;
    forall i, j | 0 <= i < j < |r| ensures FirstPlace(ids, r[i]) < FirstPlace(ids, r[j]) {
      if i == 0 {
        assert r[1..][j - 1] in q;
        PlaceNext(ids, r[j]);
        PlaceFirst(ids);
      } else {
        assert r[1..][i - 1] == r[i] && r[1..][j - 1] == r[j];
      }
    }
  }

  lemma PlaceNext(ids: seq<Id>, id: Id)
    requires ids != [] && id != ids[0]
    ensures FirstPlace(ids, id) == 1 + FirstPlace(ids[1..], id)
  {
  }

  lemma PlaceFirst(ids: seq<Id>)
    requires ids != []
    ensures FirstPlace(ids, ids[0]) == 0
  {
  }

  /** What is not failed is not failed after erasing what is listed, and what has been erased is gone. */
  lemma NotErasedAgain(cfg: Config, s: State, id: Id)
    ensures IsFailed(s, id) ==> !IsFailed(Do(cfg, s, Erase(id)), id)
  {
  }
}
