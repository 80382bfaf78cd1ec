/** No consumer and no delay thread sleeps through a message it should serve. */
module QueueWakeups {
  import opened Sequences
  import opened Keys
  import opened QueueModel
  import opened QueueInvariant
  import opened QueueScans
  import opened QueueSystem

  /** While a consumer sleeps on `m_pop_cv`, every queued message has a woken consumer on its way to it. */
  ghost predicate Balanced(sleepers: set<Tid>, woken: set<Tid>, queued: int) {
    sleepers !! woken && (sleepers != {} ==> queued <= |woken|)
  }

  ghost predicate NoLostWakeup(x: Sys) {
    Balanced(x.sleepers, x.woken, x.q.countQueued)
  }

  /** While the delay thread sleeps un-notified, nothing is due before its deadline. */
  ghost predicate Punctual(delayer: DelayPhase, s: State) {
    match delayer
    case Asleep(None) => s.delay == []
    case Asleep(Some(deadline)) => forall id :: id in s.delay ==> Due(s.msgs, id) >= deadline
    case _ => true
  }

  ghost predicate NoOversleep(x: Sys) {
    Punctual(x.delayer, x.q)
  }

  /** Entries are allocated only when the pool is empty, so their number is the largest number of messages ever held. */
  ghost predicate PoolOk(x: Sys) {
    |x.q.msgs| + x.q.pool == x.peak
  }

  ghost predicate SysInv(cfg: Config, x: Sys) {
    Inv(cfg, x.q) && NoLostWakeup(x) && NoOversleep(x) && PoolOk(x)
  }

  // ----- Consumers -----

  lemma {:induction false} ScanCount(cfg: Config, s: State, order: seq<Id>, now: int)
    requires Inv(cfg, s)
    ensures AfterScan(cfg, s, order, now).countQueued == s.countQueued + Retries(cfg, s, order, now)
    decreases |order|
  {
    hide Inv;
    if order != [] {
      var t := AfterScanStep(cfg, s, order[0], now);
      ScanStepKeeps(cfg, s, order[0], now);
      ScanCount(cfg, t, order[1..], now);
    }
  }

  lemma ScanStepKeeps(cfg: Config, s: State, id: Id, now: int)
    requires Inv(cfg, s)
    ensures Inv(cfg, AfterScanStep(cfg, s, id, now))
  {
    hide Inv;
    var ms := ScanStep(cfg, s, id, now);
    if ms != [] { MicroKeeps(cfg, s, ms[0]); }
  }

  /** The messages a step queues, less the one it takes. */
  function Queues(cfg: Config, s: State, a: Action): nat {
    match a
    case MonitorScan(now) => Retries(cfg, s, Sorted(s.msgs.Keys), now)
    case _ => Notifications(cfg, s, a).ones
  }

  function Takes(cfg: Config, s: State, a: Action): nat {
    match a
    case PopMsg(_, _, _) => if s.countQueued == 0 then 0 else 1
    case PopAck(_, id, token, requeue, delay, now, _, _) =>
      if AckError(s, id, token).None? && AfterAck(cfg, s, id, token, requeue, delay, now).countQueued != 0 then 1 else 0
    case _ => 0
  }

  lemma PushChange(cfg: Config, s: State, a: Action)
    requires a.PushMsg?
    ensures After(cfg, s, a).countQueued == s.countQueued + Queues(cfg, s, a)
  {
    AfterFew(cfg, s, a);
  }

  lemma AckChange(cfg: Config, s: State, a: Action)
    requires a.Ack?
    ensures After(cfg, s, a).countQueued == s.countQueued + Queues(cfg, s, a)
  {
    AfterFew(cfg, s, a);
  }

  lemma PopChange(cfg: Config, s: State, a: Action)
    requires a.PopMsg? && Inv(cfg, s)
    ensures After(cfg, s, a).countQueued == s.countQueued - Takes(cfg, s, a)
  {
    CountersAreHonest(cfg, s);
    hide Inv;
    AfterFew(cfg, s, a);
  }

  lemma EraseCount(cfg: Config, s: State, ids: seq<Id>)
    ensures AfterErase(cfg, s, ids).countQueued == s.countQueued
  {
    ErasePointwise(cfg, s, ids);
    hide AfterErase, Erased, IsFailed;
  }

  lemma LoopChange(cfg: Config, s: State, a: Action)
    requires (a.EraseFailed? || a.MonitorScan? || a.DelayRelease?) && Inv(cfg, s)
    ensures After(cfg, s, a).countQueued == s.countQueued + Queues(cfg, s, a)
  {
    hide Inv, After, AfterScan, AfterErase, AfterReleaseDue, Erased, ReleaseDue, Retries, Sorted, IsFailed;
    match a {
      case EraseFailed(ids) => EraseAfter(cfg, s, ids); EraseCount(cfg, s, ids);
      case MonitorScan(now) => ScanAfter(cfg, s, now); ScanCount(cfg, s, Sorted(s.msgs.Keys), now);
      case DelayRelease(now) => ReleaseAfter(cfg, s, now); ReleaseCount(cfg, s, now);
    }
  }

  lemma QueuedChange(cfg: Config, s: State, a: Action)
    requires Inv(cfg, s)
    ensures After(cfg, s, a).countQueued == s.countQueued + Queues(cfg, s, a) - Takes(cfg, s, a)
    ensures After(cfg, s, a).countQueued >= 0 && s.countQueued >= 0
  {
    StepKeepsInv(cfg, s, a);
    CountersAreHonest(cfg, s);
    CountersAreHonest(cfg, After(cfg, s, a));
    hide Inv, Do;
    match a {
      case PushMsg(_, _, _, _) => PushChange(cfg, s, a);
      case PopMsg(_, _, _) => PopChange(cfg, s, a);
      case Ack(_, _, _, _, _) => AckChange(cfg, s, a);
      case PopAck(_, _, _, _, _, _, _, _) => PopAckChange(cfg, s, a);
      case EraseFailed(_) => LoopChange(cfg, s, a);
      case MonitorScan(_) => LoopChange(cfg, s, a);
      case DelayRelease(_) => LoopChange(cfg, s, a);
      case SpuriousWake(_) => AfterFew(cfg, s, a);
      case DelayCheck(_) => AfterFew(cfg, s, a);
      case DelayWake => AfterFew(cfg, s, a);
    }
  }

  lemma PopAckParts(cfg: Config, s: State, a: Action)
    requires a.PopAck? && AckError(s, a.id, a.token).None?
    ensures var t := AfterAck(cfg, s, a.id, a.token, a.requeue, a.delay, a.now);
      var ack, pop := AckSteps(s, a.id, a.token, a.requeue, a.delay, a.now), PopSteps(t, a.newToken, a.later);
      && |ack| == 1 && Can(cfg, s, ack[0]) && t == Do(cfg, s, ack[0])
      && CanAll(cfg, t, pop) && After(cfg, s, a) == DoAll(cfg, t, pop)
      && Steps(cfg, s, a) == ack + pop
  {
    StepsRun(cfg, s, a);
    var ack := AckSteps(s, a.id, a.token, a.requeue, a.delay, a.now);
    var t := Do(cfg, s, ack[0]);
    var pop := PopSteps(t, a.newToken, a.later);
    assert (ack + pop)[1..] == pop && (ack + pop)[0] == ack[0];
  }

  lemma PopAckChange(cfg: Config, s: State, a: Action)
    requires a.PopAck? && Inv(cfg, s)
    ensures After(cfg, s, a).countQueued == s.countQueued + Queues(cfg, s, a) - Takes(cfg, s, a)
  {
    hide Inv, Do, CanAll, DoAll;
    if AckError(s, a.id, a.token).None? {
      PopAckParts(cfg, s, a);
      MicroKeeps(cfg, s, AckSteps(s, a.id, a.token, a.requeue, a.delay, a.now)[0]);
      AckCount(cfg, s, a.id, a.token, a.requeue, a.delay, a.now);
      hide After, Steps, AfterAck, AckError;
      PopCount(cfg, AfterAck(cfg, s, a.id, a.token, a.requeue, a.delay, a.now), a.newToken, a.later);
    } else {
      AfterFew(cfg, s, a);
    }
  }

  lemma AckCount(cfg: Config, s: State, id: Id, token: string, requeue: bool, delay: nat, now: int)
    ensures AfterAck(cfg, s, id, token, requeue, delay, now).countQueued ==
      s.countQueued + if AckError(s, id, token).None? && requeue && delay == 0 then 1 else 0
  {
    hide UpperBound, Insert, SetQueue, At;
  }

  lemma PopCount(cfg: Config, s: State, token: string, now: int)
    requires Inv(cfg, s)
    ensures CanAll(cfg, s, PopSteps(s, token, now))
    ensures DoAll(cfg, s, PopSteps(s, token, now)).countQueued == s.countQueued - if s.countQueued == 0 then 0 else 1
  {
    CountersAreHonest(cfg, s);
    hide Inv;
  }

  lemma SetSizes(a: set<Tid>, b: set<Tid>)
    ensures a !! b ==> |a + b| == |a| + |b|
    ensures b <= a ==> |a - b| == |a| - |b|
    ensures |a + b| >= |a|
  {
    if b <= a { assert a == (a - b) + b; }
    assert a + b == a + (b - a);
  }

  lemma WokenAll(n: Notify, sleepers: set<Tid>, wake: set<Tid>)
    requires wake <= sleepers && |wake| == WokenBy(n, sleepers)
    ensures n.all || n.ones >= |sleepers| ==> wake == sleepers
    ensures wake == sleepers || |wake| == n.ones
  {
    if |wake| == |sleepers| {
      SetSizes(sleepers, wake);
      assert |sleepers - wake| == 0;
    }
  }

  /** Unless it wakes every sleeper, a step wakes as many consumers as it queues messages. */
  lemma WakesEnough(cfg: Config, x: Sys, a: Action, wake: set<Tid>)
    requires wake <= x.sleepers && |wake| == WokenBy(Notifications(cfg, x.q, a), x.sleepers)
    ensures wake == x.sleepers || |wake| == Queues(cfg, x.q, a)
  {
    WokenAll(Notifications(cfg, x.q, a), x.sleepers, wake);
  }

  /** A consumer goes to sleep only when no message is queued. */
  lemma SleepsOnEmpty(cfg: Config, s: State, a: Action)
    requires Inv(cfg, s) && FallsAsleep(cfg, s, a) != {}
    ensures After(cfg, s, a).countQueued == 0
  {
    if a.PopMsg? {
      PopChange(cfg, s, a);
    } else {
      PopAckParts(cfg, s, a);
    }
  }

  /** One consumer takes the lock: it takes a message, or finds none and goes to sleep. */
  lemma BalancePop(sleepers: set<Tid>, woken: set<Tid>, queued: int, tid: Tid, asleep: set<Tid>, queued': int)
    requires Balanced(sleepers, woken, queued) && tid !in sleepers
    requires if asleep == {} then queued' == queued - 1 else asleep == {tid} && queued' == 0
    ensures Balanced(sleepers + asleep, woken - {tid}, queued')
  {
    SetSizes(woken, {tid});
    if tid !in woken { assert woken - {tid} == woken; }
    if asleep == {} { assert sleepers + asleep == sleepers; }
  }

  /** n messages are queued and `wake` is notified, or some threads just wake up. */
  lemma BalanceWake(sleepers: set<Tid>, woken: set<Tid>, queued: int, wake: set<Tid>, queued': int)
    requires Balanced(sleepers, woken, queued)
    requires wake <= sleepers && (wake == sleepers || queued' <= queued + |wake|)
    ensures Balanced(sleepers - wake, woken + wake, queued')
  {
    SetSizes(woken, wake);
  }

  lemma BalanceSleep(sleepers: set<Tid>, woken: set<Tid>, asleep: set<Tid>)
    requires Balanced(sleepers, woken, 0) && asleep !! woken
    ensures Balanced(sleepers + asleep, woken, 0)
  {
  }

  lemma SetShape(sleepers: set<Tid>, woken: set<Tid>, wake: set<Tid>, spurious: set<Tid>, asleep: set<Tid>)
    ensures sleepers - wake - {} + asleep == sleepers - wake + asleep
    ensures sleepers - {} - spurious + {} == sleepers - spurious
    ensures asleep == {} ==> sleepers - wake + asleep == sleepers - wake
    ensures woken - {} + wake + {} == woken + wake
    ensures woken - {} + {} + spurious == woken + spurious
  {
  }

  lemma PopParts(cfg: Config, x: Sys, a: Action, wake: set<Tid>)
    requires a.PopMsg? && Enabled(cfg, x, a, wake)
    ensures var y, asleep := Next(cfg, x, a, wake), FallsAsleep(cfg, x.q, a);
      && asleep == (if x.q.countQueued == 0 then {a.tid} else {})
      && a.tid !in x.sleepers
      && y.q == After(cfg, x.q, a) && y.sleepers == x.sleepers + asleep && y.woken == x.woken - {a.tid}
  {
    hide After, Steps, NextPhase, Events, Do, AfterAck, AckError;
    assert wake == {};
    assert x.sleepers - {} - {} == x.sleepers;
    assert x.woken - {a.tid} + {} + {} == x.woken - {a.tid};
  }

  lemma PopKeepsWakeups(cfg: Config, x: Sys, a: Action, wake: set<Tid>)
    requires a.PopMsg? && Inv(cfg, x.q) && NoLostWakeup(x) && Enabled(cfg, x, a, wake)
    ensures NoLostWakeup(Next(cfg, x, a, wake))
  {
    PopChange(cfg, x.q, a);
    PopParts(cfg, x, a, wake);
    var asleep := FallsAsleep(cfg, x.q, a);
    if asleep != {} { SleepsOnEmpty(cfg, x.q, a); }
    hide Inv, Enabled, Next, After, FallsAsleep, Balanced;
    BalancePop(x.sleepers, x.woken, x.q.countQueued, a.tid, asleep, After(cfg, x.q, a).countQueued);
  }

  lemma SpuriousKeepsWakeups(cfg: Config, x: Sys, a: Action, wake: set<Tid>)
    requires a.SpuriousWake? && NoLostWakeup(x) && Enabled(cfg, x, a, wake)
    ensures NoLostWakeup(Next(cfg, x, a, wake))
  {
    AfterFew(cfg, x.q, a);
    BalanceWake(x.sleepers, x.woken, x.q.countQueued, {a.tid}, x.q.countQueued);
    assert wake == {};
    hide After, Steps, NextPhase, Events, Do, Balanced;
    SetShape(x.sleepers, x.woken, {}, {a.tid}, {});
    var y := Next(cfg, x, a, wake);
    assert y.sleepers == x.sleepers - {a.tid};
    assert y.woken == x.woken + {a.tid};
  }

  lemma NotifyKeepsWakeups(cfg: Config, x: Sys, a: Action, wake: set<Tid>)
    requires !a.PopMsg? && !a.SpuriousWake? && Inv(cfg, x.q) && NoLostWakeup(x) && Enabled(cfg, x, a, wake)
    ensures NoLostWakeup(Next(cfg, x, a, wake))
  {
    QueuedChange(cfg, x.q, a);
    WakesEnough(cfg, x, a, wake);
    var asleep := FallsAsleep(cfg, x.q, a);
    if asleep != {} { SleepsOnEmpty(cfg, x.q, a); }
    assert asleep == {} || (a.PopAck? && asleep == {a.tid});
    hide Inv, After, Steps, NextPhase, Notifications, Queues, AfterAck, AckError, Events, Do, FallsAsleep, Takes;
    BalanceWake(x.sleepers, x.woken, x.q.countQueued, wake, After(cfg, x.q, a).countQueued);
    if asleep != {} { BalanceSleep(x.sleepers - wake, x.woken + wake, asleep); }
    hide Balanced;
    SetShape(x.sleepers, x.woken, wake, {}, asleep);
  }

  /** No step loses a wake-up, whoever barges in and whoever wakes spuriously. */
  lemma StepKeepsWakeups(cfg: Config, x: Sys, a: Action, wake: set<Tid>)
    requires Inv(cfg, x.q) && NoLostWakeup(x) && Enabled(cfg, x, a, wake)
    ensures NoLostWakeup(Next(cfg, x, a, wake))
  {
    hide *;
    if a.PopMsg? {
      PopKeepsWakeups(cfg, x, a, wake);
    } else if a.SpuriousWake? {
      SpuriousKeepsWakeups(cfg, x, a, wake);
    } else {
      NotifyKeepsWakeups(cfg, x, a, wake);
    }
  }

  // ----- The delay thread -----

  ghost predicate DelayKept(s: State, t: State) {
    t.delay == s.delay && forall x :: x in s.delay ==> Due(t.msgs, x) == Due(s.msgs, x)
  }

  /** id has been added, and unless it is first now, what was first is due no later. */
  ghost predicate DelayGrew(s: State, t: State, id: Id) {
    && t.delay != []
    && (t.delay[0] != id ==> s.delay != [] && Due(s.msgs, s.delay[0]) <= Due(t.msgs, id))
    && forall x :: x in t.delay ==> x == id || (x in s.delay && Due(t.msgs, x) == Due(s.msgs, x))
  }

  lemma InsertFirst(s: State, id: Id, e: Entry, due: int)
    requires SortedByDue(s.msgs, s.delay) && id !in s.delay
    ensures DelayGrew(s, Postpone(s, id, e, due), id)
  {
    var k := UpperBound(s.msgs, s.delay, due);
    UpperBoundSplits(s.msgs, s.delay, due);
    InsertMembers(s.delay, k, id);
    hide SortedByDue, UpperBound, Insert;
  }

  ghost predicate DelayChanged(s: State, t: State, added: Option<Id>) {
    match added
    case None => DelayKept(s, t)
    case Some(id) => DelayGrew(s, t, id)
  }

  lemma LoopDelay(cfg: Config, s: State, a: Action)
    requires Inv(cfg, s) && (a.EraseFailed? || a.MonitorScan?)
    ensures DelayKept(s, After(cfg, s, a))
  {
    hide *;
    match a {
      case EraseFailed(ids) => EraseAfter(cfg, s, ids); EraseDelay(cfg, s, ids);
      case MonitorScan(now) => ScanAfter(cfg, s, now); ScanDelay(cfg, s, now);
    }
  }

  lemma EraseDelay(cfg: Config, s: State, ids: seq<Id>)
    requires Inv(cfg, s)
    ensures DelayKept(s, AfterErase(cfg, s, ids))
  {
    DelayFacts(cfg, s);
    ErasePointwise(cfg, s, ids);
    hide Inv, NoDup, SortedByDue, AfterErase;
  }

  lemma ScanDelay(cfg: Config, s: State, now: int)
    requires Inv(cfg, s)
    ensures DelayKept(s, AfterScan(cfg, s, Sorted(s.msgs.Keys), now))
  {
    DelayFacts(cfg, s);
    hide Inv, NoDup, SortedByDue, AfterScan, Sorted;
    SortedNoDup(s.msgs.Keys);
    ScanEffect(cfg, s, Sorted(s.msgs.Keys), now);
  }

  /** The delay set after a step that is not a release pass. */
  lemma DelayChange(cfg: Config, s: State, a: Action)
    requires Inv(cfg, s) && !a.DelayRelease?
    ensures DelayChanged(s, After(cfg, s, a), Postponed(cfg, s, a))
  {
    match a {
      case PushMsg(_, _, _, _) => PushDelay(cfg, s, a);
      case Ack(id, token, requeue, delay, now) =>
        AckDelay(cfg, s, id, token, requeue, delay, now);
        hide Inv, Do, DelayChanged;
        AfterFew(cfg, s, a);
      case PopAck(_, _, _, _, _, _, _, _) => PopAckDelay(cfg, s, a);
      case PopMsg(_, token, now) =>
        PopDelay(cfg, s, token, now);
        hide Inv, Do, DelayKept;
        StepsRun(cfg, s, a);
      case EraseFailed(_) => LoopDelay(cfg, s, a);
      case MonitorScan(_) => LoopDelay(cfg, s, a);
      case SpuriousWake(_) => AfterFew(cfg, s, a);
      case DelayCheck(_) => AfterFew(cfg, s, a);
      case DelayWake => AfterFew(cfg, s, a);
    }
  }

  lemma PushDelay(cfg: Config, s: State, a: Action)
    requires Inv(cfg, s) && a.PushMsg?
    ensures DelayChanged(s, After(cfg, s, a), Postponed(cfg, s, a))
  {
    hide Inv, After, Postpone, Reuse, DelayGrew, DelayKept;
    PushPostpones(cfg, s, a);
    if Postponed(cfg, s, a).Some? {
      PostponeGrows(cfg, s, a.id, NewEntry(a.priority, a.now), a.now + Msec(a.delay));
    } else {
      StillDelayed(cfg, s, After(cfg, s, a));
    }
  }

  lemma PostponeGrows(cfg: Config, s: State, id: Id, e: Entry, due: int)
    requires Inv(cfg, s) && (id in s.msgs ==> s.msgs[id].state != Delayed)
    ensures DelayGrew(s, Postpone(s, id, e, due), id)
    ensures DelayGrew(s, Postpone(Reuse(s), id, e, due), id)
  {
    DelayFacts(cfg, s);
    InsertFirst(s, id, e, due);
    hide Inv, NoDup, SortedByDue;
  }

  lemma PushPostpones(cfg: Config, s: State, a: Action)
    requires a.PushMsg?
    ensures var t := After(cfg, s, a);
      if Postponed(cfg, s, a).Some?
      then t == Postpone(Reuse(s), a.id, NewEntry(a.priority, a.now), a.now + Msec(a.delay)) && a.id !in s.msgs
      else t.delay == s.delay && forall x :: x in s.msgs && s.msgs[x].state == Delayed ==> x in t.msgs && t.msgs[x] == s.msgs[x]
  {
    AfterFew(cfg, s, a);
    hide After, Postpone, SetQueue, At;
  }

  lemma StillDelayed(cfg: Config, s: State, t: State)
    requires Inv(cfg, s) && t.delay == s.delay
    requires forall x :: x in s.msgs && s.msgs[x].state == Delayed ==> x in t.msgs && t.msgs[x] == s.msgs[x]
    ensures DelayKept(s, t)
  {
    DelayFacts(cfg, s);
    hide Inv, NoDup, SortedByDue;
  }

  lemma PopAckDelay(cfg: Config, s: State, a: Action)
    requires Inv(cfg, s) && a.PopAck?
    ensures DelayChanged(s, After(cfg, s, a), Postponed(cfg, s, a))
  {
    AckDelay(cfg, s, a.id, a.token, a.requeue, a.delay, a.now);
    if AckError(s, a.id, a.token).None? {
      PopAckParts(cfg, s, a);
      var t := AfterAck(cfg, s, a.id, a.token, a.requeue, a.delay, a.now);
      MicroKeeps(cfg, s, AckSteps(s, a.id, a.token, a.requeue, a.delay, a.now)[0]);
      PopDelay(cfg, t, a.newToken, a.later);
      DelayFacts(cfg, t);
      hide Inv, Do, AfterAck;
    } else {
      AfterFew(cfg, s, a);
    }
  }

  lemma PopDelay(cfg: Config, s: State, token: string, now: int)
    requires Inv(cfg, s)
    ensures CanAll(cfg, s, PopSteps(s, token, now))
    ensures DelayKept(s, DoAll(cfg, s, PopSteps(s, token, now)))
    ensures forall x :: x in s.msgs ==> x in DoAll(cfg, s, PopSteps(s, token, now)).msgs
  {
    DelayFacts(cfg, s);
    if PopSteps(s, token, now) != [] {
      assert InQueue(s, FirstNonEmpty(s.queues), Head(s));
    }
  }

  lemma AckPostpones(cfg: Config, s: State, id: Id, token: string, requeue: bool, delay: nat, now: int)
    ensures var t := AfterAck(cfg, s, id, token, requeue, delay, now);
      if AckError(s, id, token).None? && requeue && delay != 0
      then t == Postpone(s, id, s.msgs[id].(boosted := false, token := ""), now + Msec(delay))
      else t.delay == s.delay && forall x :: x in s.msgs && s.msgs[x].state == Delayed ==> x in t.msgs && t.msgs[x] == s.msgs[x]
  {
    hide Postpone;
  }

  lemma AckDelay(cfg: Config, s: State, id: Id, token: string, requeue: bool, delay: nat, now: int)
    requires Inv(cfg, s)
    ensures DelayChanged(s, AfterAck(cfg, s, id, token, requeue, delay, now),
                         if AckError(s, id, token).None? && requeue && delay != 0 then Some(id) else None)
  {
    hide Inv, AfterAck, Postpone, DelayGrew, DelayKept;
    AckPostpones(cfg, s, id, token, requeue, delay, now);
    if AckError(s, id, token).None? && requeue && delay != 0 {
      PostponeGrows(cfg, s, id, s.msgs[id].(boosted := false, token := ""), now + Msec(delay));
    } else {
      StillDelayed(cfg, s, AfterAck(cfg, s, id, token, requeue, delay, now));
    }
  }

  lemma CheckIsPunctual(s: State)
    requires DelayOk(s)
    ensures s.delay != [] ==> Punctual(Asleep(Some(Due(s.msgs, s.delay[0]))), s)
  {
    forall id | id in s.delay ensures Due(s.msgs, s.delay[0]) <= Due(s.msgs, id) {
      var i :| 0 <= i < |s.delay| && s.delay[i] == id;
    }
  }

  /** It is enough to notify the thread when the new message is the first of the set. */
  lemma FirstIsEnough(delayer: DelayPhase, s: State, t: State, added: Option<Id>)
    requires Punctual(delayer, s) && DelayChanged(s, t, added)
    requires added.Some? ==> t.delay != [] && t.delay[0] != added.value
    ensures Punctual(delayer, t)
  {
    if added.Some? { assert s.delay[0] in s.delay; }
  }

  lemma PhaseParts(cfg: Config, x: Sys, a: Action)
    ensures var p := NextPhase(cfg, x, a);
      if a.DelayCheck? then
        After(cfg, x.q, a) == x.q &&
        (p.Asleep? ==> if x.q.delay == [] then p.deadline.None? else p.deadline == Some(Due(x.q.msgs, x.q.delay[0])))
      else if a.DelayRelease? || a.DelayWake? then !p.Asleep?
      else p.Asleep? ==> p == x.delayer && !SignalsDelay(cfg, x.q, a)
  {
    if a.DelayCheck? { AfterFew(cfg, x.q, a); }
    hide After, SignalsDelay;
  }

  lemma StepKeepsDelayer(cfg: Config, x: Sys, a: Action, wake: set<Tid>)
    requires Inv(cfg, x.q) && NoOversleep(x) && Enabled(cfg, x, a, wake)
    ensures NoOversleep(Next(cfg, x, a, wake))
  {
    PhaseParts(cfg, x, a);
    if a.DelayCheck? {
      CheckIsPunctual(x.q);
    } else if NextPhase(cfg, x, a).Asleep? {
      DelayChange(cfg, x.q, a);
      hide Inv, After, Postponed, Enabled, NextPhase, Events, FallsAsleep, Punctual;
      FirstIsEnough(x.delayer, x.q, After(cfg, x.q, a), Postponed(cfg, x.q, a));
    }
  }

  /**
   * A sleeping delay thread never lets a due time pass: if some delayed message is
   * due by the clock, then the thread is up, or its own deadline has passed too.
   */
  lemma DueMeansAwake(cfg: Config, x: Sys, id: Id)
    requires SysInv(cfg, x)
    requires id in x.q.msgs && x.q.msgs[id].state == Delayed && x.q.msgs[id].ts <= x.clock
    ensures x.delayer.Asleep? ==> x.delayer.deadline.Some? && x.delayer.deadline.value <= x.clock
  {
    DelayFacts(cfg, x.q);
  }

  // ----- The entry pool -----

  lemma PushPool(cfg: Config, s: State, a: Action)
    requires a.PushMsg?
    ensures var t := After(cfg, s, a);
      (t.msgs == s.msgs && t.pool == s.pool) || (|t.msgs| == |s.msgs| + 1 && t.pool == Reuse(s).pool)
  {
    AfterFew(cfg, s, a);
    if Steps(cfg, s, a) != [] {
      var t := After(cfg, s, a);
      assert t.msgs.Keys == s.msgs.Keys + {a.id};
      assert |t.msgs| == |t.msgs.Keys|;
    }
  }

  lemma StepKeepsPool(cfg: Config, x: Sys, a: Action, wake: set<Tid>)
    requires PoolOk(x) && Enabled(cfg, x, a, wake)
    ensures PoolOk(Next(cfg, x, a, wake))
  {
    hide Steps, NextPhase, Notifications, FallsAsleep, Do;
    StepsRun(cfg, x.q, a);
    if a.PushMsg? {
      PushPool(cfg, x.q, a);
    } else {
      NoPushSteps(cfg, x.q, a);
      PoolSum(cfg, x.q, Steps(cfg, x.q, a));
    }
  }

  lemma NoPushSteps(cfg: Config, s: State, a: Action)
    requires !a.PushMsg?
    ensures forall m :: m in Steps(cfg, s, a) ==> !m.Push?
  {
    match a {
      case MonitorScan(now) => NoPushInScan(cfg, s, Sorted(s.msgs.Keys), now);
      case EraseFailed(ids) => NoPushInErase(cfg, s, ids);
      case DelayRelease(now) => NoPushInRelease(cfg, s, now);
      case _ =>
    }
  }

  lemma {:induction false} NoPushInScan(cfg: Config, s: State, order: seq<Id>, now: int)
    ensures forall m :: m in Scan(cfg, s, order, now) ==> m.Timeout? || m.Boost?
    decreases |order|
  {
    if order != [] { NoPushInScan(cfg, AfterScanStep(cfg, s, order[0], now), order[1..], now); }
  }

  lemma {:induction false} NoPushInErase(cfg: Config, s: State, ids: seq<Id>)
    ensures forall m :: m in EraseAll(cfg, s, ids) ==> m.Erase?
    decreases |ids|
  {
    if ids != [] { NoPushInErase(cfg, if IsFailed(s, ids[0]) then Do(cfg, s, Erase(ids[0])) else s, ids[1..]); }
  }

  lemma {:induction false} NoPushInRelease(cfg: Config, s: State, now: int)
    ensures forall m :: m in ReleaseDue(cfg, s, now) ==> m.Release?
    decreases |s.delay|
  {
    if FirstIsDue(s, now) { NoPushInRelease(cfg, Do(cfg, s, Release(now)), now); }
  }

  lemma SameSize(a: map<Id, Entry>, b: map<Id, Entry>)
    requires a.Keys == b.Keys
    ensures |a| == |b|
  {
    assert |a| == |a.Keys| && |b| == |b.Keys|;
  }

  lemma MicroPool(cfg: Config, s: State, m: Micro)
    requires Can(cfg, s, m) && !m.Push?
    ensures var t := Do(cfg, s, m); |t.msgs| + t.pool == |s.msgs| + s.pool && |t.msgs| <= |s.msgs|
  {
    var t := Do(cfg, s, m);
    match m {
      case Finish(id) => assert t.msgs.Keys == s.msgs.Keys - {id}; assert |t.msgs| == |t.msgs.Keys|;
      case Erase(id) => assert t.msgs.Keys == s.msgs.Keys - {id}; assert |t.msgs| == |t.msgs.Keys|;
      case Pop(_, _) => SameSize(s.msgs, t.msgs);
      case Requeue(_, _, _) => SameSize(s.msgs, t.msgs);
      case Timeout(_, _) => SameSize(s.msgs, t.msgs);
      case Boost(_, _) => SameSize(s.msgs, t.msgs);
      case Release(_) => SameSize(s.msgs, t.msgs);
    }
  }

  lemma {:induction false} PoolSum(cfg: Config, s: State, ms: seq<Micro>)
    requires CanAll(cfg, s, ms) && forall m :: m in ms ==> !m.Push?
    ensures var t := DoAll(cfg, s, ms); |t.msgs| + t.pool == |s.msgs| + s.pool && |t.msgs| <= |s.msgs|
    decreases |ms|
  {
    hide Do, Can;
    if ms != [] {
      assert ms[0] in ms && forall m :: m in ms[1..] ==> m in ms;
      MicroPool(cfg, s, ms[0]);
      PoolSum(cfg, Do(cfg, s, ms[0]), ms[1..]);
    }
  }

  // ----- All runs -----

  lemma StartOk(cfg: Config, priorities: nat, clock: int)
    ensures SysInv(cfg, Start(priorities, clock))
  {
    InitialInv(cfg, priorities);
  }

  lemma StepKeeps(cfg: Config, x: Sys, a: Action, wake: set<Tid>)
    requires SysInv(cfg, x) && Enabled(cfg, x, a, wake)
    ensures SysInv(cfg, Next(cfg, x, a, wake))
  {
    hide Inv, After, Steps, NoLostWakeup, NoOversleep, PoolOk, Enabled;
    StepKeepsInv(cfg, x.q, a);
    StepKeepsWakeups(cfg, x, a, wake);
    StepKeepsDelayer(cfg, x, a, wake);
    StepKeepsPool(cfg, x, a, wake);
  }

  /** Every state of every run, whatever the threads, the clock and the scheduler do. */
  lemma {:induction false} RunIsSafe(cfg: Config, x: Sys, run: seq<Step>)
    requires SysInv(cfg, x) && IsRun(cfg, x, run)
    ensures SysInv(cfg, Final(cfg, x, run))
    decreases |run|
  {
    hide SysInv, Next, Enabled;
    if run != [] {
      StepKeeps(cfg, x, run[0].0, run[0].1);
      RunIsSafe(cfg, Next(cfg, x, run[0].0, run[0].1), run[1..]);
    }
  }

  /** From the empty queue: with a message queued, the consumers are never all asleep. */
  lemma NeverAllAsleep(cfg: Config, priorities: nat, clock: int, run: seq<Step>, id: Id)
    requires IsRun(cfg, Start(priorities, clock), run)
    ensures var x := Final(cfg, Start(priorities, clock), run);
      id in x.q.msgs && x.q.msgs[id].state == Queued && x.sleepers != {} ==> x.woken != {}
  {
    StartOk(cfg, priorities, clock);
    RunIsSafe(cfg, Start(priorities, clock), run);
    var x := Final(cfg, Start(priorities, clock), run);
    CountersAreHonest(cfg, x.q);
  }
}
