/**
 * The queue shared by its threads. Every critical section is one atomic step; a
 * condition-variable wait ends a step with the thread asleep, and a notified
 * thread needs a later step to take the lock again. The steps of different
 * threads interleave in any order, and sleepers may wake spuriously.
 */
module QueueSystem {
  import opened Keys
  import opened QueueModel
  import opened QueueInvariant
  import opened QueueScans

  type Tid = nat

  datatype Option<T> = None | Some(value: T)

  datatype Error =
    | InvalidPriority | DuplicateId | CapacityExceeded
    | NoSuchMessage | InvalidToken | InvalidState

  /** Where the delay thread is: about to look at the set, asleep until a deadline, or due to run a release pass. */
  datatype DelayPhase = Checking | Asleep(deadline: Option<int>) | Awake

  /** What happened to the messages, oldest first. */
  datatype Event =
    | Pushed(id: Id)
    | Popped(id: Id, token: string)
    | Requeued(id: Id)
    | Finished(id: Id)
    | TimedOut(id: Id)
    | BoostedUp(id: Id)
    | Released(id: Id, priority: nat)
    | Removed(id: Id)

  datatype Sys = Sys(
    q: State,
    sleepers: set<Tid>,   // asleep on m_pop_cv
    woken: set<Tid>,      // left m_pop_cv, lock not yet taken again
    delayer: DelayPhase,
    log: seq<Event>,
    clock: int,
    peak: nat)            // largest number of messages held so far

  datatype Action =
    | PushMsg(id: Id, priority: nat, delay: nat, now: int)
    | PopMsg(tid: Tid, token: string, now: int)
    | Ack(id: Id, token: string, requeue: bool, delay: nat, now: int)
    | PopAck(tid: Tid, id: Id, token: string, requeue: bool, delay: nat, now: int, newToken: string, later: int)
    | EraseFailed(ids: seq<Id>)
    | MonitorScan(now: int)
    | SpuriousWake(tid: Tid)
    | DelayCheck(now: int)
    | DelayWake
    | DelayRelease(now: int)

  function EventOf(s: State, m: Micro): Event
    requires m.Pop? ==> Poppable(s)
    requires m.Release? ==> s.delay != [] && s.delay[0] in s.msgs
  {
    match m
    case Push(id, _, _, _) => Pushed(id)
    case Pop(token, _) => Popped(Head(s), token)
    case Requeue(id, _, _) => Requeued(id)
    case Finish(id) => Finished(id)
    case Timeout(id, _) => TimedOut(id)
    case Boost(id, _) => BoostedUp(id)
    case Release(_) => Released(s.delay[0], s.msgs[s.delay[0]].priority)
    case Erase(id) => Removed(id)
  }

  function Events(cfg: Config, s: State, ms: seq<Micro>): (es: seq<Event>)
    requires CanAll(cfg, s, ms)
    ensures |es| == |ms|
    decreases |ms|
  {
    if ms == [] then [] else [EventOf(s, ms[0])] + Events(cfg, Do(cfg, s, ms[0]), ms[1..])
  }

  // ----- What each call does under the lock -----

  function PushError(cfg: Config, s: State, id: Id, priority: nat): Option<Error> {
    if priority >= |s.queues| then Some(InvalidPriority)
    else if id in s.msgs then Some(DuplicateId)
    else if |s.msgs| == cfg.capacity then Some(CapacityExceeded)
    else None
  }

  function AckError(s: State, id: Id, token: string): Option<Error> {
    if id !in s.msgs then Some(NoSuchMessage)
    else if s.msgs[id].token != token then Some(InvalidToken)
    else if s.msgs[id].state != Running then Some(InvalidState)
    else None
  }

  function PushSteps(cfg: Config, s: State, id: Id, priority: nat, delay: nat, now: int): seq<Micro> {
    if PushError(cfg, s, id, priority).None? then [Push(id, priority, delay, now)] else []
  }

  function AckSteps(s: State, id: Id, token: string, requeue: bool, delay: nat, now: int): seq<Micro> {
    if AckError(s, id, token).Some? then []
    else if requeue then [Requeue(id, delay, now)]
    else [Finish(id)]
  }

  function PopSteps(s: State, token: string, now: int): seq<Micro> {
    if s.countQueued != 0 && Poppable(s) then [Pop(token, now)] else []
  }

  function Steps(cfg: Config, s: State, a: Action): seq<Micro> {
    match a
    case PushMsg(id, priority, delay, now) => PushSteps(cfg, s, id, priority, delay, now)
    case PopMsg(_, token, now) => PopSteps(s, token, now)
    case Ack(id, token, requeue, delay, now) => AckSteps(s, id, token, requeue, delay, now)
    case PopAck(_, id, token, requeue, delay, now, newToken, later) =>
      var ack := AckSteps(s, id, token, requeue, delay, now);
      if ack == [] then [] else ack + PopSteps(AfterAck(cfg, s, id, token, requeue, delay, now), newToken, later)
    case EraseFailed(ids) => EraseAll(cfg, s, ids)
    case MonitorScan(now) => Scan(cfg, s, Sorted(s.msgs.Keys), now)
    case DelayRelease(now) => ReleaseDue(cfg, s, now)
    case _ => []
  }

  function AfterAck(cfg: Config, s: State, id: Id, token: string, requeue: bool, delay: nat, now: int): State {
    var ack := AckSteps(s, id, token, requeue, delay, now);
    if ack == [] then s else Do(cfg, s, ack[0])
  }

  lemma StepsRun(cfg: Config, s: State, a: Action)
    ensures CanAll(cfg, s, Steps(cfg, s, a))
  {
    match a {
      case PopAck(_, id, token, requeue, delay, now, newToken, later) =>
        var ack := AckSteps(s, id, token, requeue, delay, now);
        if ack != [] {
          var t := Do(cfg, s, ack[0]);
          var pop := PopSteps(t, newToken, later);
          assert (ack + pop)[1..] == pop;
          assert CanAll(cfg, t, pop);
        }
      case EraseFailed(ids) => EraseRuns(cfg, s, ids);
      case MonitorScan(now) => ScanRuns(cfg, s, Sorted(s.msgs.Keys), now);
      case DelayRelease(now) => ReleaseRuns(cfg, s, now);
      case _ =>
    }
  }

  /** The mutex-protected state after a step. */
  function After(cfg: Config, s: State, a: Action): State {
    StepsRun(cfg, s, a);
    DoAll(cfg, s, Steps(cfg, s, a))
  }

  lemma AfterFew(cfg: Config, s: State, a: Action)
    requires |Steps(cfg, s, a)| <= 1
    ensures var ms := Steps(cfg, s, a);
      if ms == [] then After(cfg, s, a) == s else Can(cfg, s, ms[0]) && After(cfg, s, a) == Do(cfg, s, ms[0])
  {
    StepsRun(cfg, s, a);
    hide Do;
    var ms := Steps(cfg, s, a);
    hide Steps;
    if ms != [] {
      assert ms[1..] == [];
      assert DoAll(cfg, Do(cfg, s, ms[0]), []) == Do(cfg, s, ms[0]);
    }
  }

  lemma ScanAfter(cfg: Config, s: State, now: int)
    ensures After(cfg, s, MonitorScan(now)) == AfterScan(cfg, s, Sorted(s.msgs.Keys), now)
  {
    hide Do, DoAll, CanAll, Scan, AfterScan;
    StepsRun(cfg, s, MonitorScan(now));
    ScanRuns(cfg, s, Sorted(s.msgs.Keys), now);
  }

  lemma EraseAfter(cfg: Config, s: State, ids: seq<Id>)
    ensures After(cfg, s, EraseFailed(ids)) == AfterErase(cfg, s, ids)
  {
    hide Do, DoAll, CanAll, EraseAll, AfterErase;
    StepsRun(cfg, s, EraseFailed(ids));
    EraseRuns(cfg, s, ids);
  }

  lemma ReleaseAfter(cfg: Config, s: State, now: int)
    ensures After(cfg, s, DelayRelease(now)) == AfterReleaseDue(cfg, s, now)
  {
    hide Do, DoAll, CanAll, ReleaseDue, AfterReleaseDue;
    StepsRun(cfg, s, DelayRelease(now));
    ReleaseRuns(cfg, s, now);
  }

  // ----- Notifications -----

  /** How many messages one scan puts back into the queues. */
  function Retries(cfg: Config, s: State, order: seq<Id>, now: int): nat
    decreases |order|
  {
    if order == [] then 0
    else (if order[0] in s.msgs && Retried(cfg, s.msgs[order[0]], now) then 1 else 0) +
         Retries(cfg, AfterScanStep(cfg, s, order[0], now), order[1..], now)
  }

  datatype Notify = Notify(ones: nat, all: bool)

  /** The `m_pop_cv` notifications sent in a step. */
  function Notifications(cfg: Config, s: State, a: Action): Notify {
    match a
    case PushMsg(id, priority, delay, _) =>
      Notify(if PushError(cfg, s, id, priority).None? && delay == 0 then 1 else 0, false)
    case Ack(id, token, requeue, delay, _) =>
      Notify(if AckError(s, id, token).None? && requeue && delay == 0 then 1 else 0, false)
    case PopAck(_, id, token, requeue, delay, _, _, _) =>
      Notify(if AckError(s, id, token).None? && requeue && delay == 0 then 1 else 0, false)
    case MonitorScan(now) =>
      var n := Retries(cfg, s, Sorted(s.msgs.Keys), now);
      Notify(if n == 1 then 1 else 0, n > 1)
    case DelayRelease(now) => Notify(|ReleaseDue(cfg, s, now)|, false)
    case _ => Notify(0, false)
  }

  /** n calls of `notify_one` wake n sleepers, or all of them if there are fewer. */
  function WokenBy(n: Notify, sleepers: set<Tid>): nat {
    if n.all || n.ones >= |sleepers| then |sleepers| else n.ones
  }

  /** The popping thread goes to sleep: nothing was queued when it looked. */
  function FallsAsleep(cfg: Config, s: State, a: Action): set<Tid> {
    match a
    case PopMsg(tid, _, _) => if s.countQueued == 0 then {tid} else {}
    case PopAck(tid, id, token, requeue, delay, now, _, _) =>
      if AckError(s, id, token).None? && AfterAck(cfg, s, id, token, requeue, delay, now).countQueued == 0 then {tid} else {}
    case _ => {}
  }

  /** The message a step puts into the delay set, if any. */
  function Postponed(cfg: Config, s: State, a: Action): Option<Id> {
    match a
    case PushMsg(id, priority, delay, _) =>
      if PushError(cfg, s, id, priority).None? && delay != 0 then Some(id) else None
    case Ack(id, token, requeue, delay, _) =>
      if AckError(s, id, token).None? && requeue && delay != 0 then Some(id) else None
    case PopAck(_, id, token, requeue, delay, _, _, _) =>
      if AckError(s, id, token).None? && requeue && delay != 0 then Some(id) else None
    case _ => None
  }

  /** `m_delay_cv` is notified when the inserted message is now first in the set. */
  predicate SignalsDelay(cfg: Config, s: State, a: Action) {
    var id := Postponed(cfg, s, a);
    var d := After(cfg, s, a).delay;
    id.Some? && d != [] && d[0] == id.value
  }

  /** How long the delay thread waits when it looks at the set at time `now`. */
  function CheckPhase(s: State, now: int): DelayPhase {
    if s.delay == [] then Asleep(None)
    else if Due(s.msgs, s.delay[0]) > now then Asleep(Some(Due(s.msgs, s.delay[0])))
    else Awake
  }

  function NextPhase(cfg: Config, x: Sys, a: Action): DelayPhase {
    match a
    case DelayCheck(now) => CheckPhase(x.q, now)
    case DelayWake => Awake
    case DelayRelease(_) => Checking
    case _ => if x.delayer.Asleep? && SignalsDelay(cfg, x.q, a) then Awake else x.delayer
  }

  // ----- Steps and runs -----

  function Time(a: Action, clock: int): int {
    match a
    case PushMsg(_, _, _, now) => now
    case PopMsg(_, _, now) => now
    case Ack(_, _, _, _, now) => now
    case PopAck(_, _, _, _, _, _, _, later) => later
    case MonitorScan(now) => now
    case DelayCheck(now) => now
    case DelayRelease(now) => now
    case _ => clock
  }

  /** When an action may happen; `wake` is the scheduler's choice of the threads that the notifications reach. */
  predicate Enabled(cfg: Config, x: Sys, a: Action, wake: set<Tid>) {
    && x.clock <= Time(a, x.clock)
    && wake <= x.sleepers && |wake| == WokenBy(Notifications(cfg, x.q, a), x.sleepers)
    && match a
       case PopMsg(tid, _, _) => tid !in x.sleepers
       case PopAck(tid, _, _, _, _, now, _, later) => tid !in x.sleepers && tid !in x.woken && x.clock <= now <= later
       case SpuriousWake(tid) => tid in x.sleepers
       case DelayCheck(_) => x.delayer.Checking?
       case DelayWake => x.delayer.Asleep?
       case DelayRelease(_) => x.delayer.Awake?
       case _ => true
  }

  function Max(a: nat, b: nat): nat { if a < b then b else a }

  /** The thread that left `m_pop_cv` and now holds the lock. */
  function Resumed(a: Action): set<Tid> {
    match a
    case PopMsg(tid, _, _) => {tid}
    case _ => {}
  }

  function Spurious(a: Action): set<Tid> {
    match a
    case SpuriousWake(tid) => {tid}
    case _ => {}
  }

  function Next(cfg: Config, x: Sys, a: Action, wake: set<Tid>): Sys {
    StepsRun(cfg, x.q, a);
    var q := After(cfg, x.q, a);
    Sys(q,
        x.sleepers - wake - Spurious(a) + FallsAsleep(cfg, x.q, a),
        x.woken - Resumed(a) + wake + Spurious(a),
        NextPhase(cfg, x, a),
        x.log + Events(cfg, x.q, Steps(cfg, x.q, a)),
        Time(a, x.clock),
        Max(x.peak, |q.msgs|))
  }

  type Step = (Action, set<Tid>)

  ghost predicate IsRun(cfg: Config, x: Sys, run: seq<Step>)
    decreases |run|
  {
    run == [] || (Enabled(cfg, x, run[0].0, run[0].1) && IsRun(cfg, Next(cfg, x, run[0].0, run[0].1), run[1..]))
  }

  function Final(cfg: Config, x: Sys, run: seq<Step>): Sys
    decreases |run|
  {
    if run == [] then x else Final(cfg, Next(cfg, x, run[0].0, run[0].1), run[1..])
  }

  function Start(priorities: nat, clock: int): Sys {
    Sys(Initial(priorities), {}, {}, Checking, [], clock, 0)
  }

  lemma StepKeepsInv(cfg: Config, s: State, a: Action)
    requires Inv(cfg, s)
    ensures Inv(cfg, After(cfg, s, a))
  {
    StepsRun(cfg, s, a);
    AllKeep(cfg, s, Steps(cfg, s, a));
  }

  /** The structural invariant holds in every state of every run. */
  lemma {:induction false} RunKeepsInv(cfg: Config, x: Sys, run: seq<Step>)
    requires IsRun(cfg, x, run) && Inv(cfg, x.q)
    ensures Inv(cfg, Final(cfg, x, run).q)
    decreases |run|
  {
    hide Inv, After, Steps, Enabled, NextPhase, Notifications, FallsAsleep;
    if run != [] {
      StepKeepsInv(cfg, x.q, run[0].0);
      RunKeepsInv(cfg, Next(cfg, x, run[0].0, run[0].1), run[1..]);
    }
  }
}
