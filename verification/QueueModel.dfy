/**
 * The state guarded by the queue's mutex, as a value, and the elementary
 * transitions that the critical sections are made of.
 */
module QueueModel {
  import opened Sequences

  type Id = string

  datatype MsgState = Queued | Running | Delayed | Failed

  /** One message entry; `failCount` is an 8-bit counter. */
  datatype Entry = Entry(priority: nat, boosted: bool, failCount: nat, state: MsgState, ts: int, token: string)

  /** Constructor arguments; the two timeouts are in milliseconds, 0 switches the ack timeout off. */
  datatype Config = Config(capacity: nat, failTimeout: nat, maxRetries: nat, boostTimeout: nat)

  datatype State = State(
    msgs: map<Id, Entry>,
    queues: seq<seq<Id>>,
    delay: seq<Id>,
    countQueued: int,
    countFailed: int,
    pool: nat)

  /** The clock counts nanoseconds. */
  const TICKS_PER_MSEC: int := 1000000

  function Msec(n: nat): int { n * TICKS_PER_MSEC }

  // ----- Elementary transitions -----

  datatype Micro =
    | Push(id: Id, priority: nat, delay: nat, now: int)
    | Pop(token: string, now: int)
    | Requeue(id: Id, delay: nat, now: int)
    | Finish(id: Id)
    | Timeout(id: Id, now: int)
    | Boost(id: Id, now: int)
    | Release(now: int)
    | Erase(id: Id)

  /** Index of the first non-empty queue; the number of queues if there is none. */
  function FirstNonEmpty(qs: seq<seq<Id>>): (p: nat)
    ensures p <= |qs|
    ensures p < |qs| ==> qs[p] != []
    ensures forall i :: 0 <= i < p ==> qs[i] == []
  {
    if qs == [] || qs[0] != [] then 0 else 1 + FirstNonEmpty(qs[1..])
  }

  predicate Poppable(s: State) {
    var p := FirstNonEmpty(s.queues);
    p < |s.queues| && s.queues[p][|s.queues[p]| - 1] in s.msgs
  }

  function Head(s: State): Id
    requires Poppable(s)
  {
    var q := s.queues[FirstNonEmpty(s.queues)];
    q[|q| - 1]
  }

  predicate Expired(cfg: Config, e: Entry, now: int) {
    e.state == Running && cfg.failTimeout != 0 && e.ts < now - Msec(cfg.failTimeout)
  }

  predicate Starving(cfg: Config, e: Entry, now: int) {
    e.state == Queued && e.priority > 0 && !e.boosted && e.ts < now - Msec(cfg.boostTimeout)
  }

  /** When a transition may be taken: the checks its critical section makes. */
  predicate Can(cfg: Config, s: State, m: Micro) {
    match m
    case Push(id, priority, _, _) => priority < |s.queues| && id !in s.msgs && |s.msgs| != cfg.capacity
    case Pop(_, _) => s.countQueued != 0 && Poppable(s)
    case Requeue(id, _, _) => id in s.msgs && s.msgs[id].state == Running
    case Finish(id) => id in s.msgs && s.msgs[id].state == Running
    case Timeout(id, now) => id in s.msgs && Expired(cfg, s.msgs[id], now)
    case Boost(id, now) => id in s.msgs && Starving(cfg, s.msgs[id], now) && InQueue(s, s.msgs[id].priority, id)
    case Release(now) => s.delay != [] && s.delay[0] in s.msgs && s.msgs[s.delay[0]].ts <= now
    case Erase(id) => id in s.msgs && s.msgs[id].state == Failed
  }

  predicate InQueue(s: State, p: nat, id: Id) {
    p < |s.queues| && id in s.queues[p]
  }

  function SetQueue(qs: seq<seq<Id>>, p: nat, q: seq<Id>): seq<seq<Id>> {
    if p < |qs| then qs[p := q] else qs
  }

  function At(qs: seq<seq<Id>>, p: nat): seq<Id> {
    if p < |qs| then qs[p] else []
  }

  function PushFront(s: State, id: Id, e: Entry, p: nat): State {
    s.(msgs := s.msgs[id := e], queues := SetQueue(s.queues, p, [id] + At(s.queues, p)), countQueued := s.countQueued + 1)
  }

  function PushBack(s: State, id: Id, e: Entry, p: nat): State {
    s.(msgs := s.msgs[id := e], queues := SetQueue(s.queues, p, At(s.queues, p) + [id]), countQueued := s.countQueued + 1)
  }

  /** Takes a queued message out of queue p; it is left with entry e. */
  function Unqueue(s: State, id: Id, e: Entry, p: nat): State {
    s.(msgs := s.msgs[id := e], queues := SetQueue(s.queues, p, Remove(At(s.queues, p), id)), countQueued := s.countQueued - 1)
  }

  function Due(msgs: map<Id, Entry>, id: Id): int {
    if id in msgs then msgs[id].ts else 0
  }

  /** Where `multiset::insert` puts a due time: after every entry that is not later. */
  function UpperBound(msgs: map<Id, Entry>, delay: seq<Id>, due: int): (k: nat)
    ensures k <= |delay|
  {
    if delay == [] || Due(msgs, delay[0]) > due then 0 else 1 + UpperBound(msgs, delay[1..], due)
  }

  function Postpone(s: State, id: Id, e: Entry, due: int): State {
    var k := UpperBound(s.msgs, s.delay, due);
    s.(msgs := s.msgs[id := e.(state := Delayed, ts := due)], delay := Insert(s.delay, k, id))
  }

  /** Takes the first message out of the delay set; it is left with entry e. */
  function Undelay(s: State, e: Entry): State
    requires s.delay != []
  {
    s.(msgs := s.msgs[s.delay[0] := e], delay := s.delay[1..])
  }

  /** Returns an entry to the pool. */
  function Drop(s: State, id: Id): State {
    s.(msgs := s.msgs - {id}, pool := s.pool + 1)
  }

  function NewEntry(priority: nat, now: int): Entry {
    Entry(priority, false, 0, Queued, now, "")
  }

  function Reuse(s: State): State {
    s.(pool := if s.pool == 0 then 0 else s.pool - 1)
  }

  function Increment8(n: nat): nat { (n + 1) % 256 }

  function Do(cfg: Config, s: State, m: Micro): State
    requires Can(cfg, s, m)
  {
    match m
    case Push(id, priority, delay, now) =>
      var e := NewEntry(priority, now);
      if delay != 0 then Postpone(Reuse(s), id, e, now + Msec(delay)) else PushFront(Reuse(s), id, e, priority)
    case Pop(token, now) =>
      var p, id := FirstNonEmpty(s.queues), Head(s);
      var e := s.msgs[id].(state := Running, ts := now, token := token);
      s.(msgs := s.msgs[id := e], queues := s.queues[p := s.queues[p][..|s.queues[p]| - 1]], countQueued := s.countQueued - 1)
    case Requeue(id, delay, now) =>
      var e := s.msgs[id].(boosted := false, token := "");
      if delay != 0 then Postpone(s, id, e, now + Msec(delay))
      else PushFront(s, id, e.(state := Queued, ts := now), e.priority)
    case Finish(id) => Drop(s, id)
    case Timeout(id, now) =>
      var e := s.msgs[id].(failCount := Increment8(s.msgs[id].failCount));
      if e.failCount == cfg.maxRetries then
        s.(msgs := s.msgs[id := e.(state := Failed)], countFailed := s.countFailed + 1)
      else PushFront(s, id, e.(state := Queued, token := ""), e.priority)
    case Boost(id, now) =>
      var e := s.msgs[id].(boosted := true);
      PushFront(Unqueue(s, id, e, e.priority), id, e, 0)
    case Release(now) =>
      var e := s.msgs[s.delay[0]].(state := Queued, ts := now);
      PushBack(Undelay(s, e), s.delay[0], e, e.priority)
    case Erase(id) => Drop(s, id).(countFailed := s.countFailed - 1)
  }

  /** The state after a sequence of transitions, each of which may be taken. */
  ghost predicate CanAll(cfg: Config, s: State, ms: seq<Micro>)
    decreases |ms|
  {
    ms == [] || (Can(cfg, s, ms[0]) && CanAll(cfg, Do(cfg, s, ms[0]), ms[1..]))
  }

  function DoAll(cfg: Config, s: State, ms: seq<Micro>): State
    requires CanAll(cfg, s, ms)
    decreases |ms|
  {
    if ms == [] then s else DoAll(cfg, Do(cfg, s, ms[0]), ms[1..])
  }

  lemma {:induction false} DoAllConcat(cfg: Config, s: State, a: seq<Micro>, b: seq<Micro>)
    requires CanAll(cfg, s, a) && CanAll(cfg, DoAll(cfg, s, a), b)
    ensures CanAll(cfg, s, a + b) && DoAll(cfg, s, a + b) == DoAll(cfg, DoAll(cfg, s, a), b)
    decreases |a|
  {
    hide Do, Can;
    if a == [] {
      assert a + b == b;
    } else {
      assert (a + b)[1..] == a[1..] + b;
      DoAllConcat(cfg, Do(cfg, s, a[0]), a[1..], b);
    }
  }

  /** An empty queue with the given number of priorities. */
  function Initial(priorities: nat): State {
    State(map[], seq(priorities, _ => []), [], 0, 0, 0)
  }

  // ----- The structural invariant -----

  ghost predicate EntriesOk(s: State) {
    forall id :: id in s.msgs ==> s.msgs[id].priority < |s.queues| && s.msgs[id].failCount < 256
  }

  /** Every place in a queue holds a queued message that belongs there. */
  ghost predicate QueuesHoldQueued(s: State) {
    forall p, id :: InQueue(s, p, id) ==>
      id in s.msgs && s.msgs[id].state == Queued &&
      (p == s.msgs[id].priority || (p == 0 && s.msgs[id].boosted))
  }

  /** No message is in two places. */
  ghost predicate QueuesDisjoint(s: State) {
    && (forall p :: 0 <= p < |s.queues| ==> NoDup(s.queues[p]))
    && (forall p, q, id :: InQueue(s, p, id) && InQueue(s, q, id) ==> p == q)
  }

  /** Every queued message is in a queue: its own, or the top one once it has been boosted. */
  ghost predicate QueuedArePlaced(s: State) {
    forall id :: id in s.msgs && s.msgs[id].state == Queued ==>
      InQueue(s, s.msgs[id].priority, id) || (s.msgs[id].boosted && InQueue(s, 0, id))
  }

  ghost predicate DelayHoldsDelayed(s: State) {
    && NoDup(s.delay)
    && forall id :: id in s.delay <==> id in s.msgs && s.msgs[id].state == Delayed
  }

  ghost predicate SortedByDue(msgs: map<Id, Entry>, delay: seq<Id>) {
    forall i, j :: 0 <= i < j < |delay| ==> Due(msgs, delay[i]) <= Due(msgs, delay[j])
  }

  ghost function FailedIds(msgs: map<Id, Entry>): set<Id> {
    set id | id in msgs && msgs[id].state == Failed
  }

  ghost predicate QueuesOk(s: State) {
    && QueuesHoldQueued(s)
    && QueuesDisjoint(s)
    && QueuedArePlaced(s)
    && s.countQueued == Total(s.queues)
  }

  ghost predicate DelayOk(s: State) {
    DelayHoldsDelayed(s) && SortedByDue(s.msgs, s.delay)
  }

  ghost predicate Inv(cfg: Config, s: State) {
    && EntriesOk(s)
    && QueuesOk(s)
    && DelayOk(s)
    && s.countFailed == |FailedIds(s.msgs)|
    && |s.msgs| + s.pool <= cfg.capacity
  }

  /** In no queue and not in the delay set: running, failed or unknown. */
  predicate Loose(s: State, id: Id) {
    id in s.msgs ==> s.msgs[id].state == Running || s.msgs[id].state == Failed
  }
}
