/**
 * The three loops that run inside one critical section: the monitor's scan, the
 * delay thread's release pass and the removal of failed messages. Each is given
 * as the sequence of transitions it takes, and each is shown to have a closed form.
 */
module QueueScans {
  import opened Sequences
  import opened Keys
  import opened QueueModel
  import opened QueueInvariant

  // ----- The monitor's scan -----

  /** What the monitor does with one message. */
  function ScanStep(cfg: Config, s: State, id: Id, now: int): (ms: seq<Micro>)
    ensures |ms| <= 1 && forall m :: m in ms ==> Can(cfg, s, m)
  {
    if id !in s.msgs then []
    else if s.msgs[id].state == Running && cfg.failTimeout != 0 then
      if Expired(cfg, s.msgs[id], now) then [Timeout(id, now)] else []
    else if Starving(cfg, s.msgs[id], now) && InQueue(s, s.msgs[id].priority, id) then [Boost(id, now)]
    else []
  }

  function AfterScanStep(cfg: Config, s: State, id: Id, now: int): State {
    var ms := ScanStep(cfg, s, id, now);
    if ms == [] then s else Do(cfg, s, ms[0])
  }

  function Scan(cfg: Config, s: State, order: seq<Id>, now: int): seq<Micro>
    decreases |order|
  {
    if order == [] then []
    else ScanStep(cfg, s, order[0], now) + Scan(cfg, AfterScanStep(cfg, s, order[0], now), order[1..], now)
  }

  function AfterScan(cfg: Config, s: State, order: seq<Id>, now: int): State
    decreases |order|
  {
    if order == [] then s else AfterScan(cfg, AfterScanStep(cfg, s, order[0], now), order[1..], now)
  }

  lemma {:induction false} ScanRuns(cfg: Config, s: State, order: seq<Id>, now: int)
    ensures CanAll(cfg, s, Scan(cfg, s, order, now))
    ensures DoAll(cfg, s, Scan(cfg, s, order, now)) == AfterScan(cfg, s, order, now)
    decreases |order|
  {
    if order != [] {
      var ms, t := ScanStep(cfg, s, order[0], now), AfterScanStep(cfg, s, order[0], now);
      ScanRuns(cfg, t, order[1..], now);
      var rest := Scan(cfg, t, order[1..], now);
      if ms == [] {
        assert ms + rest == rest;
      } else {
        assert (ms + rest)[1..] == rest;
      }
    }
  }

  /** The fields a message has after a scan, from its own fields and the time alone. */
  function ScanEntry(cfg: Config, e: Entry, now: int): Entry {
    if Expired(cfg, e, now) then
      var f := Increment8(e.failCount);
      if f == cfg.maxRetries then e.(failCount := f, state := Failed)
      else e.(failCount := f, state := Queued, token := "")
    else if Starving(cfg, e, now) then e.(boosted := true)
    else e
  }

  predicate Retried(cfg: Config, e: Entry, now: int) {
    Expired(cfg, e, now) && Increment8(e.failCount) != cfg.maxRetries
  }

  /** The scan puts the message into queue p. */
  predicate Joins(cfg: Config, e: Entry, now: int, p: nat) {
    if Retried(cfg, e, now) then e.priority == p else p == 0 && Starving(cfg, e, now)
  }

  /** The scan takes the message out of queue p. */
  predicate Leaves(cfg: Config, e: Entry, now: int, p: nat) {
    Starving(cfg, e, now) && e.priority == p
  }

  function Joining(cfg: Config, msgs: map<Id, Entry>, now: int, p: nat): Id -> bool {
    id => id in msgs && Joins(cfg, msgs[id], now, p)
  }

  function Staying(cfg: Config, msgs: map<Id, Entry>, order: seq<Id>, now: int, p: nat): Id -> bool {
    id => !(id in order && id in msgs && Leaves(cfg, msgs[id], now, p))
  }

  /** Queue p after a scan: the joining messages, last visited first, ahead of those that stay. */
  function Scanned(cfg: Config, s: State, order: seq<Id>, now: int, p: nat): seq<Id>
    requires p < |s.queues|
  {
    Reverse(Filter(order, Joining(cfg, s.msgs, now, p))) + Filter(s.queues[p], Staying(cfg, s.msgs, order, now, p))
  }

  /** The monitor's "not found in expected queue" branch is never taken. */
  lemma StarvingIsFound(cfg: Config, s: State, id: Id, now: int)
    requires Inv(cfg, s) && id in s.msgs && Starving(cfg, s.msgs[id], now)
    ensures InQueue(s, s.msgs[id].priority, id)
  {
  }

  lemma ScanStepEffect(cfg: Config, s: State, id: Id, now: int)
    requires Inv(cfg, s) && id in s.msgs
    ensures var t := AfterScanStep(cfg, s, id, now);
      && t.msgs == s.msgs[id := ScanEntry(cfg, s.msgs[id], now)]
      && t.delay == s.delay && t.pool == s.pool && |t.queues| == |s.queues|
      && Inv(cfg, t)
  {
    hide Inv;
    var ms := ScanStep(cfg, s, id, now);
    if ms != [] { MicroKeeps(cfg, s, ms[0]); }
    EntryFacts(cfg, s, id);
    if Starving(cfg, s.msgs[id], now) {
      StarvingIsFound(cfg, s, id, now);
      var e := s.msgs[id].(boosted := true);
      assert s.msgs[id := e][id := e] == s.msgs[id := e];
    } else if !Expired(cfg, s.msgs[id], now) {
      assert s.msgs[id := s.msgs[id]] == s.msgs;
    }
  }

  lemma ScanStepParts(cfg: Config, s: State, id: Id, now: int)
    requires Inv(cfg, s) && id in s.msgs
    ensures var t, e := AfterScanStep(cfg, s, id, now), s.msgs[id];
      && (Retried(cfg, e, now) ==> t.queues == SetQueue(s.queues, e.priority, [id] + At(s.queues, e.priority)))
      && (Starving(cfg, e, now) ==> t == Do(cfg, s, Boost(id, now)) && Can(cfg, s, Boost(id, now)))
      && (!Retried(cfg, e, now) && !Starving(cfg, e, now) ==> t.queues == s.queues)
  {
    if Starving(cfg, s.msgs[id], now) { StarvingIsFound(cfg, s, id, now); }
    hide Inv;
  }

  lemma ScanStepQueue(cfg: Config, s: State, id: Id, now: int, p: nat)
    requires Inv(cfg, s) && id in s.msgs && p < |s.queues|
    ensures var t, e := AfterScanStep(cfg, s, id, now), s.msgs[id];
      At(t.queues, p) == (if Joins(cfg, e, now, p) then [id] else []) +
                         (if Leaves(cfg, e, now, p) then Remove(s.queues[p], id) else s.queues[p])
  {
    EntryFacts(cfg, s, id);
    ScanStepParts(cfg, s, id, now);
    hide Inv, AfterScanStep;
    var e := s.msgs[id];
    if Starving(cfg, e, now) { BoostParts(cfg, s, Boost(id, now)); }
    hide Do;
  }

  lemma {:induction false} ScanEffect(cfg: Config, s: State, order: seq<Id>, now: int)
    requires Inv(cfg, s) && NoDup(order) && forall id :: id in order ==> id in s.msgs
    ensures var t := AfterScan(cfg, s, order, now);
      && Inv(cfg, t)
      && t.msgs.Keys == s.msgs.Keys && t.delay == s.delay && t.pool == s.pool && |t.queues| == |s.queues|
      && forall id :: id in s.msgs ==> t.msgs[id] == if id in order then ScanEntry(cfg, s.msgs[id], now) else s.msgs[id]
    decreases |order|
  {
    hide Inv, NoDup;
    if order != [] {
      ScanStepEffect(cfg, s, order[0], now);
      NoDupTail(order);
      assert order == [order[0]] + order[1..];
      ScanEffect(cfg, AfterScanStep(cfg, s, order[0], now), order[1..], now);
    }
  }

  lemma {:induction false} ScanQueue(cfg: Config, s: State, order: seq<Id>, now: int, p: nat)
    requires Inv(cfg, s) && NoDup(order) && forall id :: id in order ==> id in s.msgs
    requires p < |s.queues|
    ensures At(AfterScan(cfg, s, order, now).queues, p) == Scanned(cfg, s, order, now, p)
    decreases |order|
  {
    hide Inv, NoDup, Do, AfterScanStep, ScanEntry, Leaves, Joins;
    if order == [] {
      FilterAll(s.queues[p], Staying(cfg, s.msgs, order, now, p));
    } else {
      var id, rest := order[0], order[1..];
      var t := AfterScanStep(cfg, s, id, now);
      ScanStepEffect(cfg, s, id, now);
      NoDupTail(order);
      assert order == [id] + rest;
      ScanQueue(cfg, t, rest, now, p);
      ScanStepQueue(cfg, s, id, now, p);
      ScanQueueStep(cfg, s, t, id, rest, now, p);
    }
  }

  lemma ScanQueueStep(cfg: Config, s: State, t: State, id: Id, rest: seq<Id>, now: int, p: nat)
    requires Inv(cfg, s) && id in s.msgs && p < |s.queues| && NoDup([id] + rest) && id !in rest
    requires t.msgs == s.msgs[id := ScanEntry(cfg, s.msgs[id], now)] && |t.queues| == |s.queues|
    requires t.queues[p] == (if Joins(cfg, s.msgs[id], now, p) then [id] else []) +
                            (if Leaves(cfg, s.msgs[id], now, p) then Remove(s.queues[p], id) else s.queues[p])
    ensures Scanned(cfg, t, rest, now, p) == Scanned(cfg, s, [id] + rest, now, p)
  {
    hide Inv, NoDup, ScanEntry, Leaves, Joins;
    var join := if Joins(cfg, s.msgs[id], now, p) then [id] else [];
    var kept := if Leaves(cfg, s.msgs[id], now, p) then Remove(s.queues[p], id) else s.queues[p];
    var joining, staying := Joining(cfg, s.msgs, now, p), Staying(cfg, t.msgs, rest, now, p);
    FilterCongruent(rest, Joining(cfg, t.msgs, now, p), joining);
    FilterCons(id, rest, joining);
    ReverseConcat(join, Filter(rest, joining));
    assert Reverse(join) == join;
    FilterConcat(join, kept, staying);
    FilterAll(join, staying);
    ScanKept(cfg, s, t, id, rest, now, p);
    hide Filter, Reverse;
    Associative(Reverse(Filter(rest, joining)), join, Filter(kept, staying));
  }

  lemma ScanKept(cfg: Config, s: State, t: State, id: Id, rest: seq<Id>, now: int, p: nat)
    requires Inv(cfg, s) && id in s.msgs && p < |s.queues| && NoDup([id] + rest)
    requires t.msgs == s.msgs[id := ScanEntry(cfg, s.msgs[id], now)]
    ensures var kept := if Leaves(cfg, s.msgs[id], now, p) then Remove(s.queues[p], id) else s.queues[p];
      Filter(kept, Staying(cfg, t.msgs, rest, now, p)) == Filter(s.queues[p], Staying(cfg, s.msgs, [id] + rest, now, p))
  {
    var q := s.queues[p];
    var f, g := Staying(cfg, t.msgs, rest, now, p), Staying(cfg, s.msgs, [id] + rest, now, p);
    NoDupTail([id] + rest);
    assert ([id] + rest)[1..] == rest;
    QueueFacts(cfg, s, p);
    hide Inv, NoDup;
    if Leaves(cfg, s.msgs[id], now, p) {
      RemoveFacts(q, id);
      FilterStays(q, id, f, g);
    } else {
      FilterCongruent(q, f, g);
    }
  }

  lemma {:induction false} FilterStays(q: seq<Id>, id: Id, f: Id -> bool, g: Id -> bool)
    requires NoDup(q) && !g(id) && f(id)
    requires forall x :: x != id ==> f(x) == g(x)
    ensures Filter(Remove(q, id), f) == Filter(q, g)
  {
    if q != [] {
      if q[0] == id {
        assert forall x :: x in q[1..] ==> x != id;
        FilterCongruent(q[1..], f, g);
      } else {
        FilterStays(q[1..], id, f, g);
        assert ([q[0]] + Remove(q[1..], id))[1..] == Remove(q[1..], id);
      }
    }
  }

  /**
   * The whole scan in closed form, whatever order it visits the messages in. Each
   * message's new fields depend on its own old fields and the time; each queue is
   * the messages that join it, last visited first, ahead of those that stay, in
   * their old order.
   */
  lemma ScanPointwise(cfg: Config, s: State, order: seq<Id>, now: int)
    requires Inv(cfg, s) && NoDup(order) && forall id :: id in order <==> id in s.msgs
    ensures var t := AfterScan(cfg, s, order, now);
      && t.msgs == (map id | id in s.msgs :: ScanEntry(cfg, s.msgs[id], now))
      && t.delay == s.delay && t.pool == s.pool && |t.queues| == |s.queues|
      && (forall p :: 0 <= p < |s.queues| ==> t.queues[p] == Scanned(cfg, s, order, now, p))
      && t.countQueued == Total(t.queues) && t.countFailed == |FailedIds(t.msgs)|
  {
    hide Inv, AfterScan, Scanned, NoDup, FailedIds, ScanEntry;
    ScanEffect(cfg, s, order, now);
    Counters(cfg, AfterScan(cfg, s, order, now));
    forall p | 0 <= p < |s.queues|
      ensures At(AfterScan(cfg, s, order, now).queues, p) == Scanned(cfg, s, order, now, p)
    {
      ScanQueue(cfg, s, order, now, p);
    }
  }

  lemma Counters(cfg: Config, s: State)
    requires Inv(cfg, s)
    ensures s.countQueued == Total(s.queues) && s.countFailed == |FailedIds(s.msgs)|
  {
  }

  /** What a scan leaves behind: no overdue consumer and no message that has been starving since before it. */
  lemma ScanCatchesAll(cfg: Config, s: State, order: seq<Id>, now: int, id: Id)
    requires Inv(cfg, s) && NoDup(order) && (forall x :: x in order <==> x in s.msgs) && id in s.msgs
    ensures var t := AfterScan(cfg, s, order, now);
      && id in t.msgs
      && var e := t.msgs[id];
      && !(e.state == Running && cfg.failTimeout != 0 && e.ts + 1000000 * cfg.failTimeout < now)
      && (e.state == Queued && e.priority > 0 && !e.boosted && e.ts + 1000000 * cfg.boostTimeout < now ==>
            s.msgs[id].state == Running)
  {
    hide Inv, NoDup, AfterScan;
    ScanEffect(cfg, s, order, now);
  }

  // ----- The release pass -----

  predicate FirstIsDue(s: State, now: int) {
    s.delay != [] && s.delay[0] in s.msgs && s.msgs[s.delay[0]].ts <= now
  }

  function ReleaseDue(cfg: Config, s: State, now: int): seq<Micro>
    decreases |s.delay|
  {
    if FirstIsDue(s, now) then [Release(now)] + ReleaseDue(cfg, Do(cfg, s, Release(now)), now) else []
  }

  function AfterReleaseDue(cfg: Config, s: State, now: int): State
    decreases |s.delay|
  {
    if FirstIsDue(s, now) then AfterReleaseDue(cfg, Do(cfg, s, Release(now)), now) else s
  }

  lemma {:induction false} ReleaseRuns(cfg: Config, s: State, now: int)
    ensures CanAll(cfg, s, ReleaseDue(cfg, s, now))
    ensures DoAll(cfg, s, ReleaseDue(cfg, s, now)) == AfterReleaseDue(cfg, s, now)
    decreases |s.delay|
  {
    if FirstIsDue(s, now) {
      var t := Do(cfg, s, Release(now));
      ReleaseRuns(cfg, t, now);
      assert ReleaseDue(cfg, s, now)[1..] == ReleaseDue(cfg, t, now);
    }
  }

  /** How many messages at the start of the delay set are due. */
  function DueCount(s: State, now: int): (k: nat)
    ensures k <= |s.delay|
  {
    UpperBound(s.msgs, s.delay, now)
  }

  function OfPriority(msgs: map<Id, Entry>, p: nat): Id -> bool {
    id => id in msgs && msgs[id].priority == p
  }

  lemma NothingDue(cfg: Config, s: State, now: int)
    requires Inv(cfg, s) && !FirstIsDue(s, now)
    ensures DueCount(s, now) == 0
  {
    DelayFacts(cfg, s);
    hide Inv;
    if s.delay != [] { assert s.delay[0] in s.delay; }
  }

  lemma ReleaseStep(cfg: Config, s: State, now: int)
    requires Inv(cfg, s) && FirstIsDue(s, now)
    ensures var t, id := Do(cfg, s, Release(now)), s.delay[0];
      && Inv(cfg, t)
      && t.msgs == s.msgs[id := s.msgs[id].(state := Queued, ts := now)]
      && t.delay == s.delay[1..] && id !in t.delay && t.pool == s.pool && |t.queues| == |s.queues|
      && DueCount(s, now) == 1 + DueCount(t, now)
      && forall p :: 0 <= p < |s.queues| ==>
           t.queues[p] == s.queues[p] + if s.msgs[id].priority == p then [id] else []
  {
    hide Inv, Do, NoDup, DueCount, SortedByDue;
    MicroKeeps(cfg, s, Release(now));
    EntryFacts(cfg, s, s.delay[0]);
    DelayFacts(cfg, s);
    NoDupTail(s.delay);
    ReleaseFields(cfg, s, now);
    DueCountStep(s, Do(cfg, s, Release(now)), now);
  }

  lemma ReleaseFields(cfg: Config, s: State, now: int)
    requires FirstIsDue(s, now) && s.msgs[s.delay[0]].priority < |s.queues|
    ensures var t, id := Do(cfg, s, Release(now)), s.delay[0];
      && t.msgs == s.msgs[id := s.msgs[id].(state := Queued, ts := now)]
      && t.delay == s.delay[1..] && t.pool == s.pool && |t.queues| == |s.queues|
      && forall p :: 0 <= p < |s.queues| ==>
           t.queues[p] == s.queues[p] + if s.msgs[id].priority == p then [id] else []
  {
    var id := s.delay[0];
    var e := s.msgs[id].(state := Queued, ts := now);
    assert s.msgs[id := e][id := e] == s.msgs[id := e];
  }

  lemma DueCountStep(s: State, t: State, now: int)
    requires FirstIsDue(s, now) && s.delay[0] !in s.delay[1..] && t.delay == s.delay[1..]
    requires t.msgs == s.msgs[s.delay[0] := s.msgs[s.delay[0]].(state := Queued, ts := now)]
    ensures DueCount(s, now) == 1 + DueCount(t, now)
  {
    UpperBoundCongruent(s.msgs, t.msgs, s.delay[1..], now);
  }

  lemma {:induction false} ReleaseEffect(cfg: Config, s: State, now: int)
    requires Inv(cfg, s)
    ensures var t, k := AfterReleaseDue(cfg, s, now), DueCount(s, now);
      && Inv(cfg, t)
      && t.delay == s.delay[k..] && t.pool == s.pool && |t.queues| == |s.queues|
      && |ReleaseDue(cfg, s, now)| == k
      && t.msgs.Keys == s.msgs.Keys
      && forall id :: id in s.msgs ==>
           t.msgs[id] == if id in s.delay[..k] then s.msgs[id].(state := Queued, ts := now) else s.msgs[id]
    decreases |s.delay|
  {
    hide Inv, Do, DueCount;
    if FirstIsDue(s, now) {
      var t, id := Do(cfg, s, Release(now)), s.delay[0];
      ReleaseStep(cfg, s, now);
      ReleaseEffect(cfg, t, now);
      var k := DueCount(s, now);
      PrefixOfCons(s.delay, k);
      assert forall x :: x in t.delay[..k - 1] ==> x in t.delay;
    } else {
      NothingDue(cfg, s, now);
    }
  }

  lemma {:induction false} UpperBoundCongruent(a: map<Id, Entry>, b: map<Id, Entry>, delay: seq<Id>, due: int)
    requires forall id :: id in delay ==> Due(a, id) == Due(b, id)
    ensures UpperBound(a, delay, due) == UpperBound(b, delay, due)
  {
    if delay != [] {
      assert delay[0] in delay;
      UpperBoundCongruent(a, b, delay[1..], due);
    }
  }

  lemma {:induction false} ReleaseQueue(cfg: Config, s: State, now: int, p: nat)
    requires Inv(cfg, s) && p < |s.queues|
    ensures At(AfterReleaseDue(cfg, s, now).queues, p) ==
      s.queues[p] + Filter(s.delay[..DueCount(s, now)], OfPriority(s.msgs, p))
    decreases |s.delay|
  {
    hide Inv, Do, DueCount;
    if FirstIsDue(s, now) {
      var t, id := Do(cfg, s, Release(now)), s.delay[0];
      ReleaseStep(cfg, s, now);
      ReleaseQueue(cfg, t, now, p);
      var due, f := t.delay[..DueCount(t, now)], OfPriority(s.msgs, p);
      PrefixOfCons(s.delay, DueCount(s, now));
      FilterCons(id, due, f);
      hide Filter;
      FilterCongruent(due, OfPriority(t.msgs, p), f) by {
        assert forall x :: x in due ==> x in t.delay;
      }
      assert t.queues[p] == s.queues[p] + if f(id) then [id] else [];
      Associative(s.queues[p], if f(id) then [id] else [], Filter(due, f));
    } else {
      NothingDue(cfg, s, now);
      assert s.delay[..DueCount(s, now)] == [];
    }
  }

  /**
   * A release pass moves exactly the messages whose due time has come, in
   * due-time order, each to the serving end of its own queue, and leaves the rest
   * of the delay set sorted.
   */
  lemma ReleasePointwise(cfg: Config, s: State, now: int)
    requires Inv(cfg, s)
    ensures var t := AfterReleaseDue(cfg, s, now);
      var due := s.delay[..DueCount(s, now)];
      && (forall id :: id in due <==> id in s.msgs && s.msgs[id].state == Delayed && s.msgs[id].ts <= now)
      && SortedByDue(s.msgs, due)
      && t.delay == s.delay[|due|..] && SortedByDue(t.msgs, t.delay)
      && t.msgs == (map id | id in s.msgs :: if id in due then s.msgs[id].(state := Queued, ts := now) else s.msgs[id])
      && |t.queues| == |s.queues|
      && (forall p :: 0 <= p < |s.queues| ==> t.queues[p] == s.queues[p] + Filter(due, OfPriority(s.msgs, p)))
      && t.countQueued == s.countQueued + |due| && t.countFailed == s.countFailed && t.pool == s.pool
  {
    hide Inv, NoDup, AfterReleaseDue, ReleaseDue;
    ReleaseEffect(cfg, s, now);
    ReleasedAreDue(cfg, s, now);
    DelayFacts(cfg, AfterReleaseDue(cfg, s, now));
    forall p | 0 <= p < |s.queues|
      ensures At(AfterReleaseDue(cfg, s, now).queues, p)
           == s.queues[p] + Filter(s.delay[..DueCount(s, now)], OfPriority(s.msgs, p))
    {
      ReleaseQueue(cfg, s, now, p);
    }
    ReleaseCount(cfg, s, now);
  }

  lemma ReleasedAreDue(cfg: Config, s: State, now: int)
    requires Inv(cfg, s)
    ensures var due := s.delay[..DueCount(s, now)];
      && (forall id :: id in due <==> id in s.msgs && s.msgs[id].state == Delayed && s.msgs[id].ts <= now)
      && SortedByDue(s.msgs, due)
  {
    DelayFacts(cfg, s);
    hide Inv;
    var k := DueCount(s, now);
    UpperBoundSplits(s.msgs, s.delay, now);
    forall id ensures id in s.delay[..k] <==> id in s.msgs && s.msgs[id].state == Delayed && s.msgs[id].ts <= now {
      assert id in s.delay <==> id in s.msgs && s.msgs[id].state == Delayed;
      assert s.delay == s.delay[..k] + s.delay[k..];
    }
  }

  lemma {:induction false} ReleaseCount(cfg: Config, s: State, now: int)
    ensures AfterReleaseDue(cfg, s, now).countQueued == s.countQueued + |ReleaseDue(cfg, s, now)|
    ensures AfterReleaseDue(cfg, s, now).countFailed == s.countFailed
    decreases |s.delay|
  {
    if FirstIsDue(s, now) { ReleaseCount(cfg, Do(cfg, s, Release(now)), now); }
  }

  // ----- Failed messages -----

  predicate IsFailed(s: State, id: Id) {
    id in s.msgs && s.msgs[id].state == Failed
  }

  function EraseAll(cfg: Config, s: State, ids: seq<Id>): seq<Micro>
    decreases |ids|
  {
    if ids == [] then []
    else if IsFailed(s, ids[0]) then [Erase(ids[0])] + EraseAll(cfg, Do(cfg, s, Erase(ids[0])), ids[1..])
    else EraseAll(cfg, s, ids[1..])
  }

  function AfterErase(cfg: Config, s: State, ids: seq<Id>): State
    decreases |ids|
  {
    if ids == [] then s
    else AfterErase(cfg, if IsFailed(s, ids[0]) then Do(cfg, s, Erase(ids[0])) else s, ids[1..])
  }

  /** The ids `eraseFailed` returns. */
  function Erased(cfg: Config, s: State, ids: seq<Id>): seq<Id>
    decreases |ids|
  {
    if ids == [] then []
    else if IsFailed(s, ids[0]) then [ids[0]] + Erased(cfg, Do(cfg, s, Erase(ids[0])), ids[1..])
    else Erased(cfg, s, ids[1..])
  }

  lemma {:induction false} EraseRuns(cfg: Config, s: State, ids: seq<Id>)
    ensures CanAll(cfg, s, EraseAll(cfg, s, ids))
    ensures DoAll(cfg, s, EraseAll(cfg, s, ids)) == AfterErase(cfg, s, ids)
    decreases |ids|
  {
    if ids != [] {
      if IsFailed(s, ids[0]) {
        var t := Do(cfg, s, Erase(ids[0]));
        EraseRuns(cfg, t, ids[1..]);
        assert EraseAll(cfg, s, ids)[1..] == EraseAll(cfg, t, ids[1..]);
      } else {
        EraseRuns(cfg, s, ids[1..]);
      }
    }
  }

  /**
   * `eraseFailed` removes exactly the listed messages that are failed, reports
   * each of them once however often it is listed, returns their entries to the
   * pool and leaves every other message and place alone.
   */
  lemma {:induction false} ErasePointwise(cfg: Config, s: State, ids: seq<Id>)
    ensures var t, gone := AfterErase(cfg, s, ids), Erased(cfg, s, ids);
      && NoDup(gone)
      && (forall id :: id in gone <==> id in ids && id in s.msgs && s.msgs[id].state == Failed)
      && (forall id :: id in t.msgs <==> id in s.msgs && id !in gone)
      && (forall id :: id in t.msgs ==> t.msgs[id] == s.msgs[id])
      && t.queues == s.queues && t.delay == s.delay && t.countQueued == s.countQueued
      && t.countFailed == s.countFailed - |gone| && t.pool == s.pool + |gone|
    decreases |ids|
  {
    if ids != [] {
      assert ids == [ids[0]] + ids[1..];
      if IsFailed(s, ids[0]) {
        var t := Do(cfg, s, Erase(ids[0]));
        ErasePointwise(cfg, t, ids[1..]);
        assert ids[0] !in Erased(cfg, t, ids[1..]);
        assert Erased(cfg, s, ids) == [ids[0]] + Erased(cfg, t, ids[1..]);
      } else {
        ErasePointwise(cfg, s, ids[1..]);
      }
    }
  }

  /** The ids `getFailed` returns, in map order. */
  function FailedList(s: State): seq<Id> {
    Filter(Sorted(s.msgs.Keys), id => IsFailed(s, id))
  }
}
