/** Every transition keeps the structural invariant. */
module QueueInvariant {
  import opened Sequences
  import opened QueueModel

  ghost predicate SameExcept(a: map<Id, Entry>, b: map<Id, Entry>, id: Id) {
    forall x :: x != id ==> (x in a <==> x in b) && (x in a ==> a[x] == b[x])
  }

  ghost predicate Placed(s: State, id: Id) {
    id in s.delay || exists p :: InQueue(s, p, id)
  }

  lemma LooseNotPlaced(s: State, id: Id)
    requires QueuesOk(s) && DelayOk(s) && Loose(s, id)
    ensures !Placed(s, id) && id !in s.delay
  {
    forall p | InQueue(s, p, id) ensures false { }
  }

  lemma FailedUpdate(msgs: map<Id, Entry>, id: Id, e: Entry)
    ensures FailedIds(msgs[id := e]) == if e.state == Failed then FailedIds(msgs) + {id} else FailedIds(msgs) - {id}
  {
  }

  lemma FailedSame(msgs: map<Id, Entry>, id: Id, e: Entry)
    requires e.state != Failed && (id in msgs ==> msgs[id].state != Failed)
    ensures FailedIds(msgs[id := e]) == FailedIds(msgs)
  {
  }

  lemma EntriesUpdate(s: State, t: State, id: Id)
    requires EntriesOk(s) && |t.queues| == |s.queues| && SameExcept(s.msgs, t.msgs, id)
    requires id in t.msgs ==> t.msgs[id].priority < |t.queues| && t.msgs[id].failCount < 256
    ensures EntriesOk(t)
  {
  }

  // ----- The parts a transition leaves alone -----

  lemma QueuesUntouched(s: State, t: State, id: Id)
    requires QueuesOk(s) && !Placed(s, id)
    requires t.queues == s.queues && t.countQueued == s.countQueued
    requires SameExcept(s.msgs, t.msgs, id) && (id in t.msgs ==> t.msgs[id].state != Queued)
    ensures QueuesOk(t)
  {
    assert forall p, x :: InQueue(t, p, x) <==> InQueue(s, p, x);
    assert forall p, x :: InQueue(s, p, x) ==> x != id;
  }

  lemma DelayUntouched(s: State, t: State, id: Id)
    requires DelayOk(s) && id !in s.delay
    requires t.delay == s.delay
    requires SameExcept(s.msgs, t.msgs, id) && (id in t.msgs ==> t.msgs[id].state != Delayed)
    ensures DelayOk(t)
  {
    assert forall i :: 0 <= i < |t.delay| ==> Due(t.msgs, t.delay[i]) == Due(s.msgs, s.delay[i]) by {
      forall i | 0 <= i < |t.delay| ensures Due(t.msgs, t.delay[i]) == Due(s.msgs, s.delay[i]) {
        assert t.delay[i] in s.delay;
      }
    }
  }

  // ----- Places -----

  lemma QueuePut(s: State, t: State, id: Id, p: nat, q: seq<Id>)
    requires QueuesOk(s) && !Placed(s, id)
    requires p < |s.queues| && (q == [id] + s.queues[p] || q == s.queues[p] + [id])
    requires t.queues == s.queues[p := q] && t.countQueued == s.countQueued + 1
    requires SameExcept(s.msgs, t.msgs, id)
    requires id in t.msgs && t.msgs[id].state == Queued
    requires p == t.msgs[id].priority || (p == 0 && t.msgs[id].boosted)
    ensures QueuesOk(t)
  {
    TotalUpdate(s.queues, p, q);
    assert !InQueue(s, p, id);
    assert forall x :: x in q <==> x == id || x in s.queues[p];
    assert forall r, x :: InQueue(t, r, x) <==> InQueue(s, r, x) || (r == p && x == id);
    assert forall r, x :: InQueue(s, r, x) ==> x != id;
    assert NoDup(q) by { assert NoDup(s.queues[p]); }
    assert QueuesDisjoint(t);
    assert QueuesHoldQueued(t);
    assert QueuedArePlaced(t);
  }

  lemma QueueTake(s: State, t: State, id: Id, p: nat)
    requires QueuesOk(s) && InQueue(s, p, id)
    requires t.queues == s.queues[p := Remove(s.queues[p], id)] && t.countQueued == s.countQueued - 1
    requires SameExcept(s.msgs, t.msgs, id)
    requires id in t.msgs ==> t.msgs[id].state != Queued
    ensures QueuesOk(t)
  {
    RemoveFacts(s.queues[p], id);
    TotalUpdate(s.queues, p, Remove(s.queues[p], id));
    assert forall r, x :: InQueue(t, r, x) <==> InQueue(s, r, x) && x != id by {
      forall r, x ensures InQueue(t, r, x) <==> InQueue(s, r, x) && x != id {
        if InQueue(s, r, id) { assert r == p; }
      }
    }
    assert QueuesDisjoint(t);
    assert QueuesHoldQueued(t);
    assert QueuedArePlaced(t);
  }

  lemma {:induction false} UpperBoundSplits(msgs: map<Id, Entry>, delay: seq<Id>, due: int)
    requires SortedByDue(msgs, delay)
    ensures var k := UpperBound(msgs, delay, due);
      && (forall i :: 0 <= i < k ==> Due(msgs, delay[i]) <= due)
      && (forall i :: k <= i < |delay| ==> Due(msgs, delay[i]) > due)
  {
    if delay != [] && Due(msgs, delay[0]) <= due {
      UpperBoundSplits(msgs, delay[1..], due);
      var k := UpperBound(msgs, delay, due);
      forall i | 0 <= i < k ensures Due(msgs, delay[i]) <= due {
        if i > 0 { assert delay[i] == delay[1..][i - 1]; }
      }
      forall i | k <= i < |delay| ensures Due(msgs, delay[i]) > due {
        assert delay[i] == delay[1..][i - 1];
      }
    }
  }

  lemma DelayPut(s: State, t: State, id: Id, due: int)
    requires DelayOk(s) && id !in s.delay
    requires t.delay == Insert(s.delay, UpperBound(s.msgs, s.delay, due), id)
    requires SameExcept(s.msgs, t.msgs, id)
    requires id in t.msgs && t.msgs[id].state == Delayed && t.msgs[id].ts == due
    ensures DelayOk(t)
  {
    var k := UpperBound(s.msgs, s.delay, due);
    UpperBoundSplits(s.msgs, s.delay, due);
    InsertMembers(s.delay, k, id);
    InsertNoDup(s.delay, k, id);
    hide Insert;
    InsertSorted(s.msgs, t.msgs, s.delay, k, id);
  }

  lemma InsertSorted(msgs: map<Id, Entry>, msgs': map<Id, Entry>, delay: seq<Id>, k: nat, id: Id)
    requires SortedByDue(msgs, delay) && k <= |delay| && id !in delay
    requires SameExcept(msgs, msgs', id)
    requires forall i :: 0 <= i < k ==> Due(msgs, delay[i]) <= Due(msgs', id)
    requires forall i :: k <= i < |delay| ==> Due(msgs, delay[i]) > Due(msgs', id)
    ensures SortedByDue(msgs', Insert(delay, k, id))
  {
    var d := Insert(delay, k, id);
    forall i, j | 0 <= i < j < |d| ensures Due(msgs', d[i]) <= Due(msgs', d[j]) {
      var i', j' := if i > k then i - 1 else i, if j > k then j - 1 else j;
      assert i != k ==> d[i] == delay[i'] && Due(msgs', d[i]) == Due(msgs, delay[i']);
      assert j != k ==> d[j] == delay[j'] && Due(msgs', d[j]) == Due(msgs, delay[j']);
    }
  }

  lemma DelayTake(s: State, t: State)
    requires DelayOk(s) && s.delay != [] && t.delay == s.delay[1..]
    requires SameExcept(s.msgs, t.msgs, s.delay[0])
    requires s.delay[0] in t.msgs ==> t.msgs[s.delay[0]].state != Delayed
    ensures DelayOk(t)
  {
    var id := s.delay[0];
    NoDupTail(s.delay);
    hide NoDup;
    assert s.delay == [id] + t.delay;
    forall i, j | 0 <= i < j < |t.delay| ensures Due(t.msgs, t.delay[i]) <= Due(t.msgs, t.delay[j]) {
      assert t.delay[i] == s.delay[i + 1] && t.delay[j] == s.delay[j + 1];
      assert t.delay[i] in t.delay && t.delay[j] in t.delay;
    }
  }

  // ----- The transitions -----

  lemma KeySize(msgs: map<Id, Entry>, id: Id, e: Entry)
    ensures |msgs[id := e]| == if id in msgs then |msgs| else |msgs| + 1
  {
    assert msgs[id := e].Keys == msgs.Keys + {id};
  }

  lemma PushFrontKeeps(cfg: Config, s: State, id: Id, e: Entry, p: nat)
    requires Inv(cfg, s) && Loose(s, id)
    requires id in s.msgs ==> s.msgs[id].state != Failed
    requires e.state == Queued && e.priority < |s.queues| && e.failCount < 256
    requires p == e.priority || (p == 0 && e.boosted)
    requires id in s.msgs || |s.msgs| + s.pool < cfg.capacity
    ensures Inv(cfg, PushFront(s, id, e, p))
  {
    hide QueuesOk, DelayOk, EntriesOk, FailedIds, Placed;
    var t := PushFront(s, id, e, p);
    LooseNotPlaced(s, id);
    QueuePut(s, t, id, p, [id] + s.queues[p]);
    DelayUntouched(s, t, id);
    FailedSame(s.msgs, id, e);
    KeySize(s.msgs, id, e);
    EntriesUpdate(s, t, id);
  }

  lemma PushBackKeeps(cfg: Config, s: State, id: Id, e: Entry, p: nat)
    requires Inv(cfg, s) && id in s.msgs && s.msgs[id].state == Running
    requires e.state == Queued && p == e.priority < |s.queues| && e.failCount < 256
    ensures Inv(cfg, PushBack(s, id, e, p))
  {
    hide QueuesOk, DelayOk, EntriesOk, FailedIds, Placed;
    var t := PushBack(s, id, e, p);
    LooseNotPlaced(s, id);
    QueuePut(s, t, id, p, s.queues[p] + [id]);
    DelayUntouched(s, t, id);
    FailedSame(s.msgs, id, e);
    KeySize(s.msgs, id, e);
    EntriesUpdate(s, t, id);
  }

  lemma QueuedNotDelayed(s: State, p: nat, id: Id)
    requires QueuesOk(s) && DelayOk(s) && InQueue(s, p, id)
    ensures id in s.msgs && s.msgs[id].state == Queued && id !in s.delay
  {
  }

  lemma DelayedNotQueued(s: State, t: State, id: Id)
    requires QueuesOk(s) && DelayOk(s) && id in s.delay
    requires t.queues == s.queues && t.countQueued == s.countQueued
    requires SameExcept(s.msgs, t.msgs, id) && (id in t.msgs ==> t.msgs[id].state != Queued)
    ensures QueuesOk(t) && id in s.msgs && s.msgs[id].state == Delayed
  {
    forall p | InQueue(s, p, id) ensures false { }
    assert forall p, x :: InQueue(t, p, x) <==> InQueue(s, p, x);
  }

  lemma UnqueueKeeps(cfg: Config, s: State, id: Id, e: Entry, p: nat)
    requires Inv(cfg, s) && InQueue(s, p, id)
    requires e.state == Running && e.priority < |s.queues| && e.failCount < 256
    ensures Inv(cfg, Unqueue(s, id, e, p))
  {
    QueuedNotDelayed(s, p, id);
    hide QueuesOk, DelayOk, EntriesOk, FailedIds, Placed;
    var t := Unqueue(s, id, e, p);
    QueueTake(s, t, id, p);
    DelayUntouched(s, t, id);
    FailedSame(s.msgs, id, e);
    KeySize(s.msgs, id, e);
    EntriesUpdate(s, t, id);
  }

  lemma PostponeKeeps(cfg: Config, s: State, id: Id, e: Entry, due: int)
    requires Inv(cfg, s) && Loose(s, id)
    requires id in s.msgs ==> s.msgs[id].state != Failed
    requires e.priority < |s.queues| && e.failCount < 256
    requires id in s.msgs || |s.msgs| + s.pool < cfg.capacity
    ensures Inv(cfg, Postpone(s, id, e, due))
  {
    hide QueuesOk, DelayOk, EntriesOk, FailedIds, Placed;
    var t := Postpone(s, id, e, due);
    LooseNotPlaced(s, id);
    DelayPut(s, t, id, due);
    QueuesUntouched(s, t, id);
    FailedSame(s.msgs, id, t.msgs[id]);
    KeySize(s.msgs, id, t.msgs[id]);
    EntriesUpdate(s, t, id);
  }

  lemma UndelayKeeps(cfg: Config, s: State, e: Entry)
    requires Inv(cfg, s) && s.delay != []
    requires e.state == Running && e.priority < |s.queues| && e.failCount < 256
    ensures Inv(cfg, Undelay(s, e))
  {
    var t, id := Undelay(s, e), s.delay[0];
    hide QueuesOk, DelayOk, EntriesOk, FailedIds, Placed;
    DelayTake(s, t);
    DelayedNotQueued(s, t, id);
    FailedSame(s.msgs, id, e);
    KeySize(s.msgs, id, e);
    EntriesUpdate(s, t, id);
  }

  lemma DropKeeps(cfg: Config, s: State, id: Id)
    requires Inv(cfg, s) && Loose(s, id) && id in s.msgs
    ensures Inv(cfg, if s.msgs[id].state == Failed then Drop(s, id).(countFailed := s.countFailed - 1) else Drop(s, id))
  {
    hide QueuesOk, DelayOk, Placed;
    var t := if s.msgs[id].state == Failed then Drop(s, id).(countFailed := s.countFailed - 1) else Drop(s, id);
    LooseNotPlaced(s, id);
    QueuesUntouched(s, t, id);
    DelayUntouched(s, t, id);
    assert t.msgs.Keys == s.msgs.Keys - {id};
    assert |t.msgs| == |t.msgs.Keys| == |s.msgs| - 1;
    assert FailedIds(t.msgs) == FailedIds(s.msgs) - {id};
  }

  lemma FailKeeps(cfg: Config, s: State, id: Id, e: Entry)
    requires Inv(cfg, s) && id in s.msgs && s.msgs[id].state == Running
    requires e.state == Failed && e.priority < |s.queues| && e.failCount < 256
    ensures Inv(cfg, s.(msgs := s.msgs[id := e], countFailed := s.countFailed + 1))
  {
    hide QueuesOk, DelayOk, Placed;
    var t := s.(msgs := s.msgs[id := e], countFailed := s.countFailed + 1);
    LooseNotPlaced(s, id);
    QueuesUntouched(s, t, id);
    DelayUntouched(s, t, id);
    FailedUpdate(s.msgs, id, e);
    KeySize(s.msgs, id, e);
    assert id !in FailedIds(s.msgs);
  }

  lemma ReuseKeeps(cfg: Config, s: State)
    requires Inv(cfg, s) && |s.msgs| != cfg.capacity
    ensures Inv(cfg, Reuse(s)) && |s.msgs| + Reuse(s).pool < cfg.capacity
  {
    var t := Reuse(s);
    assert forall p, x :: InQueue(t, p, x) <==> InQueue(s, p, x);
    assert QueuesOk(t);
  }

  // ----- Facts other proofs need, one at a time -----

  lemma EntryFacts(cfg: Config, s: State, id: Id)
    requires Inv(cfg, s) && id in s.msgs
    ensures s.msgs[id].priority < |s.queues| && s.msgs[id].failCount < 256
  {
  }

  lemma QueueFacts(cfg: Config, s: State, p: nat)
    requires Inv(cfg, s) && p < |s.queues|
    ensures NoDup(s.queues[p])
    ensures forall id :: id in s.queues[p] ==> id in s.msgs && s.msgs[id].state == Queued
  {
    forall id | id in s.queues[p] ensures id in s.msgs && s.msgs[id].state == Queued {
      assert InQueue(s, p, id);
    }
  }

  lemma DelayFacts(cfg: Config, s: State)
    requires Inv(cfg, s)
    ensures NoDup(s.delay) && SortedByDue(s.msgs, s.delay)
    ensures forall id :: id in s.delay <==> id in s.msgs && s.msgs[id].state == Delayed
  {
  }

  lemma PushMessageKeeps(cfg: Config, s: State, m: Micro)
    requires m.Push? && Inv(cfg, s) && Can(cfg, s, m)
    ensures Inv(cfg, Do(cfg, s, m))
  {
    ReuseKeeps(cfg, s);
    hide Inv, Postpone, PushFront;
    if m.delay != 0 {
      PostponeKeeps(cfg, Reuse(s), m.id, NewEntry(m.priority, m.now), m.now + Msec(m.delay));
    } else {
      PushFrontKeeps(cfg, Reuse(s), m.id, NewEntry(m.priority, m.now), m.priority);
    }
  }

  lemma PopKeeps(cfg: Config, s: State, m: Micro)
    requires m.Pop? && Inv(cfg, s) && Can(cfg, s, m)
    ensures Inv(cfg, Do(cfg, s, m))
  {
    var p, id := FirstNonEmpty(s.queues), Head(s);
    assert InQueue(s, p, id);
    EntryFacts(cfg, s, id);
    QueueFacts(cfg, s, p);
    hide Inv;
    RemoveLast(s.queues[p]);
    UnqueueKeeps(cfg, s, id, s.msgs[id].(state := Running, ts := m.now, token := m.token), p);
  }

  lemma RequeueKeeps(cfg: Config, s: State, m: Micro)
    requires m.Requeue? && Inv(cfg, s) && Can(cfg, s, m)
    ensures Inv(cfg, Do(cfg, s, m))
  {
    hide Inv, Do, Postpone, PushFront;
    EntryFacts(cfg, s, m.id);
    RequeueParts(cfg, s, m);
    var e := s.msgs[m.id].(boosted := false, token := "");
    if m.delay != 0 {
      PostponeKeeps(cfg, s, m.id, e, m.now + Msec(m.delay));
    } else {
      PushFrontKeeps(cfg, s, m.id, e.(state := Queued, ts := m.now), e.priority);
    }
  }

  lemma RequeueParts(cfg: Config, s: State, m: Micro)
    requires m.Requeue? && Can(cfg, s, m)
    ensures var e := s.msgs[m.id].(boosted := false, token := "");
      Do(cfg, s, m) ==
        if m.delay != 0 then Postpone(s, m.id, e, m.now + Msec(m.delay))
        else PushFront(s, m.id, e.(state := Queued, ts := m.now), e.priority)
  {
    hide Postpone, PushFront;
  }

  lemma TimeoutKeeps(cfg: Config, s: State, m: Micro)
    requires m.Timeout? && Inv(cfg, s) && Can(cfg, s, m)
    ensures Inv(cfg, Do(cfg, s, m))
  {
    hide Inv, Postpone, PushFront;
    EntryFacts(cfg, s, m.id);
    var e := s.msgs[m.id].(failCount := Increment8(s.msgs[m.id].failCount));
    if e.failCount == cfg.maxRetries {
      FailKeeps(cfg, s, m.id, e.(state := Failed));
    } else {
      PushFrontKeeps(cfg, s, m.id, e.(state := Queued, token := ""), e.priority);
    }
  }

  lemma BoostParts(cfg: Config, s: State, m: Micro)
    requires m.Boost? && Can(cfg, s, m)
    ensures var e := s.msgs[m.id].(boosted := true);
      Do(cfg, s, m) == PushFront(Unqueue(s, m.id, e.(state := Running), e.priority), m.id, e, 0)
  {
    var e := s.msgs[m.id].(boosted := true);
    assert s.msgs[m.id := e.(state := Running)][m.id := e] == s.msgs[m.id := e][m.id := e];
  }

  lemma BoostKeeps(cfg: Config, s: State, m: Micro)
    requires m.Boost? && Inv(cfg, s) && Can(cfg, s, m)
    ensures Inv(cfg, Do(cfg, s, m))
  {
    var e := s.msgs[m.id].(boosted := true);
    var loose := e.(state := Running);
    BoostParts(cfg, s, m);
    assert e.priority < |s.queues| && e.failCount < 256;
    UnqueueKeeps(cfg, s, m.id, loose, e.priority);
    var u := Unqueue(s, m.id, loose, e.priority);
    assert u.msgs[m.id] == loose;
    PushFrontKeeps(cfg, u, m.id, e, 0);
  }

  lemma ReleaseParts(cfg: Config, s: State, m: Micro)
    requires m.Release? && Can(cfg, s, m)
    ensures var e := s.msgs[s.delay[0]].(state := Queued, ts := m.now);
      Do(cfg, s, m) == PushBack(Undelay(s, e.(state := Running)), s.delay[0], e, e.priority)
  {
    var id := s.delay[0];
    var e := s.msgs[id].(state := Queued, ts := m.now);
    assert s.msgs[id := e.(state := Running)][id := e] == s.msgs[id := e][id := e];
  }

  lemma ReleaseKeeps(cfg: Config, s: State, m: Micro)
    requires m.Release? && Inv(cfg, s) && Can(cfg, s, m)
    ensures Inv(cfg, Do(cfg, s, m))
  {
    var e := s.msgs[s.delay[0]].(state := Queued, ts := m.now);
    var loose := e.(state := Running);
    ReleaseParts(cfg, s, m);
    assert e.priority < |s.queues| && e.failCount < 256;
    UndelayKeeps(cfg, s, loose);
    PushBackKeeps(cfg, Undelay(s, loose), s.delay[0], e, e.priority);
  }

  lemma MicroKeeps(cfg: Config, s: State, m: Micro)
    requires Inv(cfg, s) && Can(cfg, s, m)
    ensures Inv(cfg, Do(cfg, s, m))
  {
    match m {
      case Push(_, _, _, _) => PushMessageKeeps(cfg, s, m);
      case Pop(_, _) => PopKeeps(cfg, s, m);
      case Requeue(_, _, _) => RequeueKeeps(cfg, s, m);
      case Finish(id) => DropKeeps(cfg, s, id);
      case Timeout(_, _) => TimeoutKeeps(cfg, s, m);
      case Boost(_, _) => BoostKeeps(cfg, s, m);
      case Release(_) => ReleaseKeeps(cfg, s, m);
      case Erase(id) => DropKeeps(cfg, s, id);
    }
  }

  lemma {:induction false} AllKeep(cfg: Config, s: State, ms: seq<Micro>)
    requires Inv(cfg, s) && CanAll(cfg, s, ms)
    ensures Inv(cfg, DoAll(cfg, s, ms))
    decreases |ms|
  {
    if ms != [] {
      MicroKeeps(cfg, s, ms[0]);
      AllKeep(cfg, Do(cfg, s, ms[0]), ms[1..]);
    }
  }

  lemma InitialInv(cfg: Config, priorities: nat)
    ensures Inv(cfg, Initial(priorities))
  {
    var s := Initial(priorities);
    assert forall p, x :: !InQueue(s, p, x);
    TotalZero(s.queues);
    assert FailedIds(s.msgs) == {};
  }

  /**
   * When the counter says a message is queued, some queue is non-empty, so the
   * "All queues empty" exception cannot be thrown; and the counters never go
   * below zero, so their unsigned arithmetic never wraps.
   */
  lemma CountersAreHonest(cfg: Config, s: State)
    requires Inv(cfg, s)
    ensures s.countQueued >= 0 && 0 <= s.countFailed <= |s.msgs| <= cfg.capacity
    ensures s.countQueued > 0 <==> FirstNonEmpty(s.queues) < |s.queues|
    ensures s.countQueued > 0 <==> Poppable(s)
    ensures s.countQueued > 0 <==> exists id :: id in s.msgs && s.msgs[id].state == Queued
  {
    TotalZero(s.queues);
    var p := FirstNonEmpty(s.queues);
    var failed := FailedIds(s.msgs);
    assert failed <= s.msgs.Keys;
    SubsetSize(failed, s.msgs.Keys);
    if p < |s.queues| {
      assert InQueue(s, p, s.queues[p][|s.queues[p]| - 1]);
    }
    if id :| id in s.msgs && s.msgs[id].state == Queued {
      assert InQueue(s, s.msgs[id].priority, id) || InQueue(s, 0, id);
    }
  }

  lemma {:induction false} SubsetSize<T>(a: set<T>, b: set<T>)
    requires a <= b
    ensures |a| <= |b|
  {
    assert b == a + (b - a);
  }
}
