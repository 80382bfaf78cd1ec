/**
 * The queue as its methods update it in place. Each method runs under the mutex;
 * it is proved to take the queue from one abstract state to the next, and to send
 * exactly the notifications of the corresponding step.
 */
module MonitoredQueue {
  import opened Sequences
  import opened Keys
  import opened QueueModel
  import opened QueueInvariant
  import opened QueueScans
  import opened QueueSystem
  import opened QueueWakeups

  class MsgEntry {
    var priority: nat
    var boosted: bool
    var failCount: nat
    var state: MsgState
    var ts: int
    var id: Id
    var token: string

    function Value(): Entry
      reads this
    {
      Entry(priority, boosted, failCount, state, ts, token)
    }

    constructor (id: Id, priority: nat, now: int)
      ensures Value() == NewEntry(priority, now) && this.id == id
    {
      this.priority, boosted, failCount, state, ts := priority, false, 0, Queued, now;
      this.id, token := id, "";
    }

    method Reset(id: Id, priority: nat, now: int)
      modifies this
      ensures Value() == NewEntry(priority, now) && this.id == id
    {
      this.priority, boosted, failCount, state, ts := priority, false, 0, Queued, now;
      this.id, token := id, "";
    }
  }

  /** A notification of `m_pop_cv`. */
  datatype Signal = One | All

  function Ones(n: nat): (r: seq<Signal>)
    ensures |r| == n
  {
    seq(n, _ => One)
  }

  function Sent(n: Notify): seq<Signal> {
    Ones(n.ones) + if n.all then [All] else []
  }

  /** es are the entries that m gives for ids, one by one. */
  ghost predicate Refs(m: map<Id, MsgEntry>, ids: seq<Id>, es: seq<MsgEntry>) {
    |ids| == |es| && forall i :: 0 <= i < |ids| ==> ids[i] in m && m[ids[i]] == es[i]
  }

  ghost predicate Distinct(m: map<Id, MsgEntry>) {
    forall a, b :: a in m && b in m && a != b ==> m[a] != m[b]
  }

  lemma ValuesUpdate(m: map<Id, MsgEntry>, id: Id, e: MsgEntry)
    ensures m[id := e].Values <= m.Values + {e}
  {
  }

  lemma RefsUpdate(m: map<Id, MsgEntry>, ids: seq<Id>, es: seq<MsgEntry>, id: Id, e: MsgEntry)
    requires Refs(m, ids, es) && id !in ids
    ensures Refs(m[id := e], ids, es)
  {
    assert forall i :: 0 <= i < |ids| ==> ids[i] in ids;
  }

  lemma RefsGrow(m: map<Id, MsgEntry>, ids: seq<Id>, es: seq<MsgEntry>, id: Id)
    requires Refs(m, ids, es) && id in m
    ensures Refs(m, [id] + ids, [m[id]] + es)
    ensures Refs(m, ids + [id], es + [m[id]])
  {
  }

  lemma RefsInsert(m: map<Id, MsgEntry>, ids: seq<Id>, es: seq<MsgEntry>, k: nat, id: Id)
    requires Refs(m, ids, es) && id in m && k <= |ids|
    ensures Refs(m, Insert(ids, k, id), Insert(es, k, m[id]))
  {
  }

  lemma RefsDrop(m: map<Id, MsgEntry>, ids: seq<Id>, es: seq<MsgEntry>, id: Id)
    requires Refs(m, ids, es) && id !in ids
    ensures Refs(m - {id}, ids, es)
  {
    assert forall i :: 0 <= i < |ids| ==> ids[i] in ids;
  }

  lemma RefsTail(m: map<Id, MsgEntry>, ids: seq<Id>, es: seq<MsgEntry>)
    requires Refs(m, ids, es) && ids != []
    ensures es != [] && ids[0] in m && m[ids[0]] == es[0] && Refs(m, ids[1..], es[1..])
  {
  }

  lemma {:induction false} RefsRemove(m: map<Id, MsgEntry>, ids: seq<Id>, es: seq<MsgEntry>, id: Id)
    requires Refs(m, ids, es) && Distinct(m) && id in m
    ensures Refs(m, Remove(ids, id), Remove(es, m[id]))
  {
    if ids != [] {
      RefsTail(m, ids, es);
      assert ids[0] == id <==> es[0] == m[id];
      hide Refs, Distinct;
      RefsRemove(m, ids[1..], es[1..], id);
      RefsGrow(m, Remove(ids[1..], id), Remove(es[1..], m[id]), ids[0]);
    }
  }

  class Queue {
    const cfg: Config
    var msgMap: map<Id, MsgEntry>
    var msgPool: seq<MsgEntry>
    var msgDelay: seq<MsgEntry>          // kept in the order of the multiset
    var queueList: seq<seq<MsgEntry>>
    var countQueued: int
    var countFailed: int
    var popSignals: seq<Signal>          // notifications of m_pop_cv, in order
    var delaySignals: nat                // notifications of m_delay_cv
    ghost var view: State                // the abstract state

    ghost function Entries(): set<MsgEntry>
      reads this`msgMap, this`msgPool
    {
      msgMap.Values + (set e | e in msgPool)
    }

    /** The map and the pool: every entry is filed under its own id, and pooled entries are not in the map. */
    ghost predicate FiledBut(skip: set<Id>)
      reads this`msgMap, this`msgPool, this`view, Entries()
    {
      && msgMap.Keys == view.msgs.Keys
      && (forall id :: id in msgMap ==> msgMap[id].id == id)
      && (forall id :: id in msgMap && id !in skip ==> msgMap[id].Value() == view.msgs[id])
      && NoDup(msgPool) && |msgPool| == view.pool
      && (forall id :: id in msgMap ==> msgMap[id] !in msgPool)
    }

    ghost predicate Filed()
      reads this`msgMap, this`msgPool, this`view, Entries()
    {
      FiledBut({})
    }

    /** The deques and the delay set refer to the entries of the abstract queues. */
    ghost predicate Linked()
      reads this`msgMap, this`queueList, this`msgDelay, this`countQueued, this`view
    {
      && |queueList| == |view.queues|
      && (forall p :: 0 <= p < |queueList| ==> Refs(msgMap, view.queues[p], queueList[p]))
      && Refs(msgMap, view.delay, msgDelay)
      && countQueued == view.countQueued
    }

    ghost predicate Valid()
      reads this`msgMap, this`msgPool, this`queueList, this`msgDelay, this`countQueued, this`countFailed, this`view
      reads Entries()
    {
      Inv(cfg, view) && Filed() && Linked() && countFailed == view.countFailed
    }

    constructor (priorities: nat, cfg: Config)
      ensures Valid() && fresh(Entries()) && this.cfg == cfg
      ensures view == Initial(priorities) && popSignals == [] && delaySignals == 0
    {
      this.cfg := cfg;
      msgMap, msgPool, msgDelay := map[], [], [];
      queueList := seq(priorities, _ => []);
      countQueued, countFailed := 0, 0;
      popSignals, delaySignals := [], 0;
      view := Initial(priorities);
      new;
      InitialInv(cfg, priorities);
    }

    // ----- Building blocks -----

    /** e, with the fields v, is the entry of a message that is in no queue and not in the delay set. */
    ghost predicate Ready(id: Id, e: MsgEntry, v: Entry)
      reads this`msgMap, this`msgPool, this`queueList, this`msgDelay, this`countQueued, this`view
      reads Entries(), e
    {
      && Linked() && FiledBut({id})
      && id !in view.delay && (forall q :: !InQueue(view, q, id))
      && e.id == id && e.Value() == v && e !in msgPool
      && (forall x :: x in msgMap && x != id ==> msgMap[x] != e)
    }

    /** Takes an entry from the pool, or allocates one. */
    method GetMsgEntry(id: Id, priority: nat, now: int) returns (msg: MsgEntry)
      requires Filed() && Linked() && id !in msgMap
      requires id !in view.delay && forall q :: !InQueue(view, q, id)
      modifies this`msgPool, this`view, msgPool
      ensures msg in old(msgPool) || fresh(msg)
      ensures forall e :: e in msgPool ==> e in old(msgPool)
      ensures view == Reuse(old(view)) && Ready(id, msg, NewEntry(priority, now))
    {
      if |msgPool| == 0 {
        msg := new MsgEntry(id, priority, now);
      } else {
        var last := |msgPool| - 1;
        msg := msgPool[last];
        msg.Reset(id, priority, now);
        msgPool := msgPool[..last];
        assert forall e :: e in msgPool ==> e in old(msgPool);
      }
      view := Reuse(view);
      assert forall q :: !InQueue(view, q, id) by {
        assert forall q :: InQueue(view, q, id) <==> InQueue(old(view), q, id);
      }
    }

    /** Files the entry of a message that is not placed yet: `m_msg_map[id] = e`. */
    method FileEntry(id: Id, e: MsgEntry, ghost v: Entry)
      requires Ready(id, e, v)
      modifies this`msgMap, this`view
      ensures msgMap == old(msgMap)[id := e]
      ensures view == old(view).(msgs := old(view).msgs[id := v])
      ensures Filed() && Linked()
    {
      forall q | 0 <= q < |queueList| ensures Refs(msgMap[id := e], view.queues[q], queueList[q]) {
        assert !InQueue(view, q, id);
        RefsUpdate(msgMap, view.queues[q], queueList[q], id, e);
      }
      RefsUpdate(msgMap, view.delay, msgDelay, id, e);
      msgMap := msgMap[id := e];
      view := view.(msgs := view.msgs[id := v]);
    }

    /** Queues a message at the front or the back of queue p, and wakes a consumer if asked to. */
    method PutInQueue(id: Id, p: nat, e: MsgEntry, front: bool, notify: bool, ghost v: Entry)
      requires p < |queueList| && Ready(id, e, v)
      modifies this`msgMap, this`queueList, this`countQueued, this`view, this`popSignals
      ensures popSignals == old(popSignals) + if notify then [One] else []
      ensures msgMap == old(msgMap)[id := e]
      ensures view == if front then PushFront(old(view), id, v, p) else PushBack(old(view), id, v, p)
      ensures Filed() && Linked()
    {
      hide Ready, Filed, Linked;
      FileEntry(id, e, v);
      Enqueue(id, p, e, front);
      if notify { NotifyOne(); }
    }

    /** `m_pop_cv.notify_one()`. */
    method NotifyOne()
      requires Filed() && Linked()
      modifies this`popSignals
      ensures popSignals == old(popSignals) + [One] && Filed() && Linked()
    {
      hide NoDup, Refs;
      popSignals := popSignals + [One];
    }

    /** The front or the back of queue p now refers to the entry of a message that is on file. */
    method Enqueue(id: Id, p: nat, e: MsgEntry, front: bool)
      requires Filed() && Linked() && p < |queueList| && id in msgMap && msgMap[id] == e
      modifies this`queueList, this`countQueued, this`view
      ensures p < |old(view).queues|
      ensures var q := old(view).queues[p];
        view == old(view).(queues := old(view).queues[p := if front then [id] + q else q + [id]],
                           countQueued := old(view).countQueued + 1)
      ensures Filed() && Linked()
    {
      RefsGrow(msgMap, view.queues[p], queueList[p], id);
      ghost var ids := if front then [id] + view.queues[p] else view.queues[p] + [id];
      queueList := queueList[p := if front then [e] + queueList[p] else queueList[p] + [e]];
      countQueued := countQueued + 1;
      view := view.(queues := view.queues[p := ids], countQueued := view.countQueued + 1);
      hide NoDup;
    }

    /** Assigns the fields of a message that is in no queue. */
    method Assign(id: Id, e: MsgEntry, w: Entry, ghost v: Entry)
      requires Ready(id, e, v) && w.priority == v.priority
      modifies e
      ensures Ready(id, e, w)
    {
      e.boosted, e.failCount, e.state, e.ts, e.token := w.boosted, w.failCount, w.state, w.ts, w.token;
    }

    lemma FiledIsReady(id: Id)
      requires Filed() && Linked() && id in msgMap
      requires id !in view.delay && forall q :: !InQueue(view, q, id)
      ensures id in view.msgs && Ready(id, msgMap[id], view.msgs[id])
    {
    }

    /** Where a due time belongs in the delay set: after every entry that is not later. */
    method FindDelaySlot(due: int, ghost id: Id, ghost e: MsgEntry, ghost v: Entry) returns (k: nat)
      requires Ready(id, e, v)
      ensures k <= |msgDelay| == |view.delay| && k == UpperBound(view.msgs, view.delay, due)
    {
      assert forall i :: 0 <= i < |msgDelay| ==> Due(view.msgs, view.delay[i]) == msgDelay[i].ts by {
        assert forall i :: 0 <= i < |msgDelay| ==> view.delay[i] in view.delay;
      }
      hide Ready;
      k := 0;
      while k < |msgDelay| && msgDelay[k].ts <= due
        invariant k <= |msgDelay|
        invariant k + UpperBound(view.msgs, view.delay[k..], due) == UpperBound(view.msgs, view.delay, due)
      {
        assert view.delay[k..][1..] == view.delay[k + 1..];
        k := k + 1;
      }
    }

    lemma FirstIsNew(id: Id, e: MsgEntry, v: Entry)
      requires Ready(id, e, v)
      ensures msgDelay != [] ==> msgDelay[0] != e && view.delay[0] != id
    {
      if msgDelay != [] { assert view.delay[0] in view.delay; }
    }

    /** Links an entry into the delay set at its due time. */
    method InsertInDelay(id: Id, e: MsgEntry, ghost v: Entry)
      requires Ready(id, e, v)
      modifies this`msgMap, this`msgDelay, this`view
      ensures msgMap == old(msgMap)[id := e]
      ensures view == old(view).(msgs := old(view).msgs[id := v],
                                 delay := Insert(old(view).delay, UpperBound(old(view).msgs, old(view).delay, v.ts), id))
      ensures Filed() && Linked()
      ensures msgDelay != [] && view.delay != [] && (msgDelay[0] == e <==> view.delay[0] == id)
    {
      FirstIsNew(id, e, v);
      var k := FindDelaySlot(e.ts, id, e, v);
      FileEntry(id, e, v);
      RefsInsert(msgMap, view.delay, msgDelay, k, id);
      msgDelay := Insert(msgDelay, k, e);
      view := view.(delay := Insert(view.delay, k, id));
    }

    /** Puts a message into the delay set and notifies the delay thread if it is now the first to fall due. */
    method InsertDelayedMsg(id: Id, e: MsgEntry, due: int, ghost v: Entry)
      requires Ready(id, e, v)
      modifies this`msgMap, this`msgDelay, this`delaySignals, this`view, e
      ensures msgMap == old(msgMap)[id := e]
      ensures view == Postpone(old(view), id, v, due)
      ensures Filed() && Linked()
      ensures view.delay != [] && delaySignals == old(delaySignals) + if view.delay[0] == id then 1 else 0
    {
      assert e.Value() == v;
      hide Ready;
      Assign(id, e, e.Value().(state := Delayed, ts := due), v);
      InsertInDelay(id, e, v.(state := Delayed, ts := due));
      if msgDelay[0] == e {
        delaySignals := delaySignals + 1;
      }
    }

    /** Returns a message's entry to the pool. */
    method DropEntry(id: Id)
      requires id in msgMap && Filed() && Linked()
      requires id !in view.delay && (forall q :: !InQueue(view, q, id))
      modifies this`msgMap, this`msgPool, this`view
      ensures view == Drop(old(view), id) && Filed() && Linked()
      ensures msgMap == old(msgMap) - {id} && msgPool == old(msgPool) + [old(msgMap[id])]
    {
      forall q | 0 <= q < |queueList| ensures Refs(msgMap - {id}, view.queues[q], queueList[q]) {
        assert !InQueue(view, q, id);
        RefsDrop(msgMap, view.queues[q], queueList[q], id);
      }
      RefsDrop(msgMap, view.delay, msgDelay, id);
      NoDupAppend(msgPool, msgMap[id]);
      hide NoDup, Refs;
      msgPool := msgPool + [msgMap[id]];
      msgMap := msgMap - {id};
      view := Drop(view, id);
    }

    lemma MapSize()
      requires Filed()
      ensures |msgMap| == |view.msgs|
    {
      assert |msgMap| == |msgMap.Keys| && |view.msgs| == |view.msgs.Keys|;
    }

    lemma LooseIsUnlinked(id: Id)
      requires Inv(cfg, view) && Loose(view, id)
      ensures id !in view.delay && forall q :: !InQueue(view, q, id)
    {
      LooseNotPlaced(view, id);
      hide Inv;
    }

    // ----- Calls made under the mutex -----

    /** The part of `push` after its checks. */
    method Admit(id: Id, priority: nat, delay: nat, now: int)
      requires Filed() && Linked() && id !in msgMap && priority < |queueList|
      requires id !in view.delay && forall q :: !InQueue(view, q, id)
      modifies this`msgMap, this`msgPool, this`msgDelay, this`queueList, this`countQueued
      modifies this`view, this`popSignals, this`delaySignals, msgPool
      ensures Filed() && Linked()
      ensures fresh(Entries() - old(Entries()))
      ensures view == Admitted(old(view), id, priority, delay, now)
      ensures popSignals == old(popSignals) + if delay == 0 then [One] else []
      ensures delaySignals == old(delaySignals) + if delay != 0 && FirstInDelay(view, id) then 1 else 0
    {
      hide Ready, Filed, Linked, Postpone, PushFront, Reuse, InQueue, UpperBound, Insert;
      ghost var v := NewEntry(priority, now);
      var msg := GetMsgEntry(id, priority, now);
      ghost var pool := msgPool;
      if delay != 0 {
        InsertDelayedMsg(id, msg, now + Msec(delay), v);
      } else {
        PutInQueue(id, priority, msg, true, true, v);
      }
      assert msgPool == pool && msgMap == old(msgMap)[id := msg];
      ValuesUpdate(old(msgMap), id, msg);
    }

    method Push(id: Id, priority: nat, delay: nat, now: int) returns (err: Option<Error>)
      requires Valid()
      modifies this, msgPool
      ensures Valid() && fresh(Entries() - old(Entries()))
      ensures err == PushError(cfg, old(view), id, priority)
      ensures var a := PushMsg(id, priority, delay, now);
        && view == After(cfg, old(view), a)
        && popSignals == old(popSignals) + Sent(Notifications(cfg, old(view), a))
        && delaySignals == old(delaySignals) + if SignalsDelay(cfg, old(view), a) then 1 else 0
    {
      hide Inv, After, Do, Admitted, Notifications, SignalsDelay, Sent, NoDup, Refs;
      MapSize();
      PushStates(cfg, view, id, priority, delay, now);
      PushSignals(cfg, view, id, priority, delay, now);
      if priority >= |queueList| { return Some(InvalidPriority); }
      if id in msgMap { return Some(DuplicateId); }
      if |msgMap| == cfg.capacity { return Some(CapacityExceeded); }
      LooseIsUnlinked(id);
      Admit(id, priority, delay, now);
      err := None;
    }

    /** Puts a message back into its own queue, at the front. */
    method RequeueNow(id: Id, e: MsgEntry, w: Entry, notify: bool, ghost v: Entry)
      requires Ready(id, e, v) && id in msgMap && msgMap[id] == e && w.priority == v.priority < |queueList|
      modifies this`msgMap, this`queueList, this`countQueued, this`view, this`popSignals, e
      ensures Filed() && Linked() && msgMap == old(msgMap)
      ensures view == PushFront(old(view), id, w, w.priority)
      ensures popSignals == old(popSignals) + if notify then [One] else []
    {
      hide Ready, Filed, Linked, Postpone, PushFront, InQueue, UpperBound, Insert;
      Assign(id, e, w, v);
      PutInQueue(id, w.priority, e, true, notify, w);
      assert old(msgMap)[id := e] == old(msgMap);
    }

    /** Puts a message back into the delay set. */
    method RequeueLater(id: Id, e: MsgEntry, w: Entry, due: int, ghost v: Entry)
      requires Ready(id, e, v) && id in msgMap && msgMap[id] == e && w.priority == v.priority
      modifies this`msgMap, this`msgDelay, this`view, this`delaySignals, e
      ensures Filed() && Linked() && msgMap == old(msgMap)
      ensures view == Postpone(old(view), id, w, due)
      ensures delaySignals == old(delaySignals) + if FirstInDelay(view, id) then 1 else 0
    {
      hide Ready, Filed, Linked, Postpone, PushFront, InQueue, UpperBound, Insert;
      Assign(id, e, w, v);
      InsertDelayedMsg(id, e, due, w);
      assert old(msgMap)[id := e] == old(msgMap);
    }

    /** The part of `ack` after its checks. */
    method Settle(id: Id, requeue: bool, delay: nat, now: int)
      requires Filed() && Linked() && id in msgMap && msgMap[id].priority < |queueList|
      requires id !in view.delay && forall q :: !InQueue(view, q, id)
      modifies this`msgMap, this`msgPool, this`msgDelay, this`queueList, this`countQueued
      modifies this`view, this`popSignals, this`delaySignals, msgMap[id]
      ensures Filed() && Linked() && fresh(Entries() - old(Entries()))
      ensures view == if requeue then PutBackState(old(view), id, delay, now) else Drop(old(view), id)
      ensures popSignals == old(popSignals) + if requeue && delay == 0 then [One] else []
      ensures delaySignals == old(delaySignals) + if requeue && delay != 0 && FirstInDelay(view, id) then 1 else 0
    {
      hide Ready, Filed, Linked, Postpone, PushFront, InQueue, UpperBound, Insert;
      FiledIsReady(id);
      var e := msgMap[id];
      ghost var v := view.msgs[id];
      LinkedFromReady(id, e, v);
      var w := e.Value().(boosted := false, token := "");
      if !requeue {
        DropEntry(id);
      } else if delay != 0 {
        RequeueLater(id, e, w, now + Msec(delay), v);
      } else {
        RequeueNow(id, e, w.(state := Queued, ts := now), true, v);
      }
    }

    method AckImpl(id: Id, token: string, requeue: bool, delay: nat, now: int) returns (err: Option<Error>)
      requires Valid()
      modifies this, Entries()
      ensures Valid() && fresh(Entries() - old(Entries()))
      ensures err == AckError(old(view), id, token)
      ensures var a := Ack(id, token, requeue, delay, now);
        && view == After(cfg, old(view), a)
        && popSignals == old(popSignals) + Sent(Notifications(cfg, old(view), a))
        && delaySignals == old(delaySignals) + if SignalsDelay(cfg, old(view), a) then 1 else 0
    {
      hide Inv, After, Do, PutBackState, Notifications, SignalsDelay;
      AckStates(cfg, view, id, token, requeue, delay, now);
      AckSignals(cfg, view, id, token, requeue, delay, now);
      if id !in msgMap { return Some(NoSuchMessage); }
      if msgMap[id].token != token { return Some(InvalidToken); }
      if msgMap[id].state != Running { return Some(InvalidState); }
      EntryFacts(cfg, view, id);
      LooseIsUnlinked(id);
      Settle(id, requeue, delay, now);
      err := None;
    }

    /** Takes the last message out of queue p. */
    method UnlinkLast(p: nat) returns (e: MsgEntry)
      requires Filed() && Linked() && p < |view.queues| && view.queues[p] != []
      requires var q := view.queues[p]; OnlyPlace(view, p, q[|q| - 1])
      modifies this`queueList, this`countQueued, this`view
      ensures var q := old(view).queues[p]; var last := |q| - 1;
        && q[last] in msgMap && msgMap[q[last]] == e
        && view == old(view).(queues := old(view).queues[p := q[..last]], countQueued := old(view).countQueued - 1)
        && Ready(q[last], e, view.msgs[q[last]])
    {
      var last := |queueList[p]| - 1;
      e := queueList[p][last];
      ghost var id, q := view.queues[p][last], view.queues[p];
      queueList := queueList[p := queueList[p][..last]];
      countQueued := countQueued - 1;
      view := view.(queues := view.queues[p := q[..last]], countQueued := view.countQueued - 1);
      LastIsGone(old(view), p);
      FiledIsReady(id);
    }

    /** Takes a message from the serving end of the first queue that has one; `MustWait` if none is queued. */
    method PopImpl(token: string, now: int) returns (r: PopResult)
      requires Valid()
      modifies this, Entries()
      ensures Valid() && Entries() == old(Entries())
      ensures view == After(cfg, old(view), PopMsg(0, token, now))
      ensures r == MustWait <==> old(view).countQueued == 0
      ensures r.Delivered? ==> Poppable(old(view)) && r == Delivered(Head(old(view)), token)
      ensures popSignals == old(popSignals) && delaySignals == old(delaySignals)
    {
      hide Inv, After, Filed, Linked, Taken;
      PopStates(cfg, view, token, now);
      LinkedCount();
      if countQueued == 0 { return MustWait; }
      HeadPlace(cfg, view);
      r := TakeHead(token, now);
    }

    lemma LinkedCount()
      requires Linked()
      ensures countQueued == view.countQueued && |queueList| == |view.queues|
    {
    }

    /** The part of `pop` after the wait. */
    method TakeHead(token: string, now: int) returns (r: PopResult)
      requires Filed() && Linked() && Poppable(view) && OnlyPlace(view, FirstNonEmpty(view.queues), Head(view))
      modifies this`msgMap, this`queueList, this`countQueued, this`view, msgMap.Values
      ensures Filed() && Linked() && Entries() == old(Entries())
      ensures view == Taken(old(view), token, now)
      ensures r == Delivered(Head(old(view)), token)
    {
      hide Filed, Linked, OnlyPlace, Ready;
      var p := FindQueue();
      ghost var id, v := Head(view), view.msgs[Head(view)];
      var e := UnlinkLast(p);
      LinkedFromReady(id, e, v);
      var w := e.Value().(state := Running, ts := now, token := token);
      Assign(e.id, e, w, v);
      FileEntry(e.id, e, w);
      r := Delivered(e.id, token);
      assert old(msgMap)[id := e] == old(msgMap);
    }

    /** The index of the first queue that is not empty. */
    method FindQueue() returns (p: nat)
      requires Filed() && Linked() && FirstNonEmpty(view.queues) < |view.queues|
      ensures p == FirstNonEmpty(view.queues) && Filed() && Linked()
    {
      p := 0;
      while queueList[p] == []
        invariant p <= FirstNonEmpty(view.queues)
        decreases |queueList| - p
      {
        assert view.queues[p] == [];
        p := p + 1;
      }
    }

    /** Acknowledges one message and takes another in the same critical section. */
    method PopAck(tid: Tid, id: Id, token: string, requeue: bool, delay: nat, now: int, newToken: string, later: int)
        returns (err: Option<Error>, r: PopResult)
      requires Valid()
      modifies this, Entries()
      ensures Valid() && fresh(Entries() - old(Entries()))
      ensures err == AckError(old(view), id, token)
      ensures err.Some? ==> view == old(view)
      ensures var a := QueueSystem.PopAck(tid, id, token, requeue, delay, now, newToken, later);
        && view == After(cfg, old(view), a)
        && (err.None? ==> (r == MustWait <==> FallsAsleep(cfg, old(view), a) != {}))
        && popSignals == old(popSignals) + Sent(Notifications(cfg, old(view), a))
        && delaySignals == old(delaySignals) + if SignalsDelay(cfg, old(view), a) then 1 else 0
    {
      hide Inv, After, Do, Notifications, SignalsDelay, FallsAsleep, Filed, Linked;
      PopAckIsAckThenPop(cfg, view, tid, id, token, requeue, delay, now, newToken, later);
      r := MustWait;
      err := AckImpl(id, token, requeue, delay, now);
      if err.None? {
        r := PopImpl(newToken, later);
      }
    }

    // ----- The monitor thread -----

    /** Marks a message failed. */
    method Fail(id: Id, e: MsgEntry, w: Entry, ghost v: Entry)
      requires Ready(id, e, v) && id in msgMap && msgMap[id] == e && w.priority == v.priority
      modifies this`msgMap, this`countFailed, this`view, e
      ensures Filed() && Linked() && msgMap == old(msgMap)
      ensures view == old(view).(msgs := old(view).msgs[id := w], countFailed := old(view).countFailed + 1)
      ensures countFailed == old(countFailed) + 1
    {
      hide Ready, Filed, Linked;
      Assign(id, e, w, v);
      FileEntry(id, e, w);
      assert old(msgMap)[id := e] == old(msgMap);
      CountFailure();
    }

    method CountFailure()
      requires Filed() && Linked()
      modifies this`countFailed, this`view
      ensures Filed() && Linked()
      ensures view == old(view).(countFailed := old(view).countFailed + 1) && countFailed == old(countFailed) + 1
    {
      hide Refs, NoDup;
      countFailed := countFailed + 1;
      view := view.(countFailed := view.countFailed + 1);
    }

    lemma IdsAreDistinct()
      requires Filed()
      ensures Distinct(msgMap)
    {
    }

    /** Takes a message out of the middle of queue p. */
    method Unlink(id: Id, p: nat) returns (e: MsgEntry)
      requires Filed() && Linked() && OnlyPlace(view, p, id)
      modifies this`queueList, this`countQueued, this`view
      ensures id in msgMap && msgMap[id] == e && countQueued == old(countQueued) - 1
      ensures view == old(view).(queues := old(view).queues[p := Remove(old(view).queues[p], id)],
                                 countQueued := old(view).countQueued - 1)
      ensures Ready(id, e, view.msgs[id])
    {
      e := msgMap[id];
      IdsAreDistinct();
      RefsRemove(msgMap, view.queues[p], queueList[p], id);
      RemovedIsGone(view, p, id);
      hide Remove, NoDup, Distinct;
      queueList := queueList[p := Remove(queueList[p], e)];
      countQueued := countQueued - 1;
      view := view.(queues := view.queues[p := Remove(view.queues[p], id)], countQueued := view.countQueued - 1);
      FiledIsReady(id);
    }

    /** Boosts a message: out of its own queue, onto the front of the top queue. */
    method MoveToTop(id: Id, p: nat)
      requires Filed() && Linked() && OnlyPlace(view, p, id) && p == view.msgs[id].priority
      modifies this`msgMap, this`queueList, this`countQueued, this`view, this`popSignals, msgMap.Values
      ensures Filed() && Linked() && msgMap == old(msgMap) && popSignals == old(popSignals)
      ensures view == Boosted(old(view), id)
    {
      hide Filed, Linked, OnlyPlace, Ready, Remove, NoDup, InQueue, PushFront, Boosted;
      BoostedParts(view, id, p);
      ghost var v := view.msgs[id];
      var e := Unlink(id, p);
      LinkedFromReady(id, e, v);
      var w := e.Value().(boosted := true);
      Assign(id, e, w, v);
      PutInQueue(id, 0, e, true, false, w);
      assert old(msgMap)[id := e] == old(msgMap);
    }

    lemma LinkedFromReady(id: Id, e: MsgEntry, v: Entry)
      requires Ready(id, e, v)
      ensures Linked() && e.id == id && e.Value() == v && |queueList| == |view.queues|
    {
    }

    lemma FiledValue(id: Id)
      requires Filed() && id in msgMap
      ensures id in view.msgs && msgMap[id].Value() == view.msgs[id]
    {
    }

    /** What the monitor does with one message; says whether it was put back for another try. */
    method ScanMessage(id: Id, now: int) returns (retried: bool)
      requires Valid() && id in msgMap
      modifies this`msgMap, this`queueList, this`countQueued, this`countFailed, this`view, this`popSignals, msgMap.Values
      ensures Valid() && msgMap == old(msgMap) && popSignals == old(popSignals)
      ensures view == AfterScanStep(cfg, old(view), id, now)
      ensures retried <==> Retried(cfg, old(view).msgs[id], now)
    {
      hide Inv, AfterScanStep, OnlyPlace, NoDup, Remove, Ready, Filed, Linked, PushFront;
      FiledValue(id);
      ScanStepStates(cfg, view, id, now);
      retried := false;
      var e := msgMap[id];
      ghost var v := view.msgs[id];
      if e.state == Running && cfg.failTimeout != 0 {
        if e.ts < now - Msec(cfg.failTimeout) {
          LooseIsUnlinked(id);
          FiledIsReady(id);
          LinkedFromReady(id, e, v);
          var w := e.Value().(failCount := Increment8(e.failCount));
          if w.failCount == cfg.maxRetries {
            Fail(id, e, w.(state := Failed), v);
          } else {
            RequeueNow(id, e, w.(state := Queued, token := ""), false, v);
            retried := true;
          }
        }
      } else if e.state == Queued {
        if e.priority > 0 && !e.boosted && e.ts < now - Msec(cfg.boostTimeout) {
          MoveToTop(id, e.priority);
        }
      }
    }

    /** Scans all messages, in the order of the map, and counts the retries. */
    method ScanAll(now: int) returns (notify: nat)
      requires Valid()
      modifies this`msgMap, this`queueList, this`countQueued, this`countFailed, this`view, this`popSignals, Entries()
      ensures Valid() && msgMap == old(msgMap) && popSignals == old(popSignals)
      ensures view == AfterScan(cfg, old(view), Sorted(old(view).msgs.Keys), now)
      ensures notify == Retries(cfg, old(view), Sorted(old(view).msgs.Keys), now)
    {
      hide Valid, AfterScanStep, Retried, AfterScan, Retries;
      KeysMatch();
      ghost var start := view;
      var ids := Sorted(msgMap.Keys);
      var i := 0;
      notify := 0;
      while i < |ids|
        invariant i <= |ids| && Valid() && msgMap == old(msgMap)
        invariant AfterScan(cfg, view, ids[i..], now) == AfterScan(cfg, start, ids, now)
        invariant notify + Retries(cfg, view, ids[i..], now) == Retries(cfg, start, ids, now)
        invariant popSignals == old(popSignals)
      {
        KeysMatch();
        ScanUnfold(cfg, view, ids, i, now);
        var retried := ScanMessage(ids[i], now);
        if retried { notify := notify + 1; }
        i := i + 1;
      }
      ScanDone(cfg, view, ids[i..], now);
    }

    /** One turn of the monitor thread: the scan, and the notification that follows it. */
    method MonitorScan(now: int)
      requires Valid()
      modifies this, Entries()
      ensures Valid() && Entries() == old(Entries())
      ensures var a := QueueSystem.MonitorScan(now);
        && view == After(cfg, old(view), a)
        && popSignals == old(popSignals) + Sent(Notifications(cfg, old(view), a))
        && delaySignals == old(delaySignals)
    {
      hide Valid, After, Notifications, Sent, AfterScan, Retries;
      ScanIsAfter(cfg, view, now);
      var notify := ScanAll(now);
      Wake(notify);
    }

    /** Wakes one consumer for one retry, all of them for more. */
    method Wake(notify: nat)
      requires Valid()
      modifies this`popSignals
      ensures Valid()
      ensures popSignals == old(popSignals) + if notify == 0 then [] else if notify == 1 then [One] else [All]
    {
      if notify == 1 {
        popSignals := popSignals + [One];
      } else if notify > 1 {
        popSignals := popSignals + [All];
      }
    }

    lemma KeysMatch()
      requires Valid()
      ensures msgMap.Keys == view.msgs.Keys
    {
      hide Inv, Linked;
    }

    // ----- The delay thread -----

    /** How long the delay thread is going to wait. */
    method CheckDelay(now: int) returns (p: DelayPhase)
      requires Valid()
      ensures p == CheckPhase(view, now)
    {
      DelayFacts(cfg, view);
      hide Inv;
      assert |msgDelay| > 0 ==> view.delay[0] in view.delay && Due(view.msgs, view.delay[0]) == msgDelay[0].ts;
      if |msgDelay| > 0 {
        p := if msgDelay[0].ts > now then Asleep(Some(msgDelay[0].ts)) else Awake;
      } else {
        p := Asleep(None);
      }
    }

    /** Moves the first delayed message to the serving end of its queue. */
    method ReleaseFirst(now: int)
      requires Filed() && Linked() && msgDelay != [] && OnlyDelayed(view, view.delay[0])
      modifies this`msgMap, this`queueList, this`countQueued, this`msgDelay, this`view, this`popSignals, msgMap.Values
      ensures Filed() && Linked() && msgMap == old(msgMap)
      ensures view == ReleasedState(old(view), now)
      ensures popSignals == old(popSignals) + [One]
    {
      hide Ready, Filed, Linked, PushBack;
      FirstOnFile();
      ghost var id := view.delay[0];
      ghost var w := view.msgs[id].(state := Queued, ts := now);
      var e := UnlinkFirst(now);
      hide OnlyDelayed;
      LinkedFromReady(id, e, w);
      PutInQueue(e.id, e.priority, e, false, true, w);
      assert old(msgMap)[id := e] == old(msgMap);
    }

    /** Erases the first element of the delay set, when its key has already been overwritten. */
    method UnlinkFirst(now: int) returns (e: MsgEntry)
      requires Filed() && Linked() && msgDelay != [] && OnlyDelayed(view, view.delay[0])
      modifies this`msgDelay, this`view, msgDelay[0]
      ensures var id := old(view).delay[0];
        && id in msgMap && msgMap[id] == e
        && view == old(view).(delay := old(view).delay[1..])
        && Ready(id, e, old(view).msgs[id].(state := Queued, ts := now))
    {
      NoDupTail(view.delay);
      hide NoDup;
      e := msgDelay[0];
      ghost var id := view.delay[0];
      e.state, e.ts := Queued, now;
      msgDelay := msgDelay[1..];
      view := view.(delay := view.delay[1..]);
      assert forall q :: InQueue(view, q, id) <==> InQueue(old(view), q, id);
    }

    lemma FirstOnFile()
      requires Linked() && msgDelay != []
      ensures view.delay != [] && view.delay[0] in msgMap && msgMap[view.delay[0]] == msgDelay[0]
    {
    }

    /** Releases the first delayed message, which is due. */
    method ReleaseNext(now: int)
      requires Valid() && FirstIsDue(view, now)
      modifies this`msgMap, this`queueList, this`countQueued, this`msgDelay, this`view, this`popSignals, msgMap.Values
      ensures Valid() && msgMap == old(msgMap)
      ensures AfterReleaseDue(cfg, view, now) == AfterReleaseDue(cfg, old(view), now)
      ensures |ReleaseDue(cfg, view, now)| + 1 == |ReleaseDue(cfg, old(view), now)|
      ensures |view.delay| == |old(view).delay| - 1
      ensures popSignals == old(popSignals) + [One]
    {
      hide Inv, Filed, Linked, OnlyDelayed, Do, FirstIsDue, ReleasedState;
      ReleaseStepStates(cfg, view, now);
      FirstDue(now);
      ReleaseUnfold(cfg, view, now);
      hide AfterReleaseDue, ReleaseDue;
      ReleaseFirst(now);
    }

    /** One release pass. */
    method ReleaseDelayed(now: int)
      requires Valid()
      modifies this, Entries()
      ensures Valid() && Entries() == old(Entries())
      ensures var a := DelayRelease(now);
        && view == After(cfg, old(view), a)
        && popSignals == old(popSignals) + Sent(Notifications(cfg, old(view), a))
        && delaySignals == old(delaySignals)
    {
      hide Valid, After, Do, FirstIsDue, Notifications, Sent, AfterReleaseDue, ReleaseDue;
      ReleaseIsAfter(cfg, view, now);
      ghost var start, released := view, 0;
      FirstDue(now);
      while |msgDelay| > 0 && msgDelay[0].ts <= now
        invariant Valid() && msgMap == old(msgMap) && msgPool == old(msgPool) && delaySignals == old(delaySignals)
        invariant AfterReleaseDue(cfg, view, now) == AfterReleaseDue(cfg, start, now)
        invariant released + |ReleaseDue(cfg, view, now)| == |ReleaseDue(cfg, start, now)|
        invariant popSignals == old(popSignals) + Ones(released)
        invariant |msgDelay| > 0 && msgDelay[0].ts <= now <==> FirstIsDue(view, now)
        decreases |view.delay|
      {
        ReleaseNext(now);
        released := released + 1;
        FirstDue(now);
      }
      NothingLeft(cfg, view, now);
    }

    lemma FirstDue(now: int)
      requires Valid()
      ensures msgDelay != [] && msgDelay[0].ts <= now <==> FirstIsDue(view, now)
    {
      DelayFacts(cfg, view);
      hide Inv;
      if msgDelay != [] { assert view.delay[0] in view.delay; }
    }

    // ----- The monitoring process -----

    method GetCounts() returns (active: int, failed: int, free: int)
      requires Valid()
      ensures failed == |FailedIds(view.msgs)|
      ensures active == |view.msgs| - |FailedIds(view.msgs)| == |view.msgs.Keys - FailedIds(view.msgs)|
      ensures free == cfg.capacity - |view.msgs| >= 0
    {
      MapSize();
      assert view.msgs.Keys == FailedIds(view.msgs) + (view.msgs.Keys - FailedIds(view.msgs));
      active, failed, free := |msgMap| - countFailed, countFailed, cfg.capacity - |msgMap|;
    }

    /** The ids of the failed messages, in the order of the map. */
    method GetFailed() returns (failed: seq<Id>)
      requires Valid()
      ensures failed == FailedList(view)
    {
      hide Valid, IsFailed;
      KeysMatch();
      var ids := Sorted(msgMap.Keys);
      failed := [];
      var i := 0;
      ghost var s := view;
      ghost var f := (id: Id) => IsFailed(s, id);
      while i < |ids|
        invariant i <= |ids| && Valid()
        invariant failed == Filter(ids[..i], f)
      {
        FilterNext(ids, i, f);
        hide Filter;
        FailedInView(ids[i]);
        if msgMap[ids[i]].state == Failed {
          failed := failed + [ids[i]];
        }
        i := i + 1;
      }
      assert ids[..|ids|] == ids;
      FilterCongruent(ids, f, id => IsFailed(s, id));
    }

    lemma FailedInView(id: Id)
      requires Valid()
      ensures id in msgMap && msgMap[id].state == Failed <==> IsFailed(view, id)
    {
      hide Inv, Linked;
    }

    /** Drops one failed message; `countFailed` is brought up to date after the loop. */
    method EraseOne(id: Id)
      requires Inv(cfg, view) && Filed() && Linked() && IsFailed(view, id)
      modifies this`msgMap, this`msgPool, this`view
      ensures Inv(cfg, view) && Filed() && Linked() && Entries() <= old(Entries())
      ensures view == Drop(old(view), id).(countFailed := old(view).countFailed - 1)
    {
      hide Inv, Do, NoDup, InQueue, Refs;
      EraseStepStates(cfg, view, id);
      LooseIsUnlinked(id);
      DropEntry(id);
      view := view.(countFailed := view.countFailed - 1);
      assert old(msgMap)[id] in old(msgMap).Values;
    }

    /** Removes the listed messages that are failed, and says which they were. */
    method EraseFailed(ids: seq<Id>) returns (failed: seq<Id>)
      requires Valid()
      modifies this
      ensures Valid() && fresh(Entries() - old(Entries()))
      ensures view == After(cfg, old(view), QueueSystem.EraseFailed(ids))
      ensures failed == Erased(cfg, old(view), ids)
      ensures popSignals == old(popSignals) && delaySignals == old(delaySignals)
    {
      EraseAfter(cfg, view, ids);
      hide Inv, After, Do, Linked, Filed, Entries;
      ghost var start := view;
      failed := [];
      var i := 0;
      while i < |ids|
        invariant i <= |ids| && Inv(cfg, view) && Filed() && Linked()
        invariant countFailed == view.countFailed + |failed|
        invariant AfterErase(cfg, view, ids[i..]) == AfterErase(cfg, start, ids)
        invariant failed + Erased(cfg, view, ids[i..]) == Erased(cfg, start, ids)
        invariant popSignals == old(popSignals) && delaySignals == old(delaySignals)
        invariant Entries() <= old(Entries())
      {
        assert ids[i..][1..] == ids[i + 1..];
        FiledState(ids[i]);
        if ids[i] in msgMap && msgMap[ids[i]].state == Failed {
          EraseStepStates(cfg, view, ids[i]);
          failed := failed + [ids[i]];
          EraseOne(ids[i]);
        }
        i := i + 1;
      }
      SettleCount(failed);
    }

    lemma FiledState(id: Id)
      requires Filed()
      ensures id in msgMap && msgMap[id].state == Failed <==> IsFailed(view, id)
    {
    }

    method SettleCount(failed: seq<Id>)
      requires Inv(cfg, view) && Filed() && Linked() && countFailed == view.countFailed + |failed|
      modifies this`countFailed
      ensures Valid()
    {
      countFailed := countFailed - |failed|;
    }
  }

  predicate FirstInDelay(s: State, id: Id) {
    s.delay != [] && s.delay[0] == id
  }

  function Admitted(s: State, id: Id, priority: nat, delay: nat, now: int): State {
    if delay != 0 then Postpone(Reuse(s), id, NewEntry(priority, now), now + Msec(delay))
    else PushFront(Reuse(s), id, NewEntry(priority, now), priority)
  }

  lemma PushStates(cfg: Config, s: State, id: Id, priority: nat, delay: nat, now: int)
    requires Inv(cfg, s)
    ensures var t := After(cfg, s, PushMsg(id, priority, delay, now));
      && Inv(cfg, t)
      && (PushError(cfg, s, id, priority).Some? ==> t == s)
      && (PushError(cfg, s, id, priority).None? ==>
            t == Admitted(s, id, priority, delay, now) && t.countFailed == s.countFailed)
  {
    hide Inv, After, Do, Admitted;
    var a := PushMsg(id, priority, delay, now);
    StepKeepsInv(cfg, s, a);
    AfterFew(cfg, s, a);
    if PushError(cfg, s, id, priority).None? { PushIsAdmitted(cfg, s, id, priority, delay, now); }
  }

  lemma PushIsAdmitted(cfg: Config, s: State, id: Id, priority: nat, delay: nat, now: int)
    requires Can(cfg, s, Micro.Push(id, priority, delay, now))
    ensures var t := Do(cfg, s, Micro.Push(id, priority, delay, now));
      t == Admitted(s, id, priority, delay, now) && t.countFailed == s.countFailed
  {
    hide UpperBound, Insert, SetQueue, At;
  }

  lemma PushSignals(cfg: Config, s: State, id: Id, priority: nat, delay: nat, now: int)
    ensures var a := PushMsg(id, priority, delay, now); var t := After(cfg, s, a);
      && (PushError(cfg, s, id, priority).Some? ==> Sent(Notifications(cfg, s, a)) == [] && !SignalsDelay(cfg, s, a))
      && (PushError(cfg, s, id, priority).None? ==>
            && Sent(Notifications(cfg, s, a)) == (if delay == 0 then [One] else [])
            && (SignalsDelay(cfg, s, a) <==> delay != 0 && FirstInDelay(t, id)))
  {
    hide After;
  }

  function PutBackState(s: State, id: Id, delay: nat, now: int): State
    requires id in s.msgs
  {
    var e := s.msgs[id].(boosted := false, token := "");
    if delay != 0 then Postpone(s, id, e, now + Msec(delay))
    else PushFront(s, id, e.(state := Queued, ts := now), e.priority)
  }

  lemma AckStates(cfg: Config, s: State, id: Id, token: string, requeue: bool, delay: nat, now: int)
    requires Inv(cfg, s)
    ensures var t := After(cfg, s, Ack(id, token, requeue, delay, now));
      && Inv(cfg, t)
      && (AckError(s, id, token).Some? ==> t == s)
      && (AckError(s, id, token).None? ==>
            t == (if requeue then PutBackState(s, id, delay, now) else Drop(s, id)) && t.countFailed == s.countFailed)
  {
    var a := Ack(id, token, requeue, delay, now);
    StepKeepsInv(cfg, s, a);
    hide Inv;
    AfterFew(cfg, s, a);
    hide After;
    if AckError(s, id, token).None? {
      PutBackIsDo(cfg, s, id, requeue, delay, now);
      hide Do, PutBackState;
    }
  }

  lemma PutBackIsDo(cfg: Config, s: State, id: Id, requeue: bool, delay: nat, now: int)
    requires id in s.msgs && s.msgs[id].state == Running
    ensures var t := Do(cfg, s, if requeue then Requeue(id, delay, now) else Finish(id));
      && t == (if requeue then PutBackState(s, id, delay, now) else Drop(s, id)) && t.countFailed == s.countFailed
  {
    hide UpperBound, Insert, SetQueue, At;
  }

  lemma AckSignals(cfg: Config, s: State, id: Id, token: string, requeue: bool, delay: nat, now: int)
    ensures var a := Ack(id, token, requeue, delay, now); var t := After(cfg, s, a);
      && (AckError(s, id, token).Some? ==> Sent(Notifications(cfg, s, a)) == [] && !SignalsDelay(cfg, s, a))
      && (AckError(s, id, token).None? ==>
            && Sent(Notifications(cfg, s, a)) == (if requeue && delay == 0 then [One] else [])
            && (SignalsDelay(cfg, s, a) <==> requeue && delay != 0 && FirstInDelay(t, id)))
  {
    hide After;
  }

  datatype PopResult = MustWait | Delivered(id: Id, token: string)

  function Taken(s: State, token: string, now: int): State
    requires Poppable(s)
  {
    var p, id := FirstNonEmpty(s.queues), Head(s);
    s.(msgs := s.msgs[id := s.msgs[id].(state := Running, ts := now, token := token)],
       queues := s.queues[p := s.queues[p][..|s.queues[p]| - 1]], countQueued := s.countQueued - 1)
  }

  lemma PopStates(cfg: Config, s: State, token: string, now: int)
    requires Inv(cfg, s)
    ensures var t := After(cfg, s, PopMsg(0, token, now));
      && Inv(cfg, t)
      && (s.countQueued == 0 ==> t == s)
      && (s.countQueued != 0 ==> Poppable(s) && t == Taken(s, token, now) && t.countFailed == s.countFailed)
  {
    StepKeepsInv(cfg, s, PopMsg(0, token, now));
    CountersAreHonest(cfg, s);
    hide Inv;
    AfterFew(cfg, s, PopMsg(0, token, now));
    hide After;
  }

  /** id is in the map, once in queue p, and nowhere else. */
  ghost predicate OnlyPlace(s: State, p: nat, id: Id) {
    && id in s.msgs && id !in s.delay && p < |s.queues| && NoDup(s.queues[p])
    && forall q :: InQueue(s, q, id) ==> q == p
  }

  lemma HeadPlace(cfg: Config, s: State)
    requires Inv(cfg, s) && Poppable(s)
    ensures OnlyPlace(s, FirstNonEmpty(s.queues), Head(s))
  {
    PlaceIsOnly(cfg, s, FirstNonEmpty(s.queues), Head(s));
  }

  lemma PlaceIsOnly(cfg: Config, s: State, p: nat, id: Id)
    requires Inv(cfg, s) && InQueue(s, p, id)
    ensures OnlyPlace(s, p, id)
  {
    QueuedNotDelayed(s, p, id);
  }

  lemma LastIsGone(s: State, p: nat)
    requires p < |s.queues| && s.queues[p] != []
    requires var q := s.queues[p]; OnlyPlace(s, p, q[|q| - 1])
    ensures var q := s.queues[p]; var last := |q| - 1;
      forall t: State, r :: t.queues == s.queues[p := q[..last]] ==> !InQueue(t, r, q[last])
  {
    var q := s.queues[p];
    var last := |q| - 1;
    assert q[last] !in q[..last];
    forall t: State, r | t.queues == s.queues[p := q[..last]] ensures !InQueue(t, r, q[last]) {
      assert r != p ==> !InQueue(s, r, q[last]);
    }
  }

  lemma AfterAckIsAck(cfg: Config, s: State, id: Id, token: string, requeue: bool, delay: nat, now: int)
    ensures After(cfg, s, Ack(id, token, requeue, delay, now)) == AfterAck(cfg, s, id, token, requeue, delay, now)
  {
    AfterFew(cfg, s, Ack(id, token, requeue, delay, now));
    hide Do, After;
  }

  lemma PopAckIsAckThenPop(cfg: Config, s: State, tid: Tid, id: Id, token: string, requeue: bool, delay: nat, now: int,
                           newToken: string, later: int)
    requires Inv(cfg, s)
    ensures var a := QueueSystem.PopAck(tid, id, token, requeue, delay, now, newToken, later);
      var ack := Ack(id, token, requeue, delay, now); var t := After(cfg, s, ack);
      && After(cfg, s, a) == (if AckError(s, id, token).Some? then s else After(cfg, t, PopMsg(0, newToken, later)))
      && Notifications(cfg, s, a) == Notifications(cfg, s, ack)
      && (SignalsDelay(cfg, s, a) <==> SignalsDelay(cfg, s, ack))
      && (AckError(s, id, token).None? ==> (FallsAsleep(cfg, s, a) != {} <==> t.countQueued == 0))
      && (AckError(s, id, token).Some? ==> t == s)
  {
    var a := QueueSystem.PopAck(tid, id, token, requeue, delay, now, newToken, later);
    var ack := Ack(id, token, requeue, delay, now);
    AfterAckIsAck(cfg, s, id, token, requeue, delay, now);
    PopAckStates(cfg, s, a);
    hide Inv, Do, After, AfterAck, DoAll;
  }

  lemma PopAckStates(cfg: Config, s: State, a: Action)
    requires Inv(cfg, s) && a.PopAck?
    ensures var t := After(cfg, s, Ack(a.id, a.token, a.requeue, a.delay, a.now)); var u := After(cfg, s, a);
      && (AckError(s, a.id, a.token).Some? ==> t == s && u == s)
      && (AckError(s, a.id, a.token).None? ==> u == After(cfg, t, PopMsg(0, a.newToken, a.later)) && u.delay == t.delay)
  {
    hide Inv, Do, DoAll, CanAll, After;
    var ack := Ack(a.id, a.token, a.requeue, a.delay, a.now);
    AfterAckIsAck(cfg, s, a.id, a.token, a.requeue, a.delay, a.now);
    StepKeepsInv(cfg, s, ack);
    var t := After(cfg, s, ack);
    if AckError(s, a.id, a.token).None? {
      hide AfterAck;
      PopAckParts(cfg, s, a);
      PopDelay(cfg, t, a.newToken, a.later);
      PopAfter(cfg, t, a.newToken, a.later);
    } else {
      AfterFew(cfg, s, a);
    }
  }

  lemma PopAfter(cfg: Config, s: State, token: string, now: int)
    ensures CanAll(cfg, s, PopSteps(s, token, now))
    ensures After(cfg, s, PopMsg(0, token, now)) == DoAll(cfg, s, PopSteps(s, token, now))
  {
    hide Do, DoAll, CanAll, PopSteps;
    StepsRun(cfg, s, PopMsg(0, token, now));
  }

  function Boosted(s: State, id: Id): State
    requires id in s.msgs
  {
    var e := s.msgs[id];
    PushFront(s.(queues := SetQueue(s.queues, e.priority, Remove(At(s.queues, e.priority), id)),
                 countQueued := s.countQueued - 1), id, e.(boosted := true), 0)
  }

  lemma BoostedParts(s: State, id: Id, p: nat)
    requires OnlyPlace(s, p, id) && p == s.msgs[id].priority
    ensures id in s.msgs && p < |s.queues|
    ensures var t := s.(queues := s.queues[p := Remove(s.queues[p], id)], countQueued := s.countQueued - 1);
      Boosted(s, id) == PushFront(t, id, s.msgs[id].(boosted := true), 0)
  {
    hide Remove, PushFront;
  }

  lemma RemovedIsGone(s: State, p: nat, id: Id)
    requires OnlyPlace(s, p, id)
    ensures forall t: State, r :: t.queues == s.queues[p := Remove(s.queues[p], id)] ==> !InQueue(t, r, id)
  {
    RemoveFacts(s.queues[p], id);
    forall t: State, r | t.queues == s.queues[p := Remove(s.queues[p], id)] ensures !InQueue(t, r, id) {
      assert r != p ==> !InQueue(s, r, id);
    }
  }

  lemma ScanStepStates(cfg: Config, s: State, id: Id, now: int)
    requires Inv(cfg, s) && id in s.msgs
    ensures var t, e := AfterScanStep(cfg, s, id, now), s.msgs[id];
      var w := e.(failCount := Increment8(e.failCount));
      && Inv(cfg, t) && e.priority < |s.queues|
      && (Retried(cfg, e, now) ==>
            t == PushFront(s, id, w.(state := Queued, token := ""), e.priority) && t.countFailed == s.countFailed)
      && (Expired(cfg, e, now) && !Retried(cfg, e, now) ==>
            t == s.(msgs := s.msgs[id := w.(state := Failed)], countFailed := s.countFailed + 1))
      && (Starving(cfg, e, now) ==>
            OnlyPlace(s, e.priority, id) && t == Boosted(s, id) && t.countFailed == s.countFailed)
      && (!Expired(cfg, e, now) && !Starving(cfg, e, now) ==> t == s)
  {
    ScanStepKeeps(cfg, s, id, now);
    EntryFacts(cfg, s, id);
    if Starving(cfg, s.msgs[id], now) {
      StarvingIsFound(cfg, s, id, now);
      PlaceIsOnly(cfg, s, s.msgs[id].priority, id);
      BoostIsBoosted(cfg, s, id, now);
    }
    hide Inv, OnlyPlace;
  }

  lemma BoostIsBoosted(cfg: Config, s: State, id: Id, now: int)
    requires Can(cfg, s, Boost(id, now))
    ensures Do(cfg, s, Boost(id, now)) == Boosted(s, id) && Boosted(s, id).countFailed == s.countFailed
  {
    BoostParts(cfg, s, Boost(id, now));
    hide Do, SetQueue, At;
    var e := s.msgs[id].(boosted := true);
    assert s.msgs[id := e.(state := Running)][id := e] == s.msgs[id := e];
  }

  lemma ScanIsAfter(cfg: Config, s: State, now: int)
    ensures After(cfg, s, QueueSystem.MonitorScan(now)) == AfterScan(cfg, s, Sorted(s.msgs.Keys), now)
    ensures var n := Retries(cfg, s, Sorted(s.msgs.Keys), now);
      Sent(Notifications(cfg, s, QueueSystem.MonitorScan(now))) == if n == 0 then [] else if n == 1 then [One] else [All]
  {
    ScanAfter(cfg, s, now);
    hide After, AfterScan, Retries;
  }

  /** id is in the map and in the delay set, and in no queue. */
  ghost predicate OnlyDelayed(s: State, id: Id) {
    && id in s.msgs && id in s.delay && NoDup(s.delay) && s.msgs[id].priority < |s.queues|
    && forall q :: !InQueue(s, q, id)
  }

  function ReleasedState(s: State, now: int): State
    requires s.delay != [] && s.delay[0] in s.msgs
  {
    var e := s.msgs[s.delay[0]].(state := Queued, ts := now);
    PushBack(s.(delay := s.delay[1..]), s.delay[0], e, e.priority)
  }

  lemma ReleaseStepStates(cfg: Config, s: State, now: int)
    requires Inv(cfg, s) && FirstIsDue(s, now)
    ensures s.delay != [] && OnlyDelayed(s, s.delay[0])
    ensures var t := Do(cfg, s, Release(now)); Inv(cfg, t) && t == ReleasedState(s, now) && t.countFailed == s.countFailed
    ensures |ReleasedState(s, now).delay| == |s.delay| - 1
  {
    hide Inv, Do, OnlyDelayed;
    MicroKeeps(cfg, s, Release(now));
    FirstIsDelayed(cfg, s);
    ReleaseIsReleased(cfg, s, now);
  }

  lemma FirstIsDelayed(cfg: Config, s: State)
    requires Inv(cfg, s) && s.delay != []
    ensures OnlyDelayed(s, s.delay[0])
  {
    DelayFacts(cfg, s);
    assert s.delay[0] in s.delay;
    EntryFacts(cfg, s, s.delay[0]);
    forall q | InQueue(s, q, s.delay[0]) ensures false { QueuedNotDelayed(s, q, s.delay[0]); }
    hide Inv;
  }

  lemma ReleaseIsReleased(cfg: Config, s: State, now: int)
    requires Can(cfg, s, Release(now))
    ensures Do(cfg, s, Release(now)) == ReleasedState(s, now)
    ensures ReleasedState(s, now).countFailed == s.countFailed && |ReleasedState(s, now).delay| == |s.delay| - 1
  {
    hide SetQueue, At;
    var id, e := s.delay[0], s.msgs[s.delay[0]].(state := Queued, ts := now);
    assert s.msgs[id := e][id := e] == s.msgs[id := e];
  }

  lemma ReleaseIsAfter(cfg: Config, s: State, now: int)
    ensures After(cfg, s, DelayRelease(now)) == AfterReleaseDue(cfg, s, now)
    ensures Sent(Notifications(cfg, s, DelayRelease(now))) == Ones(|ReleaseDue(cfg, s, now)|)
  {
    ReleaseAfter(cfg, s, now);
    hide After, ReleaseDue;
  }

  lemma EraseStepStates(cfg: Config, s: State, id: Id)
    requires Inv(cfg, s) && IsFailed(s, id)
    ensures var t := Do(cfg, s, Erase(id)); Inv(cfg, t) && t == Drop(s, id).(countFailed := s.countFailed - 1)
  {
    MicroKeeps(cfg, s, Erase(id));
    hide Inv;
  }

  lemma NothingLeft(cfg: Config, s: State, now: int)
    requires !FirstIsDue(s, now)
    ensures AfterReleaseDue(cfg, s, now) == s && ReleaseDue(cfg, s, now) == []
  {
  }

  lemma ReleaseUnfold(cfg: Config, s: State, now: int)
    requires FirstIsDue(s, now)
    ensures var t := Do(cfg, s, Release(now));
      && AfterReleaseDue(cfg, s, now) == AfterReleaseDue(cfg, t, now)
      && |ReleaseDue(cfg, s, now)| == 1 + |ReleaseDue(cfg, t, now)|
  {
    hide Do;
  }

  lemma ScanUnfold(cfg: Config, s: State, ids: seq<Id>, i: nat, now: int)
    requires i < |ids|
    ensures var t := AfterScanStep(cfg, s, ids[i], now);
      && AfterScan(cfg, s, ids[i..], now) == AfterScan(cfg, t, ids[i + 1..], now)
      && Retries(cfg, s, ids[i..], now) == Retries(cfg, t, ids[i + 1..], now) +
           (if ids[i] in s.msgs && Retried(cfg, s.msgs[ids[i]], now) then 1 else 0)
    ensures ids[i] in ids
  {
    hide AfterScanStep;
    assert ids[i..][1..] == ids[i + 1..];
  }

  lemma ScanDone(cfg: Config, s: State, ids: seq<Id>, now: int)
    requires ids == []
    ensures AfterScan(cfg, s, ids, now) == s && Retries(cfg, s, ids, now) == 0
  {
  }
}
