/** The order in which messages are served, and how long a message in the top queue waits. */
module QueueService {
  import opened Sequences
  import opened QueueModel
  import opened QueueInvariant
  import opened QueueSystem

  // ----- A run as one sequence of transitions -----

  function RunSteps(cfg: Config, x: Sys, run: seq<Step>): seq<Micro>
    decreases |run|
  {
    if run == [] then [] else Steps(cfg, x.q, run[0].0) + RunSteps(cfg, Next(cfg, x, run[0].0, run[0].1), run[1..])
  }

  lemma {:induction false} EventsConcat(cfg: Config, s: State, a: seq<Micro>, b: seq<Micro>)
    requires CanAll(cfg, s, a) && CanAll(cfg, DoAll(cfg, s, a), b)
    ensures CanAll(cfg, s, a + b)
    ensures Events(cfg, s, a + b) == Events(cfg, s, a) + Events(cfg, DoAll(cfg, s, a), b)
    decreases |a|
  {
    hide Do, EventOf;
    DoAllConcat(cfg, s, a, b);
    if a == [] {
      assert a + b == b;
    } else {
      var t, e := Do(cfg, s, a[0]), EventOf(s, a[0]);
      hide Can;
      assert (a + b)[1..] == a[1..] + b;
      EventsConcat(cfg, t, a[1..], b);
      Associative([e], Events(cfg, t, a[1..]), Events(cfg, DoAll(cfg, s, a), b));
    }
  }

  /** The log of a run is the events of its transitions. */
  lemma {:induction false} RunFlattens(cfg: Config, x: Sys, run: seq<Step>)
    ensures var ms := RunSteps(cfg, x, run);
      && CanAll(cfg, x.q, ms)
      && Final(cfg, x, run).q == DoAll(cfg, x.q, ms)
      && Final(cfg, x, run).log == x.log + Events(cfg, x.q, ms)
    decreases |run|
  {
    hide Do, Steps, Can, EventOf, NextPhase, Notifications, FallsAsleep;
    if run == [] {
      assert x.log + [] == x.log;
    } else {
      var y, ms := Next(cfg, x, run[0].0, run[0].1), Steps(cfg, x.q, run[0].0);
      StepsRun(cfg, x.q, run[0].0);
      RunFlattens(cfg, y, run[1..]);
      var rest := RunSteps(cfg, y, run[1..]);
      DoAllConcat(cfg, x.q, ms, rest);
      EventsConcat(cfg, x.q, ms, rest);
      Associative(x.log, Events(cfg, x.q, ms), Events(cfg, y.q, rest));
    }
  }

  // ----- Service order -----

  /** All queued messages, in the order in which pops alone would serve them. */
  function Service(qs: seq<seq<Id>>): seq<Id> {
    if qs == [] then [] else Reverse(qs[0]) + Service(qs[1..])
  }

  lemma ReverseLast(q: seq<Id>)
    requires q != []
    ensures Reverse(q) == [q[|q| - 1]] + Reverse(q[..|q| - 1])
  {
    var rest, last := q[..|q| - 1], [q[|q| - 1]];
    assert q == rest + last;
    ReverseConcat(rest, last);
    assert Reverse(last) == last;
  }

  lemma ServiceCons(q: seq<Id>, qs: seq<seq<Id>>)
    ensures Service([q] + qs) == Reverse(q) + Service(qs)
  {
    hide Reverse;
    assert ([q] + qs)[1..] == qs;
  }

  lemma ServiceSkips(qs: seq<seq<Id>>)
    ensures Service([[]] + qs) == Service(qs)
  {
    ServiceCons([], qs);
    hide Service;
    assert Reverse<Id>([]) == [];
  }

  lemma UpdateTail(qs: seq<seq<Id>>, p: nat, q: seq<Id>)
    requires p < |qs|
    ensures p == 0 ==> qs[p := q] == [q] + qs[1..]
    ensures p > 0 ==> qs[p := q] == [qs[0]] + qs[1..][p - 1 := q]
    ensures qs == [qs[0]] + qs[1..]
  {
  }

  lemma {:induction false} ServiceAfterPop(qs: seq<seq<Id>>)
    requires FirstNonEmpty(qs) < |qs|
    ensures var p := FirstNonEmpty(qs); var q := qs[p];
      Service(qs) == [q[|q| - 1]] + Service(qs[p := q[..|q| - 1]])
  {
    hide Service, Reverse;
    var p := FirstNonEmpty(qs);
    var rest := qs[p][..|qs[p]| - 1];
    UpdateTail(qs, p, rest);
    if p == 0 {
      ReverseLast(qs[0]);
      ServiceCons(qs[0], qs[1..]);
      ServiceCons(rest, qs[1..]);
      Associative([qs[0][|qs[0]| - 1]], Reverse(rest), Service(qs[1..]));
    } else {
      ServiceAfterPop(qs[1..]);
      ServiceSkips(qs[1..]);
      ServiceSkips(qs[1..][p - 1 := rest]);
    }
  }

  /** A pop serves the first message of the service order and leaves the rest of it in place. */
  lemma PopServesNext(cfg: Config, s: State, m: Micro)
    requires m.Pop? && Can(cfg, s, m)
    ensures Service(s.queues) == [Head(s)] + Service(Do(cfg, s, m).queues)
  {
    ServiceAfterPop(s.queues);
  }

  lemma {:induction false} ServiceConcat(a: seq<seq<Id>>, b: seq<seq<Id>>)
    ensures Service(a + b) == Service(a) + Service(b)
  {
    hide Reverse;
    if a == [] {
      assert a + b == b;
    } else {
      assert (a + b)[1..] == a[1..] + b && (a + b)[0] == a[0];
      ServiceConcat(a[1..], b);
      Associative(Reverse(a[0]), Service(a[1..]), Service(b));
    }
  }

  lemma ServiceOne(q: seq<Id>)
    ensures Service([q]) == Reverse(q)
  {
    assert [q][1..] == [];
    hide Reverse;
  }

  lemma ServiceSet(qs: seq<seq<Id>>, p: nat, q: seq<Id>)
    requires p < |qs|
    ensures Service(qs[p := q]) == Service(qs[..p]) + Reverse(q) + Service(qs[p + 1..])
  {
    assert qs[p := q] == qs[..p] + [q] + qs[p + 1..];
    hide Service, Reverse;
    ServiceConcat(qs[..p] + [q], qs[p + 1..]);
    ServiceConcat(qs[..p], [q]);
    ServiceOne(q);
  }

  lemma ServiceInsert(qs: seq<seq<Id>>, p: nat, id: Id)
    requires p < |qs|
    ensures Service(SetQueue(qs, p, [id] + qs[p])) == Service(qs[..p + 1]) + [id] + Service(qs[p + 1..])
    ensures Service(SetQueue(qs, p, qs[p] + [id])) == Service(qs[..p]) + [id] + Service(qs[p..])
  {
    ServiceSet(qs, p, [id] + qs[p]);
    ServiceSet(qs, p, qs[p] + [id]);
    ReverseConcat([id], qs[p]);
    ReverseConcat(qs[p], [id]);
    assert Reverse([id]) == [id];
    assert qs[..p + 1] == qs[..p] + [qs[p]] && qs[p..] == [qs[p]] + qs[p + 1..];
    hide Service, Reverse;
    ServiceConcat(qs[..p], [qs[p]]);
    ServiceConcat([qs[p]], qs[p + 1..]);
    ServiceOne(qs[p]);
    var a, r, z := Service(qs[..p]), Reverse(qs[p]), Service(qs[p + 1..]);
    Associative(a, r, [id]);
    Associative(a, [id], r);
    Associative(a + [id], r, z);
  }

  /** A message pushed without delay is served after everything of its own and higher priority. */
  lemma PushServedLast(cfg: Config, s: State, m: Micro)
    requires m.Push? && m.delay == 0 && Can(cfg, s, m)
    ensures Service(Do(cfg, s, m).queues) ==
      Service(s.queues[..m.priority + 1]) + [m.id] + Service(s.queues[m.priority + 1..])
  {
    ServiceInsert(s.queues, m.priority, m.id);
  }

  /** A message requeued without delay is served like a new one, and keeps nothing but its failure count. */
  lemma RequeuedServedLast(cfg: Config, s: State, m: Micro)
    requires m.Requeue? && m.delay == 0 && Can(cfg, s, m) && Inv(cfg, s)
    ensures var e, t := s.msgs[m.id], Do(cfg, s, m);
      && t.msgs == s.msgs[m.id := NewEntry(e.priority, m.now).(failCount := e.failCount)]
      && e.priority < |s.queues|
      && Service(t.queues) == Service(s.queues[..e.priority + 1]) + [m.id] + Service(s.queues[e.priority + 1..])
  {
    EntryFacts(cfg, s, m.id);
    hide Inv;
    ServiceInsert(s.queues, s.msgs[m.id].priority, m.id);
  }

  /** A retried message is served as late, but keeps the time it has waited since and whether it was boosted. */
  lemma RetriedServedLast(cfg: Config, s: State, m: Micro)
    requires m.Timeout? && Can(cfg, s, m) && Inv(cfg, s) && Increment8(s.msgs[m.id].failCount) != cfg.maxRetries
    ensures var e, t := s.msgs[m.id], Do(cfg, s, m);
      && t.msgs == s.msgs[m.id := Entry(e.priority, e.boosted, Increment8(e.failCount), Queued, e.ts, "")]
      && e.priority < |s.queues|
      && Service(t.queues) == Service(s.queues[..e.priority + 1]) + [m.id] + Service(s.queues[e.priority + 1..])
  {
    EntryFacts(cfg, s, m.id);
    hide Inv;
    ServiceInsert(s.queues, s.msgs[m.id].priority, m.id);
  }

  /** A boosted message is served after everything in the top queue, and what is left keeps its order. */
  lemma BoostedServedAfterTop(cfg: Config, s: State, m: Micro)
    requires m.Boost? && Can(cfg, s, m)
    ensures var p, t := s.msgs[m.id].priority, Do(cfg, s, m);
      && t.msgs == s.msgs[m.id := s.msgs[m.id].(boosted := true)]
      && Service(t.queues) == Service(s.queues[..1]) + [m.id] + Service(s.queues[1..][p - 1 := Remove(s.queues[p], m.id)])
  {
    var p := s.msgs[m.id].priority;
    var qs := s.queues[p := Remove(s.queues[p], m.id)];
    assert qs[..1] == s.queues[..1] && qs[1..] == s.queues[1..][p - 1 := Remove(s.queues[p], m.id)];
    ServiceInsert(qs, 0, m.id);
  }

  /** A message whose delay has passed is served before everything of its own priority. */
  lemma ReleasedServedFirst(cfg: Config, s: State, m: Micro)
    requires m.Release? && Can(cfg, s, m) && Inv(cfg, s)
    ensures s.msgs[s.delay[0]].priority < |s.queues|
    ensures var p := s.msgs[s.delay[0]].priority;
      Service(Do(cfg, s, m).queues) == Service(s.queues[..p]) + [s.delay[0]] + Service(s.queues[p..])
  {
    EntryFacts(cfg, s, s.delay[0]);
    hide Inv;
    ReleaseParts(cfg, s, m);
    hide Do;
    ServiceInsert(s.queues, s.msgs[s.delay[0]].priority, s.delay[0]);
  }

  /** The messages popped, in order. */
  function PoppedIds(es: seq<Event>): seq<Id> {
    if es == [] then [] else (if es[0].Popped? then [es[0].id] else []) + PoppedIds(es[1..])
  }

  lemma PoppedFirst(e: Event, es: seq<Event>)
    requires e.Popped?
    ensures PoppedIds([e] + es) == [e.id] + PoppedIds(es)
  {
    assert ([e] + es)[1..] == es;
  }

  /** Undisturbed, consumers drain the queues in service order: by priority, and within a queue from the back. */
  lemma {:induction false} DrainFollowsService(cfg: Config, s: State, ms: seq<Micro>)
    requires CanAll(cfg, s, ms) && forall m :: m in ms ==> m.Pop?
    ensures Service(s.queues) == PoppedIds(Events(cfg, s, ms)) + Service(DoAll(cfg, s, ms).queues)
    decreases |ms|
  {
    if ms != [] {
      assert ms[0] in ms && forall m :: m in ms[1..] ==> m in ms;
      PopServesNext(cfg, s, ms[0]);
      hide Service, FirstNonEmpty, Do, Can;
      var t := Do(cfg, s, ms[0]);
      DrainFollowsService(cfg, t, ms[1..]);
      PoppedFirst(EventOf(s, ms[0]), Events(cfg, t, ms[1..]));
      Associative([Head(s)], PoppedIds(Events(cfg, t, ms[1..])), Service(DoAll(cfg, t, ms[1..]).queues));
    }
  }

  // ----- Waiting in the top queue -----

  /** How many entries lie between a message and the serving end of its queue. */
  function Behind(q: seq<Id>, id: Id): nat {
    if q == [] || q[|q| - 1] == id then 0 else 1 + Behind(q[..|q| - 1], id)
  }

  lemma {:induction false} BehindFront(q: seq<Id>, id: Id, x: Id)
    requires id in q
    ensures Behind([x] + q, id) == Behind(q, id)
  {
    var last := |q| - 1;
    assert q == q[..last] + [q[last]];
    if q[last] != id {
      BehindFront(q[..last], id, x);
      assert ([x] + q)[..last + 1] == [x] + q[..last];
    }
  }

  lemma BehindBack(q: seq<Id>, id: Id, x: Id)
    requires x != id
    ensures Behind(q + [x], id) == Behind(q, id) + 1
  {
    assert (q + [x])[..|q|] == q;
  }

  predicate IsPopOf(e: Event, id: Id) { e.Popped? && e.id == id }

  predicate IsTopRelease(e: Event) { e.Released? && e.priority == 0 }

  ghost predicate WaitChange(s: State, t: State, e: Event, id: Id)
    requires InQueue(s, 0, id)
  {
    if IsPopOf(e, id) then Behind(s.queues[0], id) == 0
    else InQueue(t, 0, id) && Behind(t.queues[0], id) + (if e.Popped? then 1 else 0) ==
                                Behind(s.queues[0], id) + (if IsTopRelease(e) then 1 else 0)
  }

  lemma WaitInsert(cfg: Config, s: State, m: Micro, id: Id)
    requires m.Push? || m.Requeue? || m.Timeout?
    requires Can(cfg, s, m) && InQueue(s, 0, id)
    ensures WaitChange(s, Do(cfg, s, m), EventOf(s, m), id)
  {
    hide UpperBound, Insert;
    BehindFront(s.queues[0], id, m.id);
    hide Behind;
  }

  lemma WaitPop(cfg: Config, s: State, m: Micro, id: Id)
    requires m.Pop? && Can(cfg, s, m) && InQueue(s, 0, id)
    ensures WaitChange(s, Do(cfg, s, m), EventOf(s, m), id)
  {
    var q := s.queues[0];
    assert q == q[..|q| - 1] + [q[|q| - 1]];
  }

  lemma WaitBoost(cfg: Config, s: State, m: Micro, id: Id)
    requires m.Boost? && Can(cfg, s, m) && InQueue(s, 0, id)
    ensures WaitChange(s, Do(cfg, s, m), EventOf(s, m), id)
  {
    hide Behind, Remove;
    BehindFront(s.queues[0], id, m.id);
  }

  lemma WaitRelease(cfg: Config, s: State, m: Micro, id: Id)
    requires m.Release? && Can(cfg, s, m) && InQueue(s, 0, id) && id != s.delay[0]
    ensures WaitChange(s, Do(cfg, s, m), EventOf(s, m), id)
  {
    hide Behind;
    BehindBack(s.queues[0], id, s.delay[0]);
  }

  /** What one transition does to the wait of a message in the top queue. */
  lemma WaitStep(cfg: Config, s: State, m: Micro, id: Id)
    requires Inv(cfg, s) && Can(cfg, s, m) && InQueue(s, 0, id)
    ensures WaitChange(s, Do(cfg, s, m), EventOf(s, m), id)
  {
    match m {
      case Pop(_, _) => WaitPop(cfg, s, m, id);
      case Release(_) => QueuedNotDelayed(s, 0, id); WaitRelease(cfg, s, m, id);
      case Boost(_, _) => WaitBoost(cfg, s, m, id);
      case Finish(_) => hide Inv;
      case Erase(_) => hide Inv;
      case _ => WaitInsert(cfg, s, m, id);
    }
  }

  predicate Taken(es: seq<Event>, id: Id) {
    exists i :: 0 <= i < |es| && IsPopOf(es[i], id)
  }

  /** Pops before the message is popped; all of them if it is not. */
  function PopsBefore(es: seq<Event>, id: Id): nat {
    if es == [] || IsPopOf(es[0], id) then 0 else (if es[0].Popped? then 1 else 0) + PopsBefore(es[1..], id)
  }

  /** Delayed messages released into the top queue before the message is popped. */
  function TopReleasesBefore(es: seq<Event>, id: Id): nat {
    if es == [] || IsPopOf(es[0], id) then 0 else (if IsTopRelease(es[0]) then 1 else 0) + TopReleasesBefore(es[1..], id)
  }

  /** The events take a message with k entries behind it after k + r pops, or leave it with k + r less the pops behind it. */
  ghost predicate Waited(es: seq<Event>, id: Id, k: nat, end: State) {
    if Taken(es, id) then PopsBefore(es, id) == k + TopReleasesBefore(es, id)
    else InQueue(end, 0, id) && PopsBefore(es, id) + Behind(end.queues[0], id) == k + TopReleasesBefore(es, id)
  }

  lemma {:induction false} WaitAll(cfg: Config, s: State, ms: seq<Micro>, id: Id)
    requires Inv(cfg, s) && CanAll(cfg, s, ms) && InQueue(s, 0, id)
    ensures Waited(Events(cfg, s, ms), id, Behind(s.queues[0], id), DoAll(cfg, s, ms))
    decreases |ms|
  {
    hide Inv, Do, EventOf, Behind;
    if ms != [] {
      var es, t, e := Events(cfg, s, ms), Do(cfg, s, ms[0]), EventOf(s, ms[0]);
      WaitStep(cfg, s, ms[0], id);
      MicroKeeps(cfg, s, ms[0]);
      assert es[0] == e && es[1..] == Events(cfg, t, ms[1..]);
      if !IsPopOf(e, id) {
        WaitAll(cfg, t, ms[1..], id);
        if i :| 0 <= i < |es| && IsPopOf(es[i], id) { assert IsPopOf(es[1..][i - 1], id); }
        if i :| 0 <= i < |es[1..]| && IsPopOf(es[1..][i], id) { assert IsPopOf(es[i + 1], id); }
      }
    }
  }

  /**
   * In any run from any state the queue can be in: a message in the top queue with
   * k entries between it and the back is taken by pop number k + r + 1 exactly, r
   * being the number of delayed messages released to priority 0 meanwhile. Pushes,
   * requeues, retries and boosts never delay it. Until it is taken it stays there.
   */
  lemma TopQueueWait(cfg: Config, x: Sys, run: seq<Step>, id: Id)
    requires Inv(cfg, x.q) && InQueue(x.q, 0, id)
    ensures |x.log| <= |Final(cfg, x, run).log|
    ensures Waited(Final(cfg, x, run).log[|x.log|..], id, Behind(x.q.queues[0], id), Final(cfg, x, run).q)
  {
    hide Inv, Final, Waited, Behind;
    RunFlattens(cfg, x, run);
    WaitAll(cfg, x.q, RunSteps(cfg, x, run), id);
    var es := Events(cfg, x.q, RunSteps(cfg, x, run));
    assert (x.log + es)[|x.log|..] == es;
  }
}
