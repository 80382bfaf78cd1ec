/** When a message overtakes another in a queue, and how long a starving message waits. */
module QueueOrder {
  import opened Sequences
  import opened Keys
  import opened QueueModel
  import opened QueueInvariant
  import opened QueueScans
  import opened QueueSystem
  import opened QueueService

  // ----- Overtaking -----

  /** y stands nearer to the serving end than id. */
  ghost predicate Ahead(q: seq<Id>, id: Id, y: Id) {
    exists i, j :: 0 <= i < j < |q| && q[i] == id && q[j] == y
  }

  /** Something that was not ahead of id in queue p before is ahead of it now. */
  ghost predicate Overtakes(s: State, t: State, p: nat, id: Id)
    requires p < |s.queues| && p < |t.queues|
  {
    exists y :: Ahead(t.queues[p], id, y) && !Ahead(s.queues[p], id, y)
  }

  predicate IsReleaseTo(e: Event, p: nat) { e.Released? && e.priority == p }

  lemma AheadBehindFront(q: seq<Id>, x: Id, id: Id, y: Id)
    requires Ahead([x] + q, id, y) && x != id
    ensures Ahead(q, id, y)
  {
    var i, j :| 0 <= i < j < |[x] + q| && ([x] + q)[i] == id && ([x] + q)[j] == y;
    assert q[i - 1] == id && q[j - 1] == y;
  }

  lemma AheadPrefix(q: seq<Id>, n: nat, id: Id, y: Id)
    requires n <= |q| && Ahead(q[..n], id, y)
    ensures Ahead(q, id, y)
  {
    var i, j :| 0 <= i < j < |q[..n]| && q[..n][i] == id && q[..n][j] == y;
    assert q[i] == id && q[j] == y;
  }

  lemma AheadOfHead(x: Id, q: seq<Id>, id: Id, y: Id)
    ensures Ahead([x] + q, id, y) <==> (x == id && y in q) || Ahead(q, id, y)
  {
    var r := [x] + q;
    if i, j :| 0 <= i < j < |r| && r[i] == id && r[j] == y {
      assert q[j - 1] == y;
      if i > 0 { assert q[i - 1] == id; }
    }
    if x == id && y in q {
      var j :| 0 <= j < |q| && q[j] == y;
      assert r[0] == id && r[j + 1] == y;
    }
    if i, j :| 0 <= i < j < |q| && q[i] == id && q[j] == y {
      assert r[i + 1] == id && r[j + 1] == y;
    }
  }

  lemma {:induction false} AheadRemove(q: seq<Id>, x: Id, id: Id, y: Id)
    requires Ahead(Remove(q, x), id, y)
    ensures Ahead(q, id, y)
  {
    if q != [] {
      hide Ahead;
      assert q == [q[0]] + q[1..];
      AheadOfHead(q[0], q[1..], id, y);
      if q[0] != x {
        AheadOfHead(q[0], Remove(q[1..], x), id, y);
        RemoveMembers(q[1..], x, y);
        if Ahead(Remove(q[1..], x), id, y) { AheadRemove(q[1..], x, id, y); }
      }
    }
  }

  lemma {:induction false} RemoveMembers(q: seq<Id>, x: Id, y: Id)
    requires y in Remove(q, x)
    ensures y in q
  {
    if q != [] && q[0] != x && y in Remove(q[1..], x) { RemoveMembers(q[1..], x, y); }
  }

  /** Unless a message is released into it, a queue changes only by additions at its front and by removals. */
  ghost predicate Trimmed(q: seq<Id>, r: seq<Id>, id: Id) {
    || r == q
    || (exists x :: x != id && r == [x] + q)
    || (exists n :: 0 <= n <= |q| && r == q[..n])
    || (exists x :: r == Remove(q, x))
  }

  lemma TrimmedKeeps(q: seq<Id>, r: seq<Id>, id: Id, y: Id)
    requires Trimmed(q, r, id) && Ahead(r, id, y)
    ensures Ahead(q, id, y)
  {
    hide Ahead, Remove;
    if r == q {
    } else if x :| x != id && r == [x] + q {
      AheadBehindFront(q, x, id, y);
    } else if n :| 0 <= n <= |q| && r == q[..n] {
      AheadPrefix(q, n, id, y);
    } else if x :| r == Remove(q, x) {
      AheadRemove(q, x, id, y);
    }
  }

  lemma StepTrims(cfg: Config, s: State, m: Micro, p: nat, id: Id)
    requires Can(cfg, s, m) && InQueue(s, p, id) && id in s.msgs && s.msgs[id].state == Queued
    requires forall r :: InQueue(s, r, id) ==> r == p
    requires InQueue(Do(cfg, s, m), p, id) && !IsReleaseTo(EventOf(s, m), p)
    ensures Trimmed(s.queues[p], Do(cfg, s, m).queues[p], id)
  {
    hide UpperBound, Insert, Remove;
    var q, r := s.queues[p], Do(cfg, s, m).queues[p];
    match m {
      case Push(x, _, _, _) => assert r == q || (x != id && r == [x] + q);
      case Requeue(x, _, _) => assert r == q || (x != id && r == [x] + q);
      case Timeout(x, _) => assert r == q || (x != id && r == [x] + q);
      case Pop(_, _) => assert r == q || r == q[..|q| - 1];
      case Boost(x, _) => BoostTrims(cfg, s, m, p, id);
      case _ => assert r == q;
    }
  }

  lemma BoostTrims(cfg: Config, s: State, m: Micro, p: nat, id: Id)
    requires m.Boost? && Can(cfg, s, m) && p < |s.queues|
    ensures var q, r := s.queues[p], Do(cfg, s, m).queues[p];
      r == q || r == [m.id] + q || r == Remove(q, m.id)
  {
    hide Remove;
  }

  lemma ReleaseOvertakes(cfg: Config, s: State, m: Micro, p: nat, id: Id)
    requires Inv(cfg, s) && Can(cfg, s, m) && InQueue(s, p, id) && IsReleaseTo(EventOf(s, m), p)
    ensures p < |Do(cfg, s, m).queues| && Overtakes(s, Do(cfg, s, m), p, id)
  {
    var q, x := s.queues[p], s.delay[0];
    DelayFacts(cfg, s);
    QueueFacts(cfg, s, p);
    hide Inv;
    var r := Do(cfg, s, m).queues[p];
    assert x in s.delay;
    assert r == q + [x];
    var i :| 0 <= i < |q| && q[i] == id;
    assert r[i] == id && r[|q|] == x;
    assert Ahead(r, id, x);
    assert x !in q;
    assert !Ahead(q, id, x);
  }

  lemma OnePlace(cfg: Config, s: State, p: nat, id: Id)
    requires Inv(cfg, s) && InQueue(s, p, id)
    ensures forall r :: InQueue(s, r, id) ==> r == p
  {
  }

  /**
   * While a message stays in its queue, a step puts something ahead of it that was not
   * ahead before exactly if the step releases a delayed message into that queue.
   */
  lemma OvertakingStep(cfg: Config, s: State, m: Micro, p: nat, id: Id)
    requires Inv(cfg, s) && Can(cfg, s, m) && InQueue(s, p, id) && InQueue(Do(cfg, s, m), p, id)
    ensures Overtakes(s, Do(cfg, s, m), p, id) <==> IsReleaseTo(EventOf(s, m), p)
  {
    OnePlace(cfg, s, p, id);
    hide Inv, Do, Ahead, EventOf, Trimmed, Can;
    QueueFacts(cfg, s, p);
    if IsReleaseTo(EventOf(s, m), p) {
      ReleaseOvertakes(cfg, s, m, p, id);
    } else {
      StepTrims(cfg, s, m, p, id);
      forall y | Ahead(Do(cfg, s, m).queues[p], id, y) ensures Ahead(s.queues[p], id, y) {
        TrimmedKeeps(s.queues[p], Do(cfg, s, m).queues[p], id, y);
      }
    }
  }

  // ----- Overtaking in a run -----

  /** The message is in queue p before the first of the transitions and after each of them. */
  ghost predicate StaysIn(cfg: Config, s: State, ms: seq<Micro>, p: nat, id: Id)
    requires CanAll(cfg, s, ms)
    decreases |ms|
  {
    InQueue(s, p, id) && (ms != [] ==> StaysIn(cfg, Do(cfg, s, ms[0]), ms[1..], p, id))
  }

  /** One of the transitions puts something ahead of the message that was not ahead of it before. */
  ghost predicate IsOvertaken(cfg: Config, s: State, ms: seq<Micro>, p: nat, id: Id)
    requires CanAll(cfg, s, ms) && StaysIn(cfg, s, ms, p, id)
    decreases |ms|
  {
    ms != [] && (Overtakes(s, Do(cfg, s, ms[0]), p, id) || IsOvertaken(cfg, Do(cfg, s, ms[0]), ms[1..], p, id))
  }

  predicate HasReleaseTo(es: seq<Event>, p: nat) {
    exists i :: 0 <= i < |es| && IsReleaseTo(es[i], p)
  }

  lemma HasReleaseCons(e: Event, es: seq<Event>, p: nat)
    ensures HasReleaseTo([e] + es, p) <==> IsReleaseTo(e, p) || HasReleaseTo(es, p)
  {
    var all := [e] + es;
    assert all[0] == e && all[1..] == es;
    if i :| 0 <= i < |es| && IsReleaseTo(es[i], p) { assert IsReleaseTo(all[i + 1], p); }
    if i :| 0 <= i < |all| && IsReleaseTo(all[i], p) {
      if i > 0 { assert IsReleaseTo(es[i - 1], p); }
    }
    if IsReleaseTo(e, p) { assert IsReleaseTo(all[0], p); }
  }

  lemma {:induction false} OvertakingAll(cfg: Config, s: State, ms: seq<Micro>, p: nat, id: Id)
    requires Inv(cfg, s) && CanAll(cfg, s, ms) && StaysIn(cfg, s, ms, p, id)
    ensures IsOvertaken(cfg, s, ms, p, id) <==> HasReleaseTo(Events(cfg, s, ms), p)
    decreases |ms|
  {
    hide Inv, Do, EventOf, Overtakes, InQueue, IsReleaseTo, HasReleaseTo;
    NoRelease(p);
    if ms != [] {
      var t := Do(cfg, s, ms[0]);
      OvertakingStep(cfg, s, ms[0], p, id);
      MicroKeeps(cfg, s, ms[0]);
      OvertakingAll(cfg, t, ms[1..], p, id);
      HasReleaseCons(EventOf(s, ms[0]), Events(cfg, t, ms[1..]), p);
    }
  }

  lemma NoRelease(p: nat)
    ensures !HasReleaseTo([], p)
  {
  }

  /**
   * In any run from any state the queue can be in: while a message waits in queue p,
   * something gets ahead of it exactly if a delayed message is released into p.
   */
  lemma OvertakenExactly(cfg: Config, x: Sys, run: seq<Step>, p: nat, id: Id)
    requires Inv(cfg, x.q)
    ensures CanAll(cfg, x.q, RunSteps(cfg, x, run)) && |x.log| <= |Final(cfg, x, run).log|
    ensures StaysIn(cfg, x.q, RunSteps(cfg, x, run), p, id) ==>
      (IsOvertaken(cfg, x.q, RunSteps(cfg, x, run), p, id) <==> HasReleaseTo(Final(cfg, x, run).log[|x.log|..], p))
  {
    hide Inv, Final, StaysIn, IsOvertaken, HasReleaseTo;
    RunFlattens(cfg, x, run);
    var ms := RunSteps(cfg, x, run);
    var es := Events(cfg, x.q, ms);
    assert (x.log + es)[|x.log|..] == es;
    if StaysIn(cfg, x.q, ms, p, id) { OvertakingAll(cfg, x.q, ms, p, id); }
  }

  // ----- Without delays -----

  /** The transition gives no delay to a message of priority p. */
  predicate IsPrompt(s: State, m: Micro, p: nat) {
    match m
    case Push(_, priority, delay, _) => priority == p ==> delay == 0
    case Requeue(id, delay, _) => id in s.msgs && s.msgs[id].priority == p ==> delay == 0
    case _ => true
  }

  ghost predicate AllPrompt(cfg: Config, s: State, ms: seq<Micro>, p: nat)
    requires CanAll(cfg, s, ms)
    decreases |ms|
  {
    ms != [] ==> IsPrompt(s, ms[0], p) && AllPrompt(cfg, Do(cfg, s, ms[0]), ms[1..], p)
  }

  ghost predicate NoneDelayed(s: State, p: nat) {
    forall id :: id in s.msgs && s.msgs[id].state == Delayed ==> s.msgs[id].priority != p
  }

  lemma PromptKeepsNone(cfg: Config, s: State, m: Micro, p: nat)
    requires Can(cfg, s, m) && NoneDelayed(s, p) && IsPrompt(s, m, p)
    ensures NoneDelayed(Do(cfg, s, m), p)
  {
    hide UpperBound, Insert, Remove, SetQueue, At, Head, Poppable, FirstNonEmpty;
  }

  lemma NothingReleased(cfg: Config, s: State, m: Micro, p: nat)
    requires Inv(cfg, s) && Can(cfg, s, m) && NoneDelayed(s, p)
    ensures !IsReleaseTo(EventOf(s, m), p)
  {
    DelayFacts(cfg, s);
    hide Inv, NoDup, SortedByDue, Head, Poppable, FirstNonEmpty;
    if m.Release? { assert s.delay[0] in s.delay; }
  }

  lemma {:induction false} PromptAll(cfg: Config, s: State, ms: seq<Micro>, p: nat)
    requires Inv(cfg, s) && CanAll(cfg, s, ms) && NoneDelayed(s, p) && AllPrompt(cfg, s, ms, p)
    ensures !HasReleaseTo(Events(cfg, s, ms), p)
    decreases |ms|
  {
    hide Inv, Do, EventOf, NoneDelayed, IsPrompt, IsReleaseTo, HasReleaseTo;
    NoRelease(p);
    if ms != [] {
      var t := Do(cfg, s, ms[0]);
      PromptKeepsNone(cfg, s, ms[0], p);
      NothingReleased(cfg, s, ms[0], p);
      MicroKeeps(cfg, s, ms[0]);
      PromptAll(cfg, t, ms[1..], p);
      HasReleaseCons(EventOf(s, ms[0]), Events(cfg, t, ms[1..]), p);
    }
  }

  lemma {:induction false} NeverOvertaken(cfg: Config, s: State, ms: seq<Micro>, p: nat, id: Id)
    requires CanAll(cfg, s, ms) && StaysIn(cfg, s, ms, p, id) && !IsOvertaken(cfg, s, ms, p, id)
    ensures var t := DoAll(cfg, s, ms);
      InQueue(t, p, id) && forall y :: Ahead(t.queues[p], id, y) ==> Ahead(s.queues[p], id, y)
    decreases |ms|
  {
    hide Do, Ahead;
    if ms != [] { NeverOvertaken(cfg, Do(cfg, s, ms[0]), ms[1..], p, id); }
  }

  /**
   * First in, first out: as long as no message of priority p is delayed, what stands
   * ahead of a message that waits in queue p was ahead of it all the time.
   */
  lemma FirstInFirstOut(cfg: Config, x: Sys, run: seq<Step>, p: nat, id: Id)
    requires Inv(cfg, x.q) && NoneDelayed(x.q, p)
    requires CanAll(cfg, x.q, RunSteps(cfg, x, run)) && StaysIn(cfg, x.q, RunSteps(cfg, x, run), p, id)
    requires AllPrompt(cfg, x.q, RunSteps(cfg, x, run), p)
    ensures var t := Final(cfg, x, run).q;
      && InQueue(x.q, p, id) && InQueue(t, p, id)
      && forall y :: Ahead(t.queues[p], id, y) ==> Ahead(x.q.queues[p], id, y)
  {
    hide Inv, Final, IsOvertaken, HasReleaseTo, Ahead, NoneDelayed, AllPrompt, DoAll;
    RunFlattens(cfg, x, run);
    var ms := RunSteps(cfg, x, run);
    PromptAll(cfg, x.q, ms, p);
    OvertakingAll(cfg, x.q, ms, p, id);
    NeverOvertaken(cfg, x.q, ms, p, id);
  }

  // ----- Starving messages -----

  lemma {:induction false} FilterHas(q: seq<Id>, f: Id -> bool, id: Id)
    requires id in q && f(id)
    ensures id in Filter(q, f)
  {
    if q[0] != id { FilterHas(q[1..], f, id); }
  }

  lemma {:induction false} ReverseHas(q: seq<Id>, id: Id)
    requires id in q
    ensures id in Reverse(q)
  {
    if q[0] != id { ReverseHas(q[1..], id); }
  }

  /** A scan moves every starving message into the top queue. */
  lemma StarvingIsBoosted(cfg: Config, s: State, now: int, id: Id)
    requires Inv(cfg, s) && id in s.msgs && s.msgs[id].state == Queued && s.msgs[id].priority > 0 && !s.msgs[id].boosted
    requires s.msgs[id].ts + 1000000 * cfg.boostTimeout < now
    ensures InQueue(After(cfg, s, MonitorScan(now)), 0, id)
  {
    hide Inv, Starving, AfterScan, After, Scanned, Sorted;
    StarvedLongEnough(cfg, s.msgs[id], now);
    EntryFacts(cfg, s, id);
    TopQueueAfterScan(cfg, s, now);
    StarvingJoins(cfg, s, Sorted(s.msgs.Keys), now, id);
  }

  lemma StarvedLongEnough(cfg: Config, e: Entry, now: int)
    requires e.state == Queued && e.priority > 0 && !e.boosted && e.ts + 1000000 * cfg.boostTimeout < now
    ensures Starving(cfg, e, now)
  {
  }

  lemma TopQueueAfterScan(cfg: Config, s: State, now: int)
    requires Inv(cfg, s) && s.queues != []
    ensures var t := After(cfg, s, MonitorScan(now));
      t.queues != [] && t.queues[0] == Scanned(cfg, s, Sorted(s.msgs.Keys), now, 0)
  {
    hide Inv, AfterScan, After, Scanned, Sorted, FailedIds, ScanEntry, NoDup;
    ScanAfter(cfg, s, now);
    SortedNoDup(s.msgs.Keys);
    ScanPointwise(cfg, s, Sorted(s.msgs.Keys), now);
  }

  lemma StarvingJoins(cfg: Config, s: State, order: seq<Id>, now: int, id: Id)
    requires id in order && id in s.msgs && Starving(cfg, s.msgs[id], now) && s.queues != []
    ensures id in Scanned(cfg, s, order, now, 0)
  {
    var f := Joining(cfg, s.msgs, now, 0);
    FilterHas(order, f, id);
    hide Filter, Reverse;
    ReverseHas(Filter(order, f), id);
  }

  /**
   * A message that has been waiting unboosted for longer than the boost timeout is in
   * the top queue after the next scan, and from there on, in whatever run, it is taken
   * by pop number k + r + 1 exactly: k entries are between it and the back, and r
   * delayed messages are released to priority 0 meanwhile.
   */
  lemma StarvingIsServed(cfg: Config, x: Sys, now: int, wake: set<Tid>, run: seq<Step>, id: Id)
    requires Inv(cfg, x.q) && id in x.q.msgs
    requires var e := x.q.msgs[id];
      e.state == Queued && e.priority > 0 && !e.boosted && e.ts + 1000000 * cfg.boostTimeout < now
    ensures var y := Next(cfg, x, MonitorScan(now), wake);
      && InQueue(y.q, 0, id) && |y.log| <= |Final(cfg, y, run).log|
      && Waited(Final(cfg, y, run).log[|y.log|..], id, Behind(y.q.queues[0], id), Final(cfg, y, run).q)
  {
    hide Inv, Final, Waited, Behind, After;
    StarvingIsBoosted(cfg, x.q, now, id);
    StepKeepsInv(cfg, x.q, MonitorScan(now));
    TopQueueWait(cfg, Next(cfg, x, MonitorScan(now), wake), run, id);
  }
}
