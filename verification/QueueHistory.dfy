/**
 * The queue's fields against its history: retry limits, leases and the
 * conservation of deliveries, over every run.
 */
module QueueHistory {
  import opened Sequences
  import opened QueueModel
  import opened QueueInvariant
  import opened QueueSystem

  /** What has happened to one message since it was last pushed; `lease` is the token of a pop that is still outstanding. */
  datatype Ledger = Ledger(pops: nat, requeues: nat, finishes: nat, timeouts: nat, lease: Option<string>)

  function Post(l: Ledger, e: Event): Ledger {
    match e
    case Pushed(_) => Ledger(0, 0, 0, 0, None)
    case Popped(_, token) => l.(pops := l.pops + 1, lease := Some(token))
    case Requeued(_) => l.(requeues := l.requeues + 1, lease := None)
    case Finished(_) => l.(finishes := l.finishes + 1, lease := None)
    case TimedOut(_) => l.(timeouts := l.timeouts + 1, lease := None)
    case _ => l
  }

  function Book(log: seq<Event>, id: Id): Ledger
    decreases |log|
  {
    if log == [] then Ledger(0, 0, 0, 0, None)
    else
      var l, e := Book(log[..|log| - 1], id), log[|log| - 1];
      if e.id == id then Post(l, e) else l
  }

  lemma BookAppend(log: seq<Event>, e: Event, id: Id)
    ensures Book(log + [e], id) == if e.id == id then Post(Book(log, id), e) else Book(log, id)
  {
    assert (log + [e])[..|log|] == log;
  }

  /** The timeout at which a message fails: the 8-bit counter never equals a limit above 255, and wraps to 0 at 256. */
  function Limit(maxRetries: nat): Option<nat> {
    if maxRetries == 0 then Some(256) else if maxRetries < 256 then Some(maxRetries) else None
  }

  ghost predicate EntryMatches(cfg: Config, e: Entry, l: Ledger) {
    && e.failCount == l.timeouts % 256
    && (e.state == Failed <==> Limit(cfg.maxRetries) == Some(l.timeouts))
    && (Limit(cfg.maxRetries).Some? ==> l.timeouts <= Limit(cfg.maxRetries).value)
    && (e.state == Running <==> l.lease.Some?)
    && (e.state == Running ==> l.lease == Some(e.token))
    && (e.state == Queued || e.state == Delayed ==> e.token == "")
  }

  /** Every pop is answered by exactly one acknowledgement or timeout, or its lease is outstanding. */
  ghost predicate Conserved(l: Ledger) {
    l.pops == l.requeues + l.finishes + l.timeouts + if l.lease.Some? then 1 else 0
  }

  ghost predicate MessageMatches(cfg: Config, s: State, l: Ledger, id: Id) {
    Conserved(l) && if id in s.msgs then EntryMatches(cfg, s.msgs[id], l) && l.finishes == 0 else l.lease == None
  }

  ghost predicate HistoryOk(cfg: Config, s: State, log: seq<Event>) {
    forall id :: MessageMatches(cfg, s, Book(log, id), id)
  }

  // ----- One transition -----

  lemma OthersUnchanged(cfg: Config, s: State, m: Micro, id: Id)
    requires Can(cfg, s, m) && EventOf(s, m).id != id
    ensures var t := Do(cfg, s, m); (id in t.msgs <==> id in s.msgs) && (id in s.msgs ==> t.msgs[id] == s.msgs[id])
  {
  }

  lemma TimeoutPosts(cfg: Config, e: Entry, l: Ledger)
    requires EntryMatches(cfg, e, l) && e.state == Running
    ensures var f := Increment8(e.failCount);
      && f == (l.timeouts + 1) % 256
      && (f == cfg.maxRetries <==> Limit(cfg.maxRetries) == Some(l.timeouts + 1))
      && (Limit(cfg.maxRetries).Some? ==> l.timeouts + 1 <= Limit(cfg.maxRetries).value)
  {
  }

  lemma CallMatches(cfg: Config, s: State, m: Micro, l: Ledger)
    requires m.Push? || m.Requeue? || m.Finish? || m.Erase?
    requires Can(cfg, s, m)
    requires MessageMatches(cfg, s, l, EventOf(s, m).id)
    ensures MessageMatches(cfg, Do(cfg, s, m), Post(l, EventOf(s, m)), EventOf(s, m).id)
  {
    hide UpperBound, Insert, SetQueue, At;
  }

  lemma PopMatches(cfg: Config, s: State, m: Micro, l: Ledger)
    requires m.Pop? && Inv(cfg, s) && Can(cfg, s, m)
    requires MessageMatches(cfg, s, l, EventOf(s, m).id)
    ensures MessageMatches(cfg, Do(cfg, s, m), Post(l, EventOf(s, m)), EventOf(s, m).id)
  {
    QueueFacts(cfg, s, FirstNonEmpty(s.queues));
    hide Inv, NoDup;
  }

  lemma ScanMatches(cfg: Config, s: State, m: Micro, l: Ledger)
    requires (m.Timeout? || m.Boost?) && Can(cfg, s, m)
    requires MessageMatches(cfg, s, l, EventOf(s, m).id)
    ensures MessageMatches(cfg, Do(cfg, s, m), Post(l, EventOf(s, m)), EventOf(s, m).id)
  {
    hide SetQueue, At;
    if m.Timeout? { TimeoutPosts(cfg, s.msgs[m.id], l); }
  }

  lemma ReleaseMatches(cfg: Config, s: State, m: Micro, l: Ledger)
    requires m.Release? && Inv(cfg, s) && Can(cfg, s, m)
    requires MessageMatches(cfg, s, l, EventOf(s, m).id)
    ensures MessageMatches(cfg, Do(cfg, s, m), Post(l, EventOf(s, m)), EventOf(s, m).id)
  {
    DelayFacts(cfg, s);
    assert s.delay[0] in s.delay;
    hide Inv, NoDup, SortedByDue;
  }

  lemma SubjectMatches(cfg: Config, s: State, m: Micro, l: Ledger)
    requires Inv(cfg, s) && Can(cfg, s, m)
    requires MessageMatches(cfg, s, l, EventOf(s, m).id)
    ensures MessageMatches(cfg, Do(cfg, s, m), Post(l, EventOf(s, m)), EventOf(s, m).id)
  {
    hide Inv, Do, Can, EventOf, MessageMatches, Post;
    match m {
      case Pop(_, _) => PopMatches(cfg, s, m, l);
      case Timeout(_, _) => ScanMatches(cfg, s, m, l);
      case Boost(_, _) => ScanMatches(cfg, s, m, l);
      case Release(_) => ReleaseMatches(cfg, s, m, l);
      case _ => CallMatches(cfg, s, m, l);
    }
  }

  lemma MicroKeepsHistory(cfg: Config, s: State, log: seq<Event>, m: Micro)
    requires Inv(cfg, s) && Can(cfg, s, m) && HistoryOk(cfg, s, log)
    ensures HistoryOk(cfg, Do(cfg, s, m), log + [EventOf(s, m)])
  {
    var t, e := Do(cfg, s, m), EventOf(s, m);
    hide Inv, Do, EntryMatches;
    SubjectMatches(cfg, s, m, Book(log, e.id));
    forall id ensures MessageMatches(cfg, t, Book(log + [e], id), id) {
      BookAppend(log, e, id);
      if id != e.id {
        assert MessageMatches(cfg, s, Book(log, id), id);
        OthersUnchanged(cfg, s, m, id);
      }
    }
  }

  lemma {:induction false} AllKeepHistory(cfg: Config, s: State, log: seq<Event>, ms: seq<Micro>)
    requires Inv(cfg, s) && CanAll(cfg, s, ms) && HistoryOk(cfg, s, log)
    ensures HistoryOk(cfg, DoAll(cfg, s, ms), log + Events(cfg, s, ms))
    decreases |ms|
  {
    hide Inv, Do, EventOf, HistoryOk;
    if ms == [] {
      assert log + [] == log;
    } else {
      var t, e := Do(cfg, s, ms[0]), EventOf(s, ms[0]);
      MicroKeepsHistory(cfg, s, log, ms[0]);
      MicroKeeps(cfg, s, ms[0]);
      AllKeepHistory(cfg, t, log + [e], ms[1..]);
      Associative(log, [e], Events(cfg, t, ms[1..]));
    }
  }

  // ----- Runs -----

  lemma {:induction false} RunKeepsHistory(cfg: Config, x: Sys, run: seq<Step>)
    requires IsRun(cfg, x, run) && Inv(cfg, x.q) && HistoryOk(cfg, x.q, x.log)
    ensures var y := Final(cfg, x, run); Inv(cfg, y.q) && HistoryOk(cfg, y.q, y.log)
    decreases |run|
  {
    hide Inv, Steps, Enabled, NextPhase, Notifications, FallsAsleep, HistoryOk;
    if run != [] {
      StepsRun(cfg, x.q, run[0].0);
      AllKeepHistory(cfg, x.q, x.log, Steps(cfg, x.q, run[0].0));
      StepKeepsInv(cfg, x.q, run[0].0);
      RunKeepsHistory(cfg, Next(cfg, x, run[0].0, run[0].1), run[1..]);
    }
  }

  ghost predicate Reachable(cfg: Config, priorities: nat, clock: int, run: seq<Step>, x: Sys) {
    IsRun(cfg, Start(priorities, clock), run) && x == Final(cfg, Start(priorities, clock), run)
  }

  lemma ReachableHistory(cfg: Config, priorities: nat, clock: int, run: seq<Step>, x: Sys)
    requires Reachable(cfg, priorities, clock, run, x)
    ensures Inv(cfg, x.q) && HistoryOk(cfg, x.q, x.log)
  {
    InitialInv(cfg, priorities);
    hide Inv, Final, IsRun;
    RunKeepsHistory(cfg, Start(priorities, clock), run);
  }

  /**
   * Counting timeouts since the push, across requeues: a message is failed exactly
   * at its R-th timeout for 1 <= R <= 255, at its 256th for R = 0, never for R >= 256.
   */
  lemma FailsExactlyAtLimit(cfg: Config, priorities: nat, clock: int, run: seq<Step>, x: Sys, id: Id)
    requires Reachable(cfg, priorities, clock, run, x) && id in x.q.msgs
    ensures x.q.msgs[id].state == Failed <==> Limit(cfg.maxRetries) == Some(Book(x.log, id).timeouts)
    ensures Limit(cfg.maxRetries).Some? ==> Book(x.log, id).timeouts <= Limit(cfg.maxRetries).value
  {
    hide Reachable, Inv;
    ReachableHistory(cfg, priorities, clock, run, x);
    assert MessageMatches(cfg, x.q, Book(x.log, id), id);
  }

  /** Deliveries are conserved, for messages that are still held and for those that are gone. */
  lemma DeliveriesAreConserved(cfg: Config, priorities: nat, clock: int, run: seq<Step>, x: Sys, id: Id)
    requires Reachable(cfg, priorities, clock, run, x)
    ensures var l := Book(x.log, id);
      && l.pops == l.requeues + l.finishes + l.timeouts + (if id in x.q.msgs && x.q.msgs[id].state == Running then 1 else 0)
      && (id in x.q.msgs ==> l.finishes == 0)
  {
    hide Reachable, Inv;
    ReachableHistory(cfg, priorities, clock, run, x);
    assert MessageMatches(cfg, x.q, Book(x.log, id), id);
  }

  /** An acknowledgement succeeds exactly when it carries the token of a lease that is still outstanding. */
  lemma AckNeedsTheLease(cfg: Config, priorities: nat, clock: int, run: seq<Step>, x: Sys, id: Id, token: string)
    requires Reachable(cfg, priorities, clock, run, x)
    ensures AckError(x.q, id, token).None? <==> Book(x.log, id).lease == Some(token)
  {
    hide Reachable, Inv;
    ReachableHistory(cfg, priorities, clock, run, x);
    assert MessageMatches(cfg, x.q, Book(x.log, id), id);
  }

  /** A refused `ack` or `popAck` changes no message, queue, counter or thread. */
  lemma RefusedAckChangesNothing(cfg: Config, x: Sys, a: Action, wake: set<Tid>)
    requires a.Ack? || a.PopAck?
    requires AckError(x.q, a.id, a.token).Some? && Enabled(cfg, x, a, wake)
    ensures Next(cfg, x, a, wake) == x.(clock := Time(a, x.clock), peak := Max(x.peak, |x.q.msgs|))
  {
    AfterFew(cfg, x.q, a);
    hide Do;
    assert wake == {} && Postponed(cfg, x.q, a) == None;
    assert x.log + [] == x.log;
    assert x.sleepers - {} - {} + {} == x.sleepers && x.woken - {} + {} + {} == x.woken;
  }

  // ----- Exclusive leases -----

  /** No token has been issued twice. */
  ghost predicate FreshTokens(log: seq<Event>) {
    forall i, j :: 0 <= i < j < |log| && log[i].Popped? && log[j].Popped? ==> log[i].token != log[j].token
  }

  /** The events that end or replace a lease. */
  predicate EndsLease(e: Event) {
    e.Pushed? || e.Popped? || e.Requeued? || e.Finished? || e.TimedOut?
  }

  /** The pop that an outstanding lease comes from. */
  lemma {:induction false} LeaseIsLast(log: seq<Event>, id: Id) returns (k: nat)
    requires Book(log, id).lease.Some?
    ensures k < |log| && log[k] == Popped(id, Book(log, id).lease.value)
    ensures forall j :: k < j < |log| && log[j].id == id ==> !EndsLease(log[j])
    decreases |log|
  {
    var n := |log| - 1;
    if log[n].id == id && log[n].Popped? {
      k := n;
    } else {
      k := LeaseIsLast(log[..n], id);
      forall j | k < j < |log| && log[j].id == id ensures !EndsLease(log[j]) {
        if j < n { assert log[..n][j] == log[j]; }
      }
    }
  }

  lemma EndedLease(log: seq<Event>, id: Id, token: string, i: nat, j: nat, other: Id)
    requires FreshTokens(log)
    requires i < j < |log| && log[i] == Popped(id, token)
    requires log[j].id == id && EndsLease(log[j])
    ensures Book(log, other).lease != Some(token)
  {
    hide Book;
    if Book(log, other).lease == Some(token) {
      var k := LeaseIsLast(log, other);
    }
  }

  /**
   * With fresh tokens a lease is exclusive: once the delivery that issued a token
   * has timed out, been acknowledged or been followed by another delivery of the
   * message, no acknowledgement with that token succeeds, on any message.
   */
  lemma StaleTokensAreRefused(cfg: Config, priorities: nat, clock: int, run: seq<Step>, x: Sys,
                              id: Id, token: string, i: nat, j: nat, other: Id)
    requires Reachable(cfg, priorities, clock, run, x) && FreshTokens(x.log)
    requires i < j < |x.log| && x.log[i] == Popped(id, token)
    requires x.log[j].id == id && EndsLease(x.log[j])
    ensures AckError(x.q, other, token).Some?
  {
    hide Reachable, AckError, FreshTokens, EndsLease, Book;
    AckNeedsTheLease(cfg, priorities, clock, run, x, other, token);
    EndedLease(x.log, id, token, i, j, other);
  }

  /** A failed message stays exactly as it is until it is erased. */
  lemma {:induction false} FailedStays(cfg: Config, s: State, ms: seq<Micro>, id: Id)
    requires Inv(cfg, s) && CanAll(cfg, s, ms) && id in s.msgs && s.msgs[id].state == Failed
    requires Removed(id) !in Events(cfg, s, ms)
    ensures var t := DoAll(cfg, s, ms); id in t.msgs && t.msgs[id] == s.msgs[id]
    decreases |ms|
  {
    if ms != [] {
      var e, t := EventOf(s, ms[0]), Do(cfg, s, ms[0]);
      assert Events(cfg, s, ms)[0] == e;
      FailedIsNotSubject(cfg, s, ms[0], id);
      OthersUnchanged(cfg, s, ms[0], id);
      MicroKeeps(cfg, s, ms[0]);
      hide Inv, Do, Can, EventOf;
      assert forall x :: x in Events(cfg, t, ms[1..]) ==> x in Events(cfg, s, ms);
      FailedStays(cfg, t, ms[1..], id);
    }
  }

  lemma FailedIsNotSubject(cfg: Config, s: State, m: Micro, id: Id)
    requires Inv(cfg, s) && Can(cfg, s, m) && id in s.msgs && s.msgs[id].state == Failed
    ensures EventOf(s, m).id == id ==> EventOf(s, m) == Removed(id)
  {
    match m {
      case Pop(_, _) => QueueFacts(cfg, s, FirstNonEmpty(s.queues)); hide Inv, NoDup;
      case Release(_) => DelayFacts(cfg, s); assert s.delay[0] in s.delay; hide Inv, NoDup, SortedByDue;
      case _ => hide Inv;
    }
  }

  // ----- Boosting -----

  /** The events that clear `boosted`. */
  predicate ClearsBoost(e: Event) { e.Requeued? || e.Finished? || e.Removed? }

  /**
   * A message is boosted at most once per push or requeue: a retry does not clear
   * `boosted`, so a message that timed out after its boost is not boosted again.
   */
  lemma {:induction false} BoostedOnce(cfg: Config, s: State, ms: seq<Micro>, id: Id)
    requires Inv(cfg, s) && CanAll(cfg, s, ms) && id in s.msgs && s.msgs[id].boosted
    requires forall e :: e in Events(cfg, s, ms) && e.id == id ==> !ClearsBoost(e)
    ensures BoostedUp(id) !in Events(cfg, s, ms)
    decreases |ms|
  {
    if ms != [] {
      var e, t := EventOf(s, ms[0]), Do(cfg, s, ms[0]);
      assert Events(cfg, s, ms)[0] == e;
      BoostKept(cfg, s, ms[0], id);
      MicroKeeps(cfg, s, ms[0]);
      hide Inv, Do, Can, EventOf;
      assert forall x :: x in Events(cfg, t, ms[1..]) ==> x in Events(cfg, s, ms);
      BoostedOnce(cfg, t, ms[1..], id);
    }
  }

  lemma BoostKept(cfg: Config, s: State, m: Micro, id: Id)
    requires Inv(cfg, s) && Can(cfg, s, m) && id in s.msgs && s.msgs[id].boosted
    requires EventOf(s, m).id == id ==> !ClearsBoost(EventOf(s, m))
    ensures EventOf(s, m) != BoostedUp(id)
    ensures id in Do(cfg, s, m).msgs && Do(cfg, s, m).msgs[id].boosted
  {
    hide Inv;
    if EventOf(s, m).id != id { OthersUnchanged(cfg, s, m, id); }
  }
}
