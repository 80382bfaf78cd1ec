/** Without new work, messages make only boundedly many moves. */
module QueueTermination {
  import opened Sequences
  import opened QueueModel
  import opened QueueInvariant
  import opened QueueSystem
  import opened QueueHistory
  import opened QueueService

  /** The number of timeouts a message survives, and the one it fails at; 0 where it never fails. */
  function Tries(cfg: Config): nat {
    match Limit(cfg.maxRetries)
    case Some(n) => n
    case None => 0
  }

  /** What a message can still do: a bound on its remaining moves. */
  function Weight(cfg: Config, e: Entry): nat {
    3 * (if e.state != Failed && e.failCount <= Tries(cfg) then Tries(cfg) - e.failCount else 0) +
    (match e.state case Failed => 1 case Running => 2 case Queued => 3 case Delayed => 4) +
    (if e.boosted then 0 else 1)
  }

  ghost function Potential(cfg: Config, msgs: map<Id, Entry>): nat
    decreases |msgs|
  {
    if msgs == map[] then 0
    else
      var id :| id in msgs;
      assert (msgs - {id}).Keys == msgs.Keys - {id};
      assert |msgs - {id}| == |(msgs - {id}).Keys| < |msgs.Keys| == |msgs|;
      Weight(cfg, msgs[id]) + Potential(cfg, msgs - {id})
  }

  lemma RemoveSize(msgs: map<Id, Entry>, id: Id)
    requires id in msgs
    ensures |msgs - {id}| == |msgs| - 1
  {
    assert (msgs - {id}).Keys == msgs.Keys - {id};
    assert |msgs - {id}| == |(msgs - {id}).Keys| && |msgs| == |msgs.Keys|;
  }

  lemma {:induction false} PotentialRemove(cfg: Config, msgs: map<Id, Entry>, id: Id)
    requires id in msgs
    ensures Potential(cfg, msgs) == Weight(cfg, msgs[id]) + Potential(cfg, msgs - {id})
    decreases |msgs|
  {
    hide Weight;
    var x :| x in msgs && Potential(cfg, msgs) == Weight(cfg, msgs[x]) + Potential(cfg, msgs - {x});
    if x != id {
      RemoveSize(msgs, x);
      RemoveSize(msgs, id);
      PotentialRemove(cfg, msgs - {x}, id);
      PotentialRemove(cfg, msgs - {id}, x);
      assert msgs - {x} - {id} == msgs - {id} - {x};
    }
  }

  lemma PotentialUpdate(cfg: Config, msgs: map<Id, Entry>, id: Id, e: Entry)
    requires id in msgs
    ensures Potential(cfg, msgs[id := e]) == Potential(cfg, msgs) - Weight(cfg, msgs[id]) + Weight(cfg, e)
  {
    PotentialRemove(cfg, msgs, id);
    PotentialRemove(cfg, msgs[id := e], id);
    assert msgs[id := e] - {id} == msgs - {id};
  }

  lemma OneMore(n: nat, k: nat)
    ensures (n + 1) * k == n * k + k
  {
  }

  lemma {:induction false} PotentialBound(cfg: Config, msgs: map<Id, Entry>)
    ensures Potential(cfg, msgs) <= |msgs| * (3 * Tries(cfg) + 5)
    decreases |msgs|
  {
    if msgs != map[] {
      var id :| id in msgs;
      PotentialRemove(cfg, msgs, id);
      RemoveSize(msgs, id);
      PotentialBound(cfg, msgs - {id});
      OneMore(|msgs| - 1, 3 * Tries(cfg) + 5);
      hide Potential;
      assert Weight(cfg, msgs[id]) <= 3 * Tries(cfg) + 5;
    }
  }

  /** Messages that have not failed have timeouts left. */
  ghost predicate RetriesLeft(cfg: Config, s: State) {
    forall id :: id in s.msgs && s.msgs[id].state != Failed ==> s.msgs[id].failCount < Tries(cfg)
  }

  lemma RetriesLeftFromHistory(cfg: Config, s: State, log: seq<Event>)
    requires Limit(cfg.maxRetries).Some? && HistoryOk(cfg, s, log)
    ensures RetriesLeft(cfg, s)
  {
    forall id | id in s.msgs && s.msgs[id].state != Failed ensures s.msgs[id].failCount < Tries(cfg) {
      assert MessageMatches(cfg, s, Book(log, id), id);
    }
  }

  predicate NewWork(m: Micro) { m.Push? || m.Requeue? }

  /** The entry a transition leaves its message with; none if the message is removed. */
  function Left(cfg: Config, s: State, m: Micro): Option<Entry>
    requires Can(cfg, s, m) && !NewWork(m)
  {
    match m
    case Pop(token, now) => Some(s.msgs[Head(s)].(state := Running, ts := now, token := token))
    case Timeout(id, _) =>
      var e := s.msgs[id].(failCount := Increment8(s.msgs[id].failCount));
      Some(if e.failCount == cfg.maxRetries then e.(state := Failed) else e.(state := Queued, token := ""))
    case Boost(id, _) => Some(s.msgs[id].(boosted := true))
    case Release(now) => Some(s.msgs[s.delay[0]].(state := Queued, ts := now))
    case _ => None
  }

  lemma LeftIsLeft(cfg: Config, s: State, m: Micro)
    requires Can(cfg, s, m) && !NewWork(m)
    ensures EventOf(s, m).id in s.msgs
    ensures Left(cfg, s, m).None? ==> Do(cfg, s, m).msgs == s.msgs - {EventOf(s, m).id}
    ensures Left(cfg, s, m).Some? ==> Do(cfg, s, m).msgs == s.msgs[EventOf(s, m).id := Left(cfg, s, m).value]
  {
    match m {
      case Boost(id, _) => BoostParts(cfg, s, m); hide Do; var e := s.msgs[id].(boosted := true);
        assert s.msgs[id := e.(state := Running)][id := e] == s.msgs[id := e];
      case Release(now) => ReleaseParts(cfg, s, m); hide Do;
        var id, e := s.delay[0], s.msgs[s.delay[0]].(state := Queued, ts := now);
        assert s.msgs[id := e.(state := Running)][id := e] == s.msgs[id := e];
      case _ =>
    }
  }

  lemma WeightFalls(cfg: Config, s: State, m: Micro)
    requires Inv(cfg, s) && Can(cfg, s, m) && !NewWork(m) && RetriesLeft(cfg, s) && Limit(cfg.maxRetries).Some?
    requires EventOf(s, m).id in s.msgs
    ensures var e := s.msgs[EventOf(s, m).id];
      && Weight(cfg, e) > 0
      && (Left(cfg, s, m).Some? ==> var f := Left(cfg, s, m).value;
            Weight(cfg, f) < Weight(cfg, e) && (f.state != Failed ==> f.failCount < Tries(cfg)))
  {
    match m {
      case Pop(_, _) => QueueFacts(cfg, s, FirstNonEmpty(s.queues)); hide Inv, NoDup;
      case Release(_) => DelayFacts(cfg, s); assert s.delay[0] in s.delay; hide Inv, NoDup, SortedByDue;
      case _ => hide Inv;
    }
  }

  lemma MoveCosts(cfg: Config, s: State, m: Micro)
    requires Inv(cfg, s) && Can(cfg, s, m) && !NewWork(m) && RetriesLeft(cfg, s) && Limit(cfg.maxRetries).Some?
    ensures Potential(cfg, Do(cfg, s, m).msgs) < Potential(cfg, s.msgs)
    ensures RetriesLeft(cfg, Do(cfg, s, m))
  {
    hide Inv, Do, Left, EventOf, Weight, Potential, Expired, Starving, InQueue, Poppable, FirstNonEmpty;
    LeftIsLeft(cfg, s, m);
    WeightFalls(cfg, s, m);
    var id := EventOf(s, m).id;
    match Left(cfg, s, m) {
      case None => PotentialRemove(cfg, s.msgs, id);
      case Some(e) => PotentialUpdate(cfg, s.msgs, id, e);
    }
  }

  lemma {:induction false} MovesCost(cfg: Config, s: State, ms: seq<Micro>)
    requires Inv(cfg, s) && CanAll(cfg, s, ms) && RetriesLeft(cfg, s) && Limit(cfg.maxRetries).Some?
    requires forall m :: m in ms ==> !NewWork(m)
    ensures |ms| + Potential(cfg, DoAll(cfg, s, ms).msgs) <= Potential(cfg, s.msgs)
    decreases |ms|
  {
    hide Inv, Do, Can, Potential, RetriesLeft;
    if ms != [] {
      assert ms[0] in ms && forall m :: m in ms[1..] ==> m in ms;
      MoveCosts(cfg, s, ms[0]);
      MicroKeeps(cfg, s, ms[0]);
      MovesCost(cfg, Do(cfg, s, ms[0]), ms[1..]);
    }
  }

  lemma {:induction false} NoNewWork(cfg: Config, s: State, ms: seq<Micro>)
    requires CanAll(cfg, s, ms)
    requires forall e :: e in Events(cfg, s, ms) ==> !e.Pushed? && !e.Requeued?
    ensures forall m :: m in ms ==> !NewWork(m)
    decreases |ms|
  {
    hide Do;
    if ms != [] {
      var es, t := Events(cfg, s, ms), Do(cfg, s, ms[0]);
      assert es == [EventOf(s, ms[0])] + Events(cfg, t, ms[1..]);
      assert es[0] in es;
      NoNewWork(cfg, t, ms[1..]);
      assert ms == [ms[0]] + ms[1..];
    }
  }

  /**
   * Wherever messages can fail at all: in any continuation of a run in which nothing
   * is pushed and nothing requeued, however long it is, at most 3 * n + 5 moves happen
   * per message held, n being the number of the timeout at which it fails (releases,
   * pops, timeouts, boosts, final acknowledgements and erasures together).
   */
  lemma DeliveryTerminates(cfg: Config, priorities: nat, clock: int, before: seq<Step>, x: Sys, run: seq<Step>)
    requires Limit(cfg.maxRetries).Some?
    requires Reachable(cfg, priorities, clock, before, x)
    requires |x.log| <= |Final(cfg, x, run).log|
    requires forall e :: e in Final(cfg, x, run).log[|x.log|..] ==> !e.Pushed? && !e.Requeued?
    ensures |Final(cfg, x, run).log| - |x.log| <= |x.q.msgs| * (3 * Limit(cfg.maxRetries).value + 5)
  {
    hide Inv, Reachable, Final, HistoryOk, Potential, RetriesLeft, CanAll;
    ReachableHistory(cfg, priorities, clock, before, x);
    RetriesLeftFromHistory(cfg, x.q, x.log);
    RunFlattens(cfg, x, run);
    var ms := RunSteps(cfg, x, run);
    assert Final(cfg, x, run).log[|x.log|..] == Events(cfg, x.q, ms);
    NoNewWork(cfg, x.q, ms);
    MovesCost(cfg, x.q, ms);
    PotentialBound(cfg, x.q.msgs);
  }
}
