/** Runs that show what the code does where its description suggests something else. */
module QueueWitnesses {
  import opened Sequences
  import opened Keys
  import opened QueueModel
  import opened QueueScans
  import opened QueueSystem

  // ----- Building runs one step at a time -----

  /** A run, one step longer. */
  lemma {:induction false} RunGrows(cfg: Config, x: Sys, run: seq<Step>, a: Action, wake: set<Tid>)
    requires IsRun(cfg, x, run) && Enabled(cfg, Final(cfg, x, run), a, wake)
    ensures IsRun(cfg, x, run + [(a, wake)])
    ensures Final(cfg, x, run + [(a, wake)]) == Next(cfg, Final(cfg, x, run), a, wake)
    decreases |run|
  {
    hide Enabled, Next;
    if run == [] {
      assert [] + [(a, wake)] == [(a, wake)] && [(a, wake)][1..] == [];
    } else {
      assert (run + [(a, wake)])[1..] == run[1..] + [(a, wake)];
      RunGrows(cfg, Next(cfg, x, run[0].0, run[0].1), run[1..], a, wake);
    }
  }

  /** A step of at most one transition while nobody sleeps on `m_pop_cv`. */
  predicate IsQuiet(cfg: Config, x: Sys, a: Action) {
    && x.sleepers == {} && x.woken == {} && x.clock <= Time(a, x.clock)
    && |Steps(cfg, x.q, a)| <= 1 && FallsAsleep(cfg, x.q, a) == {}
    && match a
       case PopAck(_, _, _, _, _, _, _, _) => false
       case SpuriousWake(_) => false
       case DelayCheck(_) => x.delayer.Checking?
       case DelayWake => x.delayer.Asleep?
       case DelayRelease(_) => x.delayer.Awake?
       case _ => true
  }

  lemma QuietIsEnabled(cfg: Config, x: Sys, a: Action)
    requires IsQuiet(cfg, x, a)
    ensures Enabled(cfg, x, a, {})
  {
    hide Notifications, Steps, FallsAsleep;
  }

  /** What such a step does. */
  lemma QuietStep(cfg: Config, x: Sys, a: Action)
    requires IsQuiet(cfg, x, a)
    ensures var ms, y := Steps(cfg, x.q, a), Next(cfg, x, a, {});
      && y.sleepers == {} && y.woken == {} && y.delayer == NextPhase(cfg, x, a) && y.clock == Time(a, x.clock)
      && (ms == [] ==> y.q == x.q && y.log == x.log)
      && (ms != [] ==> Can(cfg, x.q, ms[0]) && y.q == Do(cfg, x.q, ms[0]) && y.log == x.log + [EventOf(x.q, ms[0])])
  {
    AfterFew(cfg, x.q, a);
    hide Do, NextPhase, Can, EventOf;
    var ms := Steps(cfg, x.q, a);
    StepsRun(cfg, x.q, a);
    hide Steps;
    if ms == [] {
      assert x.log + [] == x.log;
    } else {
      assert Events(cfg, x.q, ms) == [EventOf(x.q, ms[0])];
    }
  }

  /** Where a run has got to. */
  datatype Stage = Stage(q: State, delayer: DelayPhase, log: seq<Event>, clock: int)

  ghost predicate Reaches(cfg: Config, x: Sys, run: seq<Step>, g: Stage) {
    && IsRun(cfg, x, run)
    && var y := Final(cfg, x, run);
       y.sleepers == {} && y.woken == {} && y.q == g.q && y.delayer == g.delayer && y.log == g.log && y.clock == g.clock
  }

  /** What step a makes of a stage. */
  ghost predicate Goes(cfg: Config, g: Stage, a: Action, h: Stage) {
    var y := Sys(g.q, {}, {}, g.delayer, g.log, g.clock, 0);
    var ms := Steps(cfg, g.q, a);
    && IsQuiet(cfg, y, a) && h.delayer == NextPhase(cfg, y, a) && h.clock == Time(a, g.clock)
    && (if ms == [] then h.q == g.q && h.log == g.log
        else Can(cfg, g.q, ms[0]) && h.q == Do(cfg, g.q, ms[0]) && h.log == g.log + [EventOf(g.q, ms[0])])
  }

  lemma SamePhase(cfg: Config, x: Sys, y: Sys, a: Action)
    requires x.q == y.q && x.delayer == y.delayer && x.sleepers == y.sleepers && x.woken == y.woken && x.clock == y.clock
    ensures NextPhase(cfg, x, a) == NextPhase(cfg, y, a) && IsQuiet(cfg, x, a) == IsQuiet(cfg, y, a)
  {
  }

  /** The run goes on with such a step. */
  lemma Extend(cfg: Config, x: Sys, run: seq<Step>, g: Stage, a: Action, h: Stage) returns (longer: seq<Step>)
    requires Reaches(cfg, x, run, g) && Goes(cfg, g, a, h)
    ensures Reaches(cfg, x, longer, h)
  {
    hide IsRun, Final, IsQuiet, Enabled, Next, Steps, Do, Can, EventOf, NextPhase;
    var y := Final(cfg, x, run);
    SamePhase(cfg, y, Sys(g.q, {}, {}, g.delayer, g.log, g.clock, 0), a);
    QuietIsEnabled(cfg, y, a);
    QuietStep(cfg, y, a);
    RunGrows(cfg, x, run, a, {});
    longer := run + [(a, {})];
  }

  lemma Begin(cfg: Config, priorities: nat)
    ensures Reaches(cfg, Start(priorities, 0), [], Stage(Initial(priorities), Checking, [], 0))
  {
  }

  lemma SortedOne(id: Id)
    ensures Sorted({id}) == [id]
  {
    var s := Sorted({id});
    assert |s| == 1 && s[0] in s;
  }

  /** With one message a scan is what the monitor does with it. */
  lemma ScanOfOne(cfg: Config, s: State, id: Id, now: int)
    requires s.msgs.Keys == {id}
    ensures Steps(cfg, s, MonitorScan(now)) == ScanStep(cfg, s, id, now)
  {
    SortedOne(id);
    hide ScanStep, Sorted;
    var t := AfterScanStep(cfg, s, id, now);
    assert [id][1..] == [] && Scan(cfg, t, [], now) == [];
    assert ScanStep(cfg, s, id, now) + [] == ScanStep(cfg, s, id, now);
  }

  /** A scan of one message that the monitor does something with. */
  lemma ScanGoes(cfg: Config, g: Stage, id: Id, now: int, m: Micro, h: Stage)
    requires g.q.msgs.Keys == {id} && g.clock <= now && ScanStep(cfg, g.q, id, now) == [m]
    requires Can(cfg, g.q, m) && h == Stage(Do(cfg, g.q, m), g.delayer, g.log + [EventOf(g.q, m)], now)
    requires !g.delayer.Asleep?
    ensures Goes(cfg, g, MonitorScan(now), h)
  {
    ScanOfOne(cfg, g.q, id, now);
    hide Do, Can, EventOf, ScanStep, Scan, Sorted, Steps;
  }

  /** A scan of one message that the monitor leaves alone. */
  lemma ScanStays(cfg: Config, g: Stage, id: Id, now: int)
    requires g.q.msgs.Keys == {id} && g.clock <= now && ScanStep(cfg, g.q, id, now) == [] && !g.delayer.Asleep?
    ensures Goes(cfg, g, MonitorScan(now), g.(clock := now))
  {
    ScanOfOne(cfg, g.q, id, now);
    hide Do, Can, EventOf, ScanStep, Scan, Sorted, Steps;
  }

  /** A message is pushed without delay into a queue of its own. */
  lemma PushGoes(cfg: Config, g: Stage, id: Id, priority: nat, h: Stage)
    requires PushError(cfg, g.q, id, priority).None? && !g.delayer.Asleep?
    requires h == Stage(PushFront(Reuse(g.q), id, NewEntry(priority, g.clock), priority), g.delayer, g.log + [Pushed(id)], g.clock)
    ensures Goes(cfg, g, PushMsg(id, priority, 0, g.clock), h)
  {
    hide PushFront, Reuse;
  }

  lemma PopFrom(cfg: Config, s: State, token: string, now: int, p: nat, id: Id, t: State)
    requires s.countQueued != 0 && p < |s.queues| && FirstNonEmpty(s.queues) == p && s.queues[p] == [id] && id in s.msgs
    requires t == s.(msgs := s.msgs[id := s.msgs[id].(state := Running, ts := now, token := token)],
                     queues := s.queues[p := []], countQueued := s.countQueued - 1)
    ensures Poppable(s) && Head(s) == id && Can(cfg, s, Pop(token, now)) && Do(cfg, s, Pop(token, now)) == t
  {
    assert [id][..0] == [];
  }

  /** A message is popped. */
  lemma PopGoes(cfg: Config, g: Stage, token: string, now: int, id: Id, h: Stage)
    requires g.q.countQueued != 0 && Poppable(g.q) && Head(g.q) == id && !g.delayer.Asleep? && g.clock <= now
    requires h == Stage(Do(cfg, g.q, Pop(token, now)), g.delayer, g.log + [Popped(id, token)], now)
    ensures Goes(cfg, g, PopMsg(0, token, now), h)
  {
    hide Do, Head, Poppable;
  }

  /** The first message of queue p of an empty queue. */
  lemma FirstPush(priorities: nat, p: nat, id: Id, now: int, qs: seq<seq<Id>>)
    requires p < priorities == |qs| && qs[p] == [id] && forall q :: 0 <= q < priorities && q != p ==> qs[q] == []
    ensures PushFront(Reuse(Initial(priorities)), id, NewEntry(p, now), p) ==
      State(map[id := Waiting(p, false, 0, now)], qs, [], 1, 0, 0)
  {
    assert [id] + [] == [id];
    assert Initial(priorities).queues[p := [id]] == qs;
  }

  function Waiting(priority: nat, boosted: bool, failCount: nat, ts: int): Entry {
    Entry(priority, boosted, failCount, Queued, ts, "")
  }

  // ----- A limit of one retry allows none -----

  const ONE_RETRY: Config := Config(1, 1, 1, 0)

  /** With `a_msg_max_retries` 1 a message is failed at its first timeout, without any retry. */
  lemma FailsWithoutRetry() returns (run: seq<Step>)
    ensures IsRun(ONE_RETRY, Start(1, 0), run)
    ensures var x := Final(ONE_RETRY, Start(1, 0), run);
      && x.log == [Pushed("a"), Popped("a", "t"), TimedOut("a")]
      && "a" in x.q.msgs && x.q.msgs["a"].state == Failed
  {
    hide IsRun, Final, Goes;
    var cfg, x0 := ONE_RETRY, Start(1, 0);
    var g0 := Stage(Initial(1), Checking, [], 0);
    var g1 := Stage(State(map["a" := Waiting(0, false, 0, 0)], [["a"]], [], 1, 0, 0), Checking, [Pushed("a")], 0);
    var g2 := Stage(State(map["a" := Entry(0, false, 0, Running, 0, "t")], [[]], [], 0, 0, 0), Checking,
                    [Pushed("a"), Popped("a", "t")], 0);
    var g3 := Stage(g2.q.(msgs := map["a" := Entry(0, false, 1, Failed, 0, "t")], countFailed := 1), Checking,
                    [Pushed("a"), Popped("a", "t"), TimedOut("a")], 2000000);
    Begin(cfg, 1);
    FirstPush(1, 0, "a", 0, [["a"]]);
    PushGoes(cfg, g0, "a", 0, g1);
    run := Extend(cfg, x0, [], g0, PushMsg("a", 0, 0, 0), g1);
    assert [["a"]][0 := []] == [[]];
    PopFrom(cfg, g1.q, "t", 0, 0, "a", g2.q);
    PopGoes(cfg, g1, "t", 0, "a", g2);
    run := Extend(cfg, x0, run, g1, PopMsg(0, "t", 0), g2);
    ScanGoes(cfg, g2, "a", 2000000, Timeout("a", 2000000), g3);
    run := Extend(cfg, x0, run, g2, MonitorScan(2000000), g3);
  }

  // ----- A queue is not first in, first out -----

  const TWO_MESSAGES: Config := Config(2, 0, 0, 0)

  lemma DelayedPushGoes(cfg: Config, g: Stage, id: Id, h: Stage)
    requires PushError(cfg, g.q, id, 0).None? && g.delayer.Checking? && g.q.delay == []
    requires h == Stage(Reuse(g.q).(msgs := g.q.msgs[id := Entry(0, false, 0, Delayed, g.clock + Msec(1), "")], delay := [id]),
                        g.delayer, g.log + [Pushed(id)], g.clock)
    ensures Goes(cfg, g, PushMsg(id, 0, 1, g.clock), h)
  {
    assert Insert(g.q.delay, 0, id) == [id];
  }

  lemma CheckGoes(cfg: Config, g: Stage)
    requires g.delayer.Checking?
    ensures Goes(cfg, g, DelayCheck(g.clock), g.(delayer := CheckPhase(g.q, g.clock)))
  {
  }

  lemma WakeGoes(cfg: Config, g: Stage)
    requires g.delayer.Asleep?
    ensures Goes(cfg, g, DelayWake, g.(delayer := Awake))
  {
  }

  lemma ReleaseOne(cfg: Config, s: State, id: Id, now: int)
    requires s.delay == [id] && FirstIsDue(s, now)
    ensures ReleaseDue(cfg, s, now) == [Release(now)]
  {
    assert Do(cfg, s, Release(now)).delay == [];
  }

  lemma ReleaseGoes(cfg: Config, g: Stage, id: Id, now: int, h: Stage)
    requires g.delayer.Awake? && g.q.delay == [id] && FirstIsDue(g.q, now) && g.clock <= now
    requires h == Stage(Do(cfg, g.q, Release(now)), Checking, g.log + [Released(id, g.q.msgs[id].priority)], now)
    ensures Goes(cfg, g, DelayRelease(now), h)
  {
    ReleaseOne(cfg, g.q, id, now);
    hide Do, ReleaseDue;
  }

  lemma PopLast(cfg: Config, s: State, token: string, now: int, first: Id, id: Id, t: State)
    requires s.countQueued != 0 && s.queues == [[first, id]] && id in s.msgs
    requires t == s.(msgs := s.msgs[id := s.msgs[id].(state := Running, ts := now, token := token)],
                     queues := [[first]], countQueued := s.countQueued - 1)
    ensures Poppable(s) && Head(s) == id && Can(cfg, s, Pop(token, now)) && Do(cfg, s, Pop(token, now)) == t
  {
    assert [first, id][..1] == [first];
    assert [[first, id]][0 := [first]] == [[first]];
  }

  lemma ReleaseIs(cfg: Config, s: State, now: int, t: State)
    requires s.delay == ["new"] && FirstIsDue(s, now) && s.queues == [["old"]] && s.msgs["new"].priority == 0
    requires t == s.(msgs := s.msgs["new" := s.msgs["new"].(state := Queued, ts := now)], delay := [],
                     queues := [["old", "new"]], countQueued := s.countQueued + 1)
    ensures Do(cfg, s, Release(now)) == t
  {
    var e := s.msgs["new"].(state := Queued, ts := now);
    assert s.msgs["new" := e]["new" := e] == s.msgs["new" := e];
    assert ["old"] + ["new"] == ["old", "new"];
    assert [["old"]][0 := ["old", "new"]] == [["old", "new"]];
  }

  /** A message pushed later, and with a delay, is popped while one pushed before it still waits. */
  lemma LaterMessageOvertakes() returns (run: seq<Step>)
    ensures IsRun(TWO_MESSAGES, Start(1, 0), run)
    ensures var x := Final(TWO_MESSAGES, Start(1, 0), run);
      && x.log == [Pushed("old"), Pushed("new"), Released("new", 0), Popped("new", "t")]
      && "old" in x.q.msgs && x.q.msgs["old"].state == Queued
  {
    hide IsRun, Final, Goes, Do;
    var cfg, x0 := TWO_MESSAGES, Start(1, 0);
    var waiting, log, now := Waiting(0, false, 0, 0), [Pushed("old"), Pushed("new")], 1000000;
    var g0 := Stage(Initial(1), Checking, [], 0);
    var g1 := Stage(State(map["old" := waiting], [["old"]], [], 1, 0, 0), Checking, [Pushed("old")], 0);
    var g2 := Stage(State(map["old" := waiting, "new" := Entry(0, false, 0, Delayed, now, "")], [["old"]], ["new"], 1, 0, 0),
                    Checking, log, 0);
    var g3 := g2.(delayer := Asleep(Some(now)));
    var g4 := g2.(delayer := Awake);
    var g5 := Stage(State(map["old" := waiting, "new" := Waiting(0, false, 0, now)], [["old", "new"]], [], 2, 0, 0),
                    Checking, log + [Released("new", 0)], now);
    var g6 := Stage(State(map["old" := waiting, "new" := Entry(0, false, 0, Running, now, "t")], [["old"]], [], 1, 0, 0),
                    Checking, log + [Released("new", 0)] + [Popped("new", "t")], now);
    Begin(cfg, 1);
    FirstPush(1, 0, "old", 0, [["old"]]);
    PushGoes(cfg, g0, "old", 0, g1);
    run := Extend(cfg, x0, [], g0, PushMsg("old", 0, 0, 0), g1);
    DelayedPushGoes(cfg, g1, "new", g2);
    run := Extend(cfg, x0, run, g1, PushMsg("new", 0, 1, 0), g2);
    CheckGoes(cfg, g2);
    run := Extend(cfg, x0, run, g2, DelayCheck(0), g3);
    WakeGoes(cfg, g3);
    run := Extend(cfg, x0, run, g3, DelayWake, g4);
    ReleaseIs(cfg, g4.q, now, g5.q);
    ReleaseGoes(cfg, g4, "new", now, g5);
    run := Extend(cfg, x0, run, g4, DelayRelease(now), g5);
    PopLast(cfg, g5.q, "t", now, "old", "new", g6.q);
    PopGoes(cfg, g5, "t", now, "new", g6);
    run := Extend(cfg, x0, run, g5, PopMsg(0, "t", now), g6);
  }

  // ----- A retried message is not boosted again -----

  const SHORT_TIMEOUTS: Config := Config(1, 1, 9, 1)

  function WithMessage(e: Entry, top: seq<Id>, low: seq<Id>): State {
    State(map["a" := e], [top, low], [], |top| + |low|, 0, 0)
  }

  lemma BoostIs(now: int)
    requires now >= 2000000
    ensures var s := WithMessage(Waiting(1, false, 0, 0), [], ["a"]);
      && ScanStep(SHORT_TIMEOUTS, s, "a", now) == [Boost("a", now)] && Can(SHORT_TIMEOUTS, s, Boost("a", now))
      && Do(SHORT_TIMEOUTS, s, Boost("a", now)) == WithMessage(Waiting(1, true, 0, 0), ["a"], [])
  {
    assert Remove(["a"], "a") == [];
    var s := WithMessage(Waiting(1, false, 0, 0), [], ["a"]);
    assert ["a"] + [] == ["a"];
    assert s.queues[1 := []] == [[], []] && [[], []][0 := ["a"]] == [["a"], []];
    var e := Waiting(1, true, 0, 0);
    assert s.msgs["a" := e]["a" := e] == map["a" := e];
  }

  lemma RetryIs(start: int, now: int)
    requires start + 1000000 < now
    ensures var s := WithMessage(Entry(1, true, 0, Running, start, "t"), [], []);
      && ScanStep(SHORT_TIMEOUTS, s, "a", now) == [Timeout("a", now)] && Can(SHORT_TIMEOUTS, s, Timeout("a", now))
      && Do(SHORT_TIMEOUTS, s, Timeout("a", now)) == WithMessage(Waiting(1, true, 1, start), [], ["a"])
  {
    var s := WithMessage(Entry(1, true, 0, Running, start, "t"), [], []);
    assert ["a"] + [] == ["a"];
    assert s.queues[1 := ["a"]] == [[], ["a"]];
    assert s.msgs["a" := Waiting(1, true, 1, start)] == map["a" := Waiting(1, true, 1, start)];
  }

  /** A boosted message that has been retried waits in its own queue, however long it has been starving. */
  lemma BoostIsNotRepeated(now: int) returns (run: seq<Step>)
    requires now >= 9000000
    ensures IsRun(SHORT_TIMEOUTS, Start(2, 0), run)
    ensures var x := Final(SHORT_TIMEOUTS, Start(2, 0), run);
      && x.log == [Pushed("a"), BoostedUp("a"), Popped("a", "t"), TimedOut("a")] && x.clock == now
      && x.q.queues == [[], ["a"]] && "a" in x.q.msgs && x.q.msgs["a"].state == Queued
      && x.q.msgs["a"].ts < now - Msec(SHORT_TIMEOUTS.boostTimeout)
  {
    hide IsRun, Final, Goes, Do, ScanStep, Can;
    var cfg, x0 := SHORT_TIMEOUTS, Start(2, 0);
    var g0 := Stage(Initial(2), Checking, [], 0);
    var g1 := Stage(WithMessage(Waiting(1, false, 0, 0), [], ["a"]), Checking, [Pushed("a")], 0);
    var g2 := Stage(WithMessage(Waiting(1, true, 0, 0), ["a"], []), Checking, [Pushed("a"), BoostedUp("a")], 2000000);
    var g3 := Stage(WithMessage(Entry(1, true, 0, Running, 3000000, "t"), [], []), Checking,
                    [Pushed("a"), BoostedUp("a"), Popped("a", "t")], 3000000);
    var g4 := Stage(WithMessage(Waiting(1, true, 1, 3000000), [], ["a"]), Checking,
                    [Pushed("a"), BoostedUp("a"), Popped("a", "t"), TimedOut("a")], 5000000);
    Begin(cfg, 2);
    FirstPush(2, 1, "a", 0, [[], ["a"]]);
    PushGoes(cfg, g0, "a", 1, g1);
    run := Extend(cfg, x0, [], g0, PushMsg("a", 1, 0, 0), g1);
    BoostIs(2000000);
    ScanGoes(cfg, g1, "a", 2000000, Boost("a", 2000000), g2);
    run := Extend(cfg, x0, run, g1, MonitorScan(2000000), g2);
    assert [["a"], []][0 := []] == [[], []];
    PopFrom(cfg, g2.q, "t", 3000000, 0, "a", g3.q);
    PopGoes(cfg, g2, "t", 3000000, "a", g3);
    run := Extend(cfg, x0, run, g2, PopMsg(0, "t", 3000000), g3);
    RetryIs(3000000, 5000000);
    ScanGoes(cfg, g3, "a", 5000000, Timeout("a", 5000000), g4);
    run := Extend(cfg, x0, run, g3, MonitorScan(5000000), g4);
    StaysPut(g4.q, now);
    ScanStays(cfg, g4, "a", now);
    run := Extend(cfg, x0, run, g4, MonitorScan(now), g4.(clock := now));
  }

  lemma StaysPut(s: State, now: int)
    requires "a" in s.msgs && s.msgs["a"].state == Queued && s.msgs["a"].boosted
    ensures ScanStep(SHORT_TIMEOUTS, s, "a", now) == []
  {
  }
}
