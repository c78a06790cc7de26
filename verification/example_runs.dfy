/** Runs that show that what the theorems are about does happen. */
module ExampleRuns {
  import opened Basics
  import opened Registry
  import opened ResumeProtocol
  import opened Concurrency
  import opened ResumeRuns
  import opened SlotTheorems
  import opened ResumeTheorems
  import opened EntryTheorems

  predicate Follows(s: System, step: Step, s': System) {
    step.proc < |s.procs| && Enabled(s, step.proc, step.event) && s' == Next(s, step.proc, step.event)
  }

  lemma RunExtends(ss: seq<System>, steps: seq<Step>, step: Step, s': System)
    requires Run(ss, steps) && Follows(ss[|steps|], step, s')
    ensures Run(ss + [s'], steps + [step])
  {
    var ss', steps' := ss + [s'], steps + [step];
    forall i | 0 <= i < |steps'|
      ensures StepAt(ss', steps', i)
    {
      if i < |steps| {
        assert StepAt(ss, steps, i);
        assert ss'[i] == ss[i] && ss'[i + 1] == ss[i + 1] && steps'[i] == steps[i];
      }
    }
  }

  lemma TwoMore(ss: seq<System>, steps: seq<Step>, a: Step, s: System, b: Step, t: System)
    requires Run(ss, steps) && Follows(ss[|steps|], a, s) && Follows(s, b, t)
    ensures Run(ss + [s, t], steps + [a, b])
  {
    RunExtends(ss, steps, a, s);
    RunExtends(ss + [s], steps + [a], b, t);
    assert ss + [s] + [t] == ss + [s, t] && steps + [a] + [b] == steps + [a, b];
  }

  // ---- a race of two processes ----

  const BEGUN: Call := Call(Evaluation, true, Some("1"), Writing, Never)

  const RACE_STEPS: seq<Step> :=
    [Step(0, DoBegin(0, Evaluation, Some("1"))), Step(1, DoBegin(0, Evaluation, Some("1"))),
     Step(0, DoWrite(0)), Step(1, DoWrite(0)), Step(0, DoRegister(0, 0))]

  function RaceStart(): System {
    System(map["1" := Waiting], [Started(true, true, false, 1), Started(true, true, false, 1)], {})
  }

  /** Both processes begin to resume the execution before either writes. */
  function BothBegun(): System {
    var P := RaceStart().procs[0];
    var P1 := P.(calls := P.calls[0 := BEGUN]);
    System(map["1" := Waiting], [P1, P1], {})
  }

  /** One has won; the other has not written yet. */
  function OneClaimed(): System {
    var P1 := BothBegun().procs[0];
    System(BothBegun().store["1" := Running], [Written(P1, 0, true), P1], {})
  }

  lemma BothBegin() returns (s: System)
    ensures Init(RaceStart()) && Follows(RaceStart(), RACE_STEPS[0], s) && Follows(s, RACE_STEPS[1], BothBegun())
  {
    s := Next(RaceStart(), 0, RACE_STEPS[0].event);
    assert Next(s, 1, RACE_STEPS[1].event).procs == BothBegun().procs;
  }

  lemma FirstClaims()
    ensures Follows(BothBegun(), RACE_STEPS[2], OneClaimed()) && Resumes(BothBegun(), RACE_STEPS[2], "1")
  {
    assert Next(BothBegun(), 0, DoWrite(0)).procs == OneClaimed().procs;
  }

  lemma SecondIsRefused() returns (s: System, t: System)
    ensures Follows(OneClaimed(), RACE_STEPS[3], s) && !Resumes(OneClaimed(), RACE_STEPS[3], "1")
    ensures Follows(s, RACE_STEPS[4], t)
    ensures |t.procs| == 2 && Engine(t.procs[0], 0) && InPhase(t.procs[1], 0, Refused)
  {
    s := Next(OneClaimed(), 1, DoWrite(0));
    assert s.procs[0] == OneClaimed().procs[0];
    t := Next(s, 0, DoRegister(0, 0));
  }

  lemma RaceRun(s1: System, s4: System, s5: System) returns (ss: seq<System>)
    requires Follows(RaceStart(), RACE_STEPS[0], s1) && Follows(s1, RACE_STEPS[1], BothBegun())
    requires Follows(BothBegun(), RACE_STEPS[2], OneClaimed()) && Follows(OneClaimed(), RACE_STEPS[3], s4)
    requires Follows(s4, RACE_STEPS[4], s5)
    ensures Run(ss, RACE_STEPS)
    ensures ss == [RaceStart(), s1, BothBegun(), OneClaimed(), s4, s5]
  {
    TwoMore([RaceStart()], [], RACE_STEPS[0], s1, RACE_STEPS[1], BothBegun());
    TwoMore([RaceStart(), s1, BothBegun()], RACE_STEPS[..2], RACE_STEPS[2], OneClaimed(), RACE_STEPS[3], s4);
    RunExtends([RaceStart(), s1, BothBegun(), OneClaimed(), s4], RACE_STEPS[..4], RACE_STEPS[4], s5);
    ss := [RaceStart(), s1, BothBegun(), OneClaimed(), s4, s5];
  }

  /** The race exists: both resume, one is registered and the other is refused. */
  lemma RaceHasOneWinner() returns (ss: seq<System>)
    ensures Run(ss, RACE_STEPS) && |ss| == 6
    ensures Resumes(ss[2], RACE_STEPS[2], "1") && !Resumes(ss[3], RACE_STEPS[3], "1")
    ensures |ss[5].procs| == 2 && Engine(ss[5].procs[0], 0) && InPhase(ss[5].procs[1], 0, Refused)
  {
    var s1 := BothBegin();
    FirstClaims();
    var s4, s5 := SecondIsRefused();
    ss := RaceRun(s1, s4, s5);
  }

  // ---- a resume in queue mode before the job of the run before has finished ----

  /** An evaluation call, which takes no slot, begins to resume the execution "1", claims it, and registers. */
  function ResumeSteps(c: CallId): seq<Step> {
    [Step(0, DoBegin(c, Evaluation, Some("1"))), Step(0, DoWrite(c)), Step(0, DoRegister(c, 0))]
  }

  /** The execution waits, and process 0 has not seen call `c`. */
  predicate ReadyFor(s: System, c: CallId) {
    && |s.procs| == 1 && s.store == map["1" := Waiting] && s.jobs == {}
    && c !in s.procs[0].calls && !s.procs[0].regular
  }

  /** Call `c` is the current registration of the execution and drives it; all others are as in `s`. */
  predicate Resumed(s: System, s': System, c: CallId)
    requires |s.procs| == 1
  {
    && |s'.procs| == 1 && s'.store == map["1" := Running] && s'.jobs == {} && !s'.procs[0].regular
    && s'.procs[0].active == s.procs[0].active["1" := c]
    && Engine(s'.procs[0], c) && HasStatus(s'.procs[0], c, Running) && s'.procs[0].calls[c].target == Some("1")
    && s'.procs[0].calls[c].phase.entry.promise.Pending?
    && s'.procs[0].calls == s.procs[0].calls[c := s'.procs[0].calls[c]]
  }

  lemma BeginsAndClaims(s: System, c: CallId) returns (s1: System, s2: System, s3: System)
    requires ReadyFor(s, c)
    ensures Follows(s, ResumeSteps(c)[0], s1) && Follows(s1, ResumeSteps(c)[1], s2)
    ensures Follows(s2, ResumeSteps(c)[2], s3)
    ensures Resumed(s, s3, c)
  {
    s1 := Next(s, 0, DoBegin(c, Evaluation, Some("1")));
    s2 := Next(s1, 0, DoWrite(c));
    s3 := Next(s2, 0, DoRegister(c, 0));
  }

  lemma ResumeExtends(ss: seq<System>, steps: seq<Step>, c: CallId) returns (ss': seq<System>)
    requires Run(ss, steps) && ReadyFor(ss[|steps|], c)
    ensures Run(ss', steps + ResumeSteps(c)) && |ss'| == |ss| + 3 && Resumed(ss[|steps|], ss'[|ss'| - 1], c)
  {
    var s1, s2, s3 := BeginsAndClaims(ss[|steps|], c);
    TwoMore(ss, steps, ResumeSteps(c)[0], s1, ResumeSteps(c)[1], s2);
    RunExtends(ss + [s1, s2], steps + [ResumeSteps(c)[0], ResumeSteps(c)[1]], ResumeSteps(c)[2], s3);
    ss' := ss + [s1, s2] + [s3];
    assert steps + [ResumeSteps(c)[0], ResumeSteps(c)[1]] + [ResumeSteps(c)[2]] == steps + ResumeSteps(c);
  }

  /** The engine's work goes to a job, which puts the execution to wait; it is resumed before the job has finished. */
  lemma ResumedBeforeJobFinished() returns (ss: seq<System>, steps: seq<Step>)
    ensures Run(ss, steps)
    ensures var s := ss[|steps|];
      && |s.procs| == 1 && Superseded(s.procs[0], 0) && s.procs[0].calls[0].target == Some("1")
      && s.procs[0].calls[0].phase.entry.promise.Pending? && HasStatus(s.procs[0], 0, Running)
      && s.procs[0].active["1"] == 1 && Working(s.procs[0], 1) && HasStatus(s.procs[0], 1, Running)
  {
    var start := System(map["1" := Waiting], [Started(false, false, false, 1)], {});
    var first := ResumeExtends([start], [], 0);
    var enqueues, waits := Step(0, DoEnqueue(0)), Step(0, DoJobWaits("1"));
    var enqueued := Next(first[|first| - 1], 0, enqueues.event);
    var waiting := Next(enqueued, 0, waits.event);
    steps := [] + ResumeSteps(0);
    TwoMore(first, steps, enqueues, enqueued, waits, waiting);
    steps := steps + [enqueues, waits];
    ss := ResumeExtends(first + [enqueued, waiting], steps, 1);
    steps := steps + ResumeSteps(1);
  }

  // ---- a throttled execution that goes on during shutdown ----

  /** Two executions are resumed under a limit of one; shutdown cancels, an evaluation case asks, the first one ends. */
  const REENABLED_STEPS: seq<Step> :=
    [Step(0, DoBegin(0, Limited, Some("1"))), Step(0, DoThrottle(0)), Step(0, DoWrite(0)), Step(0, DoRegister(0, 0)),
     Step(0, DoBegin(1, Limited, Some("2"))), Step(0, DoThrottle(1)),
     Step(0, DoShutdown(["1"], true)), Step(0, DoResolveEvaluation(true)), Step(0, DoCallback(0))]

  function OneProcess(calls: map<CallId, Call>, active: map<ExecutionId, CallId>, queue: Queue, enabled: bool, lazy: bool):
    Process
  {
    Process(calls, active, map[], queue, enabled, lazy, 0, true, 1)
  }

  function Holder(promise: Promise): Call {
    Call(Limited, true, Some("1"), Registered(Entry(Running, 0, None, promise, false, true, false)), Held)
  }

  const THROTTLED: Call := Call(Limited, true, Some("2"), Queued, Never)

  /** The first call is registered and holds the only slot. */
  function HolderRuns(): System {
    System(map["1" := Running, "2" := Waiting],
      [OneProcess(map[0 := Holder(Pending)], map["1" := 0], Queue(0, []), true, true)], {})
  }

  /** The second call is throttled. */
  function SecondWaits(): System {
    System(HolderRuns().store,
      [OneProcess(map[0 := Holder(Pending), 1 := THROTTLED], map["1" := 0], Queue(-1, [Waiter("2", 1)]), true, true)], {})
  }

  function TwoWait(): System {
    System(map["1" := Waiting, "2" := Waiting], [Started(true, true, true, 1)], {})
  }

  /** The first call holds the slot and is about to write. */
  function HolderWrites(): System {
    System(TwoWait().store,
      [OneProcess(map[0 := Call(Limited, true, Some("1"), Writing, Held)], map[], Queue(0, []), true, true)], {})
  }

  lemma HolderReserves() returns (s1: System)
    ensures Init(TwoWait()) && Follows(TwoWait(), REENABLED_STEPS[0], s1)
    ensures Follows(s1, REENABLED_STEPS[1], HolderWrites())
  {
    s1 := Next(TwoWait(), 0, REENABLED_STEPS[0].event);
    assert Next(s1, 0, REENABLED_STEPS[1].event).procs[0] == HolderWrites().procs[0];
  }

  lemma HolderClaims() returns (s3: System)
    ensures Follows(HolderWrites(), REENABLED_STEPS[2], s3) && Follows(s3, REENABLED_STEPS[3], HolderRuns())
  {
    s3 := Next(HolderWrites(), 0, REENABLED_STEPS[2].event);
    assert Next(s3, 0, REENABLED_STEPS[3].event).procs[0] == HolderRuns().procs[0];
  }

  lemma SecondIsThrottled() returns (s: System)
    ensures Follows(HolderRuns(), REENABLED_STEPS[4], s) && Follows(s, REENABLED_STEPS[5], SecondWaits())
  {
    s := Next(HolderRuns(), 0, REENABLED_STEPS[4].event);
    assert Next(s, 0, REENABLED_STEPS[5].event).procs[0] == SecondWaits().procs[0];
  }

  /** Control is off, or on again, and the holder's promise is rejected. */
  function Cancelling(on: bool): System {
    System(HolderRuns().store,
      [OneProcess(map[0 := Holder(Rejected), 1 := THROTTLED], map["1" := 0], Queue(-1, [Waiter("2", 1)]), on, !on)], {})
  }

  lemma Cancels()
    ensures Follows(SecondWaits(), REENABLED_STEPS[6], Cancelling(false))
  {
    var P := Disable(SecondWaits().procs[0]);
    assert ShutdownEach(P, ["1"], true) == Stop(P, "1");
    assert Stop(P, "1").calls == Cancelling(false).procs[0].calls;
    assert Next(SecondWaits(), 0, REENABLED_STEPS[6].event).procs[0] == Cancelling(false).procs[0];
  }

  lemma Reenables()
    ensures Follows(Cancelling(false), REENABLED_STEPS[7], Cancelling(true))
  {
    assert Next(Cancelling(false), 0, REENABLED_STEPS[7].event).procs[0] == Cancelling(true).procs[0];
  }

  /** The callback hands the slot on. */
  lemma SecondGoesOn() returns (last: System)
    ensures Follows(Cancelling(true), REENABLED_STEPS[8], last) && |last.procs| == 1 && WentOn(last.procs[0], 1)
  {
    last := Next(Cancelling(true), 0, REENABLED_STEPS[8].event);
  }

  lemma FourSteps(s1: System, s3: System) returns (ss: seq<System>)
    requires Init(TwoWait()) && Follows(TwoWait(), REENABLED_STEPS[0], s1)
    requires Follows(s1, REENABLED_STEPS[1], HolderWrites())
    requires Follows(HolderWrites(), REENABLED_STEPS[2], s3) && Follows(s3, REENABLED_STEPS[3], HolderRuns())
    ensures Run(ss, REENABLED_STEPS[..4]) && ss == [TwoWait(), s1, HolderWrites()] + [s3, HolderRuns()]
  {
    TwoMore([TwoWait()], [], REENABLED_STEPS[0], s1, REENABLED_STEPS[1], HolderWrites());
    assert [TwoWait()] + [s1, HolderWrites()] == [TwoWait(), s1, HolderWrites()];
    assert [] + [REENABLED_STEPS[0], REENABLED_STEPS[1]] == REENABLED_STEPS[..2];
    TwoMore([TwoWait(), s1, HolderWrites()], REENABLED_STEPS[..2], REENABLED_STEPS[2], s3, REENABLED_STEPS[3], HolderRuns());
    assert REENABLED_STEPS[..2] + [REENABLED_STEPS[2], REENABLED_STEPS[3]] == REENABLED_STEPS[..4];
    ss := [TwoWait(), s1, HolderWrites()] + [s3, HolderRuns()];
  }

  lemma ThreeMore(ss: seq<System>, steps: seq<Step>, a: Step, s: System, b: Step, t: System, c: Step, u: System)
    requires Run(ss, steps) && Follows(ss[|steps|], a, s) && Follows(s, b, t) && Follows(t, c, u)
    ensures Run(ss + [s, t] + [u], steps + [a, b] + [c])
  {
    TwoMore(ss, steps, a, s, b, t);
    RunExtends(ss + [s, t], steps + [a, b], c, u);
  }

  /** Shutdown has switched control off, and still the execution that it throttled goes on. */
  lemma ThrottledGoesOn() returns (ss: seq<System>)
    ensures Run(ss, REENABLED_STEPS) && |ss| == 10
    ensures CancelsAll(ss[6], REENABLED_STEPS[6], 0)
    ensures |ss[7].procs| == 1 && !ss[7].procs[0].enabled && InPhase(ss[7].procs[0], 1, Queued)
    ensures |ss[9].procs| == 1 && WentOn(ss[9].procs[0], 1)
  {
    var s1 := HolderReserves();
    var s3 := HolderClaims();
    var s5 := SecondIsThrottled();
    var four := FourSteps(s1, s3);
    TwoMore(four, REENABLED_STEPS[..4], REENABLED_STEPS[4], s5, REENABLED_STEPS[5], SecondWaits());
    var six := four + [s5, SecondWaits()];
    assert REENABLED_STEPS[..4] + [REENABLED_STEPS[4], REENABLED_STEPS[5]] == REENABLED_STEPS[..6];
    Cancels();
    Reenables();
    var last := SecondGoesOn();
    ThreeMore(six, REENABLED_STEPS[..6],
      REENABLED_STEPS[6], Cancelling(false), REENABLED_STEPS[7], Cancelling(true), REENABLED_STEPS[8], last);
    assert REENABLED_STEPS[..6] + [REENABLED_STEPS[6], REENABLED_STEPS[7]] + [REENABLED_STEPS[8]] == REENABLED_STEPS;
    ss := six + [Cancelling(false), Cancelling(true)] + [last];
    assert SecondWaits().procs[0].active.Keys == set id | id in ["1"];
  }
}
