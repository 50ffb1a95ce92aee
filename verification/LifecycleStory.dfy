/**
 Schedules that do happen: the machine powers off by itself, and three shutdowns
 without a race.
 */
module LifecycleStory {
  import opened Wrappers
  import opened Lifecycle
  import opened LifecycleSafety

  /** A program is started, exits normally, is waited for, and the scan that follows calls `shutdown`. */
  const FORKED: seq<Step> := [MainStep(WriteRun), MainStep(StartLaunch), ProgramStep(0, SetCmd), ProgramStep(0, Fork)]
  const STARTED: seq<Step> := [ProgramStep(0, SetHandle), ProgramStep(0, StartWaiter), ProgramStep(0, Register)]
  const ENDED: seq<Step> := [
    ProgramStep(0, Exits(Normal(0))), ProgramStep(0, WaitCollects), ProgramStep(0, SetState),
    ProgramStep(0, CloseChannel)
  ]
  const SCANNED: seq<Step> := [
    ScanStep(WaiterOf(0), Start(0)), ScanStep(WaiterOf(0), One), ScanStep(WaiterOf(0), End)
  ]
  const CALLED: seq<Step> := [ScanStep(WaiterOf(0), Mark), ScanStep(WaiterOf(0), Call), EnterShutdown]

  function Forked1(): (s: State) {
    State([Program(15, Forked, true, false, Running, None, false, false, NotStarted, 0)], [], map[], map[],
          StatusRun, false, Launching, [], {}, 0, [], 0, 0, 0, 0, map[], true)
  }

  function Running1(): (s: State) {
    State([Program(15, Registered, true, true, Running, None, false, false, Waiting, 0)], [], map[], map[0 := 15],
          StatusRun, false, Launching, [], {}, 0, [], 0, 0, 0, 0, map[], true)
  }

  function Ended1(): (s: State) {
    Running1().(programs := [Program(15, Registered, true, true, Collected(Normal(0), ByWait), Some(Normal(0)),
                                     false, false, Closed, 1)],
                scans := map[WaiterOf(0) := Due])
  }

  lemma RunNothing(s: State)
    ensures Run(s, []) == s
  {
  }

  lemma RunOne(s: State, schedule: seq<Step>)
    requires schedule != [] && Enabled(s, schedule[0])
    ensures Run(s, schedule) == Run(Apply(s, schedule[0]), schedule[1..])
  {
  }

  lemma RunSingle(s: State, step: Step)
    requires Enabled(s, step)
    ensures Run(s, [step]) == Apply(s, step)
  {
    RunOne(s, [step]);
    RunNothing(Apply(s, step));
  }

  lemma {:induction false} RunConcat(s: State, xs: seq<Step>, ys: seq<Step>)
    ensures Run(s, xs + ys) == Run(Run(s, xs), ys)
    decreases |xs|
  {
    hide Apply, Enabled;
    if xs == [] {
      assert xs + ys == ys;
    } else {
      assert (xs + ys)[1..] == xs[1..] + ys;
      RunConcat(if Enabled(s, xs[0]) then Apply(s, xs[0]) else s, xs[1..], ys);
    }
  }

  lemma StoryFork()
    ensures Run(Init([15]), FORKED) == Forked1()
  {
    hide Run;
    var s, t := Init([15]), FORKED;
    assert s.programs == [NewProgram(15)];
    RunOne(s, t);
    s, t := Apply(s, t[0]), t[1..];
    RunOne(s, t);
    s, t := Apply(s, t[0]), t[1..];
    RunOne(s, t);
    s, t := Apply(s, t[0]), t[1..];
    RunOne(s, t);
    s, t := Apply(s, t[0]), t[1..];
    assert t == [] && s == Forked1();
    RunNothing(s);
  }

  lemma StoryStart()
    ensures Run(Forked1(), STARTED) == Running1()
  {
    hide Run;
    var s, t := Forked1(), STARTED;
    RunOne(s, t);
    s, t := Apply(s, t[0]), t[1..];
    RunOne(s, t);
    s, t := Apply(s, t[0]), t[1..];
    RunOne(s, t);
    s, t := Apply(s, t[0]), t[1..];
    assert t == [] && s == Running1();
    RunNothing(s);
  }

  lemma StoryEnd()
    ensures Run(Running1(), ENDED) == Ended1()
  {
    hide Run;
    var s, t := Running1(), ENDED;
    RunOne(s, t);
    s, t := Apply(s, t[0]), t[1..];
    RunOne(s, t);
    s, t := Apply(s, t[0]), t[1..];
    RunOne(s, t);
    s, t := Apply(s, t[0]), t[1..];
    RunOne(s, t);
    s, t := Apply(s, t[0]), t[1..];
    assert t == [] && s == Ended1();
    RunNothing(s);
  }

  lemma StoryScan()
    ensures Run(Ended1(), SCANNED) == Ended1().(scans := map[WaiterOf(0) := Marking])
  {
    hide Run;
    var s, t := Ended1(), SCANNED;
    RunOne(s, t);
    s, t := Apply(s, t[0]), t[1..];
    RunOne(s, t);
    s, t := Apply(s, t[0]), t[1..];
    RunOne(s, t);
    s, t := Apply(s, t[0]), t[1..];
    assert t == [] && s == Ended1().(scans := map[WaiterOf(0) := Marking]);
    RunNothing(s);
  }

  lemma StoryCall()
    ensures var s := Run(Ended1().(scans := map[WaiterOf(0) := Marking]), CALLED);
            0 < s.calls && |s.bodies| == 1 && Quiet(s) && s.tableEmpty
  {
    hide Run;
    var s, t := Ended1().(scans := map[WaiterOf(0) := Marking]), CALLED;
    RunOne(s, t);
    s, t := Apply(s, t[0]), t[1..];
    RunOne(s, t);
    s, t := Apply(s, t[0]), t[1..];
    RunOne(s, t);
    s, t := Apply(s, t[0]), t[1..];
    assert t == [];
    RunNothing(s);
  }

  /** Power-off does happen, and leaves the machine quiet. */
  lemma PowerOffHappens()
    ensures var s := Run(Init([15]), FORKED + (STARTED + (ENDED + (SCANNED + CALLED))));
            0 < s.calls && |s.bodies| == 1 && Quiet(s) && s.tableEmpty
  {
    StoryFork();
    StoryStart();
    StoryEnd();
    StoryScan();
    StoryCall();
    hide Run, Quiet;
    RunConcat(Init([15]), FORKED, STARTED + (ENDED + (SCANNED + CALLED)));
    RunConcat(Forked1(), STARTED, ENDED + (SCANNED + CALLED));
    RunConcat(Running1(), ENDED, SCANNED + CALLED);
    RunConcat(Ended1(), SCANNED, CALLED);
  }

  // ----------------------------------------------------------- a reaped program

  /** The program exits, and the reaper is faster than `Wait`. */
  const REAPED: seq<Step> := [ProgramStep(0, Exits(Normal(0))), ProgramStep(0, Reap), Deliver]
  const LOOKED: seq<Step> := [
    ScanStep(ReaperLoop, Start(0)), ScanStep(ReaperLoop, One), ScanStep(ReaperLoop, End)
  ]
  const LEFT: seq<Step> := [ScanStep(ReaperLoop, Mark), ScanStep(ReaperLoop, Call), EnterShutdown]

  function Reaped1(scan: Scan): (s: State) {
    Running1().(programs := [Program(15, Registered, true, true, Collected(Normal(0), ByReaper), None, true, false,
                                     Waiting, 0)],
                scans := map[ReaperLoop := scan], deliveries := map[0 := true])
  }

  lemma StoryReap()
    ensures Run(Running1(), REAPED) == Reaped1(Due)
  {
    hide Run;
    var s, t := Running1(), REAPED;
    RunOne(s, t);
    s, t := Apply(s, t[0]), t[1..];
    RunOne(s, t);
    s, t := Apply(s, t[0]), t[1..];
    RunOne(s, t);
    s, t := Apply(s, t[0]), t[1..];
    assert t == [] && s == Reaped1(Due);
    RunNothing(s);
  }

  lemma StoryLook()
    ensures Run(Reaped1(Due), LOOKED) == Reaped1(Marking)
  {
    hide Run;
    var s, t := Reaped1(Due), LOOKED;
    RunOne(s, t);
    s, t := Apply(s, t[0]), t[1..];
    RunOne(s, t);
    s, t := Apply(s, t[0]), t[1..];
    RunOne(s, t);
    s, t := Apply(s, t[0]), t[1..];
    assert t == [] && s == Reaped1(Marking);
    RunNothing(s);
  }

  function Left1(): (s: State) {
    Reaped1(Stuck).(instantShutdown := true, status := StatusPoweroff, calls := 1,
                    bodies := [Body(Entered, map[], map[])])
  }

  lemma StoryMark()
    ensures Enabled(Reaped1(Marking), ScanStep(ReaperLoop, Mark))
    ensures Apply(Reaped1(Marking), ScanStep(ReaperLoop, Mark)) == Reaped1(Calling).(instantShutdown := true)
  {
  }

  lemma StoryCallIn(s: State)
    requires s == Reaped1(Calling).(instantShutdown := true)
    ensures Enabled(s, ScanStep(ReaperLoop, Call))
    ensures Apply(s, ScanStep(ReaperLoop, Call)) ==
            Reaped1(Stuck).(instantShutdown := true, calls := 1, inGuard := 1)
  {
    assert s.scans[ReaperLoop := Stuck] == Reaped1(Stuck).scans;
  }

  lemma StoryEnter(s: State)
    requires s == Reaped1(Stuck).(instantShutdown := true, calls := 1, inGuard := 1)
    ensures Enabled(s, EnterShutdown) && Apply(s, EnterShutdown) == Left1()
  {
  }

  lemma StoryLeave()
    ensures Run(Reaped1(Marking), LEFT) == Left1()
  {
    hide Run, Apply, Enabled, Reaped1, Left1;
    StoryMark();
    var s, t := Reaped1(Marking), LEFT;
    var s1 := Apply(s, ScanStep(ReaperLoop, Mark));
    StoryCallIn(s1);
    var s2 := Apply(s1, ScanStep(ReaperLoop, Call));
    StoryEnter(s2);
    RunOne(s, t);
    RunOne(s1, t[1..]);
    RunOne(s2, t[1..][1..]);
    assert t[1..][1..][1..] == [];
    RunNothing(Left1());
  }

  lemma LeftIsQuiet()
    ensures Quiet(Left1())
  {
  }

  /** A program whose end only the reaper has seen lets the machine power off too. */
  lemma ReapedPowersOff()
    ensures var s := Run(Init([15]), FORKED + (STARTED + (REAPED + (LOOKED + LEFT))));
            && 0 < s.calls && |s.bodies| == 1 && Quiet(s) && s.tableEmpty
            && |s.programs| == 1 && s.programs[0].process == Collected(Normal(0), ByReaper)
  {
    StoryFork();
    StoryStart();
    StoryReap();
    StoryLook();
    StoryLeave();
    LeftIsQuiet();
    hide Run, Quiet;
    RunConcat(Init([15]), FORKED, STARTED + (REAPED + (LOOKED + LEFT)));
    RunConcat(Forked1(), STARTED, REAPED + (LOOKED + LEFT));
    RunConcat(Running1(), REAPED, LOOKED + LEFT);
    RunConcat(Reaped1(Due), LOOKED, LEFT);
  }

  // ---------------------------------------------------------- a failed program

  const FAILED: seq<Step> := [
    MainStep(WriteRun), MainStep(StartLaunch), ProgramStep(0, SetCmd), ProgramStep(0, FailLaunch),
    MainStep(WriteLaunched)
  ]

  /** A program may fail with its command set; the launch is completed all the same. */
  lemma FailureLaunches()
    ensures var s := Run(Init([15]), FAILED);
            s.main == Done && s.status == StatusLaunched && |s.programs| == 1 && s.programs[0].launcher.Failed?
  {
    hide Run;
    var s, t := Init([15]), FAILED;
    assert s.programs == [NewProgram(15)];
    RunOne(s, t);
    s, t := Apply(s, t[0]), t[1..];
    RunOne(s, t);
    s, t := Apply(s, t[0]), t[1..];
    RunOne(s, t);
    s, t := Apply(s, t[0]), t[1..];
    RunOne(s, t);
    s, t := Apply(s, t[0]), t[1..];
    assert s.programs == [NewProgram(15).(launcher := Failed, cmd := true)] && s.main == Launching;
    RunOne(s, t);
    s, t := Apply(s, t[0]), t[1..];
    assert t == [];
    RunNothing(s);
  }

  /** Somebody calls `shutdown` and passes its guard undisturbed. */
  function Presses(c: Caller): (schedule: seq<Step>) {
    [ExternalShutdown(c), EnterShutdown]
  }

  lemma Press(s: State, c: Caller)
    requires !s.status.StatusPoweroff? && s.inGuard == 0 && c !in s.inside
    ensures var s' := Run(s, Presses(c));
            && s'.bodies == s.bodies + [Body(Entered, map[], map[])] && s'.raced == s.raced
            && s'.programs == s.programs && s'.main == s.main && s'.inGuard == 0 && s'.inside == s.inside + {c}
  {
    hide Run;
    RunOne(s, Presses(c));
    RunOne(Apply(s, ExternalShutdown(c)), Presses(c)[1..]);
    RunNothing(Apply(Apply(s, ExternalShutdown(c)), EnterShutdown));
    assert Presses(c)[1..][1..] == [];
  }

  lemma Write(s: State, a: MainAction)
    requires MainCan(s, a)
    ensures Run(s, [MainStep(a)]) == AfterMain(s, a)
  {
    RunOne(s, [MainStep(a)]);
    RunNothing(AfterMain(s, a));
  }

  /**
   Without a race three shutdowns do happen: the power button during the set-up,
   a signal before the launch is complete, and the guest tools after it.
   */
  lemma ThreeShutdowns() returns (schedule: seq<Step>)
    ensures var s := Run(Init([]), schedule);
            |s.bodies| == 3 && s.raced == 0 && s.inside == {PowerLoop(0), SignalHandler, GuestTools}
  {
    hide Run;
    var s0 := Init([]);
    Press(s0, PowerLoop(0));
    var s1 := Run(s0, Presses(PowerLoop(0)));
    Write(s1, WriteRun);
    var s2 := AfterMain(s1, WriteRun);
    Press(s2, SignalHandler);
    var s3 := Run(s2, Presses(SignalHandler));
    Write(s3, StartLaunch);
    var s4 := AfterMain(s3, StartLaunch);
    Write(s4, WriteLaunched);
    var s5 := AfterMain(s4, WriteLaunched);
    Press(s5, GuestTools);
    var t5 := Presses(GuestTools);
    var t4 := [MainStep(WriteLaunched)] + t5;
    var t3 := [MainStep(StartLaunch)] + t4;
    var t2 := Presses(SignalHandler) + t3;
    var t1 := [MainStep(WriteRun)] + t2;
    schedule := Presses(PowerLoop(0)) + t1;
    RunConcat(s4, [MainStep(WriteLaunched)], t5);
    RunConcat(s3, [MainStep(StartLaunch)], t4);
    RunConcat(s2, Presses(SignalHandler), t3);
    RunConcat(s1, [MainStep(WriteRun)], t2);
    RunConcat(s0, Presses(PowerLoop(0)), t1);
  }
}
