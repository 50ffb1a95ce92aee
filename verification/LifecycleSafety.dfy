/**
 Invariants of the step system over every schedule, and what they mean:
 automatic power-off is safe, skipping the terminate signals is harmless, a
 finished machine is powered off exactly when each program left a trace, and the
 number of shutdowns is known.
 */
module LifecycleSafety {
  import opened Wrappers
  import opened Lifecycle

  // --------------------------------------------------------------- invariants

  ghost predicate ProgramOk(p: Program) {
    && (p.launcher.Preparing? ==> !p.cmd)
    && (p.launcher.Preparing? || p.launcher.Failed? || p.cmd)
    && (p.process.NotForked? <==> p.launcher.Preparing? || p.launcher.CmdSet? || p.launcher.Failed?)
    && (p.handle <==> p.launcher.HandleSet? || p.launcher.WaiterStarted? || p.launcher.Registered?)
    && (p.waiter.NotStarted? <==> !p.launcher.WaiterStarted? && !p.launcher.Registered?)
    && p.closes == (if p.waiter.Closed? then 1 else 0)
    && !(p.reaper && p.missed)
    && (!p.process.Collected? ==>
          !p.reaper && !p.missed && p.processState.None? && (p.waiter.NotStarted? || p.waiter.Waiting?))
    && (p.process.Collected? && p.process.via.ByWait? ==>
          && !p.reaper && !p.missed
          && (if p.waiter.Holding? then p.waiter.state == Some(p.process.exit) && p.processState.None?
              else (p.waiter.StateSet? || p.waiter.Closed?) && p.processState == Some(p.process.exit)))
    && (p.process.Collected? && p.process.via.ByReaper? ==>
          p.processState.None? && (p.waiter.Holding? ==> p.waiter.state.None?))
  }

  ghost predicate ProgramsOk(s: State) {
    forall i :: 0 <= i < |s.programs| ==> ProgramOk(s.programs[i])
  }

  ghost predicate Undelivered(p: Program) {
    p.process.Collected? && p.process.via.ByReaper? && !p.reaper && !p.missed
  }

  /** The queue holds the pids the reaper collected and has not delivered, each once. */
  ghost predicate QueueOk(s: State) {
    && (forall k :: 0 <= k < |s.queue| && s.queue[k].Child? ==>
          Has(s, s.queue[k].program) && Undelivered(s.programs[s.queue[k].program]))
    && (forall j, k :: 0 <= j < k < |s.queue| && s.queue[j].Child? ==> s.queue[j] != s.queue[k])
    && (forall i :: 0 <= i < |s.programs| && Undelivered(s.programs[i]) ==> Child(i) in s.queue)
  }

  ghost predicate AllDone(s: State) {
    forall i :: 0 <= i < |s.programs| ==> !Counted(s.programs[i])
  }

  /** What a scan has seen as finished is finished, however much has happened since. */
  ghost predicate ScansOk(s: State) {
    && (forall o :: o in s.scans && s.scans[o].Scanning? ==>
          && s.scans[o].next <= |s.programs|
          && (s.scans[o].zero ==> forall i :: 0 <= i < s.scans[o].next ==> !Counted(s.programs[i])))
    && (forall o :: o in s.scans && (s.scans[o].Marking? || s.scans[o].Calling?) ==> AllDone(s))
    && (forall o :: o in s.scans && s.scans[o].Stuck? ==> 0 < s.calls)
    && (s.instantShutdown ==> AllDone(s))
    && (0 < s.calls ==> AllDone(s) && Called(s))
  }

  /** Somebody has passed the guard of `shutdown`. */
  ghost predicate Called(s: State) {
    s.bodies != [] || 0 < s.inGuard
  }

  function StatusWrites(m: Main): (n: nat) {
    match m case BeforeRun => 0 case BeforeLaunch => 1 case Launching => 1 case Done => 2
  }

  /** A power-off stands: the status says so, or is about to. */
  function Standing(s: State): (n: nat) {
    if s.status.StatusPoweroff? || 0 < s.inGuard then 1 else 0
  }

  ghost predicate CountsOk(s: State) {
    && Unraced(s) == s.undone + Standing(s)
    && s.undone <= StatusWrites(s.main)
    && (s.main.Done? ==> s.unracedAtLaunch <= Unraced(s) <= s.unracedAtLaunch + Standing(s))
  }

  /** The scan is due, or has seen nothing running so far. */
  predicate GoingOn(scan: Scan) {
    !scan.Stuck? && (scan.Scanning? ==> scan.zero)
  }

  /** Somebody is still going to call `handleExit`, or is in a call that will find nothing running. */
  ghost predicate ScanPending(s: State) {
    || (exists o :: o in s.scans && GoingOn(s.scans[o]))
    || (exists i :: 0 <= i < |s.programs| && s.programs[i].waiter.StateSet?)
  }

  ghost predicate ProgressOk(s: State) {
    s.tableEmpty && s.programs != [] && AllDone(s) ==> 0 < s.calls || ScanPending(s)
  }

  ghost predicate BodyOk(s: State, b: Body) {
    && b.senders.Keys == b.targets.Keys
    && (forall i :: i in b.targets ==>
          Has(s, i) && s.programs[i].launcher.Registered? && b.targets[i] == s.programs[i].signal)
    && (forall i :: i in b.senders && b.senders[i].Woken? ==> s.programs[i].waiter.Closed?)
    && (forall i :: i in b.senders && b.senders[i].Finished? ==>
          s.programs[i].processState.Some? && s.programs[i].processState.value.Normal?)
    && (b.phase.Terminated? ==> forall i :: i in b.senders ==> b.senders[i].Finished? || b.senders[i].Woken?)
    && (b.phase.SkippedSignals? ==> AllDone(s))
    && (b.phase.Entered? ==> b.targets == map[])
  }

  ghost predicate BodiesOk(s: State) {
    && (forall b :: 0 <= b < |s.bodies| ==> BodyOk(s, s.bodies[b]))
    && SignalsOk(s)
  }

  ghost predicate Inv(s: State) {
    ProgramsOk(s) && QueueOk(s) && ScansOk(s) && CountsOk(s) && ProgressOk(s) && BodiesOk(s)
  }

  // ------------------------------------------------------------ program steps

  /** How a program may change in one step: what is known about its end stays true. */
  ghost predicate Evolves(p: Program, p': Program) {
    && ProgramOk(p')
    && (!Counted(p) ==> !Counted(p'))
    && (p.processState.Some? ==> p'.processState == p.processState)
    && (p.waiter.Closed? ==> p'.waiter.Closed?)
    && (p.launcher.Registered? ==> p'.launcher.Registered?)
    && (p.process.Collected? ==> p'.process == p.process)
    && p'.signal == p.signal
  }

  ghost predicate ProgramsEvolve(s: State, s': State) {
    && |s'.programs| == |s.programs|
    && forall i :: 0 <= i < |s.programs| ==> Evolves(s.programs[i], s'.programs[i])
  }

  /** A program that is not counted was started and its exit status was collected. */
  lemma NotCountedEnded(p: Program)
    requires ProgramOk(p) && !Counted(p)
    ensures p.process.Collected?
  {
  }

  lemma AfterEvolves(p: Program, e: Event)
    requires ProgramOk(p) && CanHappen(p, e)
    ensures Evolves(p, After(p, e))
  {
  }

  lemma DeliveredEvolves(p: Program)
    requires ProgramOk(p) && Undelivered(p)
    ensures Evolves(p, Delivered(p))
  {
  }

  lemma StepEvolves(s: State, step: Step)
    requires ProgramsOk(s) && QueueOk(s) && Enabled(s, step)
    ensures ProgramsEvolve(s, Apply(s, step))
    ensures ProgramsOk(Apply(s, step))
  {
    if step.ProgramStep? {
      AfterEvolves(s.programs[step.i], step.e);
    } else if step.Deliver? && s.queue[0].Child? {
      DeliveredEvolves(s.programs[s.queue[0].program]);
    }
    hide CanHappen, After, ProgramOk, Counted, AfterScan, AfterMain, AfterBody, CallShutdown, EnterBody;
    assert forall i :: 0 <= i < |s.programs| ==> Evolves(s.programs[i], s.programs[i]);
  }

  lemma AllDoneStays(s: State, s': State)
    requires ProgramsEvolve(s, s') && AllDone(s)
    ensures AllDone(s')
  {
  }

  // -------------------------------------------------- every step keeps all this

  lemma AfterUndelivered(p: Program, e: Event)
    requires ProgramOk(p) && CanHappen(p, e)
    ensures Undelivered(After(p, e)) <==> Undelivered(p) || e.Reap?
    ensures e.Reap? ==> !Undelivered(p)
  {
  }

  lemma QueueGrows(s: State, s': State, i: nat)
    requires QueueOk(s) && Has(s, i) && !Undelivered(s.programs[i])
    requires |s'.programs| == |s.programs| && s'.queue == s.queue + [Child(i)]
    requires forall j :: 0 <= j < |s.programs| ==>
               (Undelivered(s'.programs[j]) <==> Undelivered(s.programs[j]) || j == i)
    ensures QueueOk(s')
  {
    hide Undelivered;
    assert s'.queue[|s.queue|] == Child(i);
    forall j | 0 <= j < |s'.programs| && Undelivered(s'.programs[j])
      ensures Child(j) in s'.queue
    {
      if j != i {
        assert Child(j) in s.queue;
      }
    }
  }

  lemma QueueShrinks(s: State, s': State)
    requires QueueOk(s) && s.queue != []
    requires |s'.programs| == |s.programs| && s'.queue == s.queue[1..]
    requires forall j :: 0 <= j < |s.programs| ==>
               (Undelivered(s'.programs[j]) <==> Undelivered(s.programs[j]) && s.queue[0] != Child(j))
    ensures QueueOk(s')
  {
    hide Undelivered;
    forall j | 0 <= j < |s'.programs| && Undelivered(s'.programs[j])
      ensures Child(j) in s'.queue
    {
      assert Child(j) in s.queue;
      assert s.queue == [s.queue[0]] + s.queue[1..];
    }
    assert forall k :: 0 <= k < |s'.queue| ==> s'.queue[k] == s.queue[k + 1];
  }

  lemma QueueSame(s: State, s': State)
    requires QueueOk(s) && |s'.programs| == |s.programs| && s'.queue == s.queue
    requires forall j :: 0 <= j < |s.programs| ==> (Undelivered(s'.programs[j]) <==> Undelivered(s.programs[j]))
    ensures QueueOk(s')
  {
    hide Undelivered;
  }

  lemma QueueKeptByProgram(s: State, i: nat, e: Event)
    requires ProgramsOk(s) && QueueOk(s) && Has(s, i) && CanHappen(s.programs[i], e)
    ensures QueueOk(Announce(s.(programs := s.programs[i := After(s.programs[i], e)]), i, e))
  {
    AfterUndelivered(s.programs[i], e);
    hide Undelivered, ProgramOk, CanHappen, After, QueueOk;
    var s' := Announce(s.(programs := s.programs[i := After(s.programs[i], e)]), i, e);
    if e.Reap? {
      QueueGrows(s, s', i);
    } else {
      QueueSame(s, s');
    }
  }

  lemma QueueKept(s: State, step: Step)
    requires ProgramsOk(s) && QueueOk(s) && Enabled(s, step)
    ensures QueueOk(Apply(s, step))
  {
    var s' := Apply(s, step);
    if step.ProgramStep? {
      hide ProgramOk, After, CanHappen, QueueOk, Announce;
      QueueKeptByProgram(s, step.i, step.e);
    } else if step.Deliver? {
      QueueShrinks(s, s');
    } else if step.ReapOther? {
      hide Undelivered, ProgramOk;
      assert s'.queue == s.queue + [Other];
    } else {
      hide QueueOk, ProgramOk, AfterScan, AfterMain, AfterBody, CallShutdown, EnterBody, NewKills;
      QueueFrame(s, s');
    }
  }

  lemma QueueFrame(s: State, s': State)
    requires QueueOk(s) && s'.queue == s.queue && s'.programs == s.programs
    ensures QueueOk(s')
  {
  }

  /** New scans may be due, others may be as they were; finished programs stay finished. */
  lemma ScansFrame(s: State, s': State)
    requires ScansOk(s) && ProgramsEvolve(s, s')
    requires forall o :: o in s'.scans ==> s'.scans[o].Due? || (o in s.scans && s'.scans[o] == s.scans[o])
    requires s'.instantShutdown == s.instantShutdown && s'.calls == s.calls && (Called(s) ==> Called(s'))
    ensures ScansOk(s')
  {
    if AllDone(s) {
      AllDoneStays(s, s');
    }
    hide ProgramOk, Counted;
  }

  lemma ScanStepKeeps(s: State, o: Owner, a: ScanAction)
    requires ScansOk(s) && CountsOk(s) && CanScan(s, o, a)
    ensures ScansOk(AfterScan(s, o, a))
  {
    if a.Call? {
      CallKeeps(s, o);
    } else if a.One? {
      ReadOneKeeps(s, o);
    } else if a.End? {
      EndKeeps(s, o);
    } else {
      OtherScanKeeps(s, o, a);
    }
  }

  lemma CallKeeps(s: State, o: Owner)
    requires ScansOk(s) && CountsOk(s) && CanScan(s, o, Call)
    ensures ScansOk(AfterScan(s, o, Call))
  {
    hide Counted;
    assert AllDone(s) <==> AllDone(AfterScan(s, o, Call));
    hide AllDone;
  }

  lemma EndKeeps(s: State, o: Owner)
    requires ScansOk(s) && CanScan(s, o, End)
    ensures ScansOk(AfterScan(s, o, End))
  {
    hide Counted, SomeCounted, CallShutdown;
    assert AllDone(s) <==> AllDone(AfterScan(s, o, End));
    if s.scans[o].zero {
      assert AllDone(s);
    }
    hide AllDone;
  }

  lemma OtherScanKeeps(s: State, o: Owner, a: ScanAction)
    requires ScansOk(s) && CanScan(s, o, a) && (a.Start? || a.Mark?)
    ensures ScansOk(AfterScan(s, o, a))
  {
    hide Counted, SomeCounted, CallShutdown;
    assert AllDone(s) <==> AllDone(AfterScan(s, o, a));
    hide AllDone;
  }

  lemma ReadOneKeeps(s: State, o: Owner)
    requires ScansOk(s) && CanScan(s, o, One)
    ensures ScansOk(AfterScan(s, o, One))
  {
    hide Counted;
    assert AllDone(s) <==> AllDone(AfterScan(s, o, One));
    hide AllDone;
  }

  lemma ScansKept(s: State, step: Step)
    requires ProgramsOk(s) && QueueOk(s) && ScansOk(s) && CountsOk(s) && Enabled(s, step)
    ensures ScansOk(Apply(s, step))
  {
    if step.ScanStep? {
      ScanStepKeeps(s, step.o, step.scan);
    } else {
      StepEvolves(s, step);
      hide ProgramOk, QueueOk, Counted, CanHappen, After, ScansOk, CountsOk, AfterMain, AfterBody, NewKills;
      ScansFrame(s, Apply(s, step));
    }
  }

  lemma CountsKept(s: State, step: Step)
    requires CountsOk(s) && Enabled(s, step)
    ensures CountsOk(Apply(s, step))
  {
    hide CanHappen, After, Counted, AfterBody, NewKills, Announce, DeliverPid;
    if step.MainStep? {
      MainKeepsCounts(s, step.act);
    } else if step.EnterShutdown? {
      EnterKeepsCounts(s);
    } else {
      hide AfterMain, EnterBody;
    }
  }

  lemma MainKeepsCounts(s: State, a: MainAction)
    requires CountsOk(s) && MainCan(s, a)
    ensures CountsOk(AfterMain(s, a))
  {
  }

  lemma EnterKeepsCounts(s: State)
    requires CountsOk(s) && 0 < s.inGuard
    ensures CountsOk(EnterBody(s))
  {
  }

  /** Only storing the state or delivering the pid takes a program out of the count. */
  lemma StopsCounting(p: Program, e: Event)
    requires ProgramOk(p) && CanHappen(p, e) && Counted(p) && !Counted(After(p, e))
    ensures After(p, e).waiter.StateSet?
  {
  }

  lemma ScanGoesOnScanning(s: State, p: Owner, a: ScanAction, o: Owner)
    requires CanScan(s, p, a) && AllDone(s) && AfterScan(s, p, a).tableEmpty && o in s.scans && GoingOn(s.scans[o])
    ensures 0 < AfterScan(s, p, a).calls || (o in AfterScan(s, p, a).scans && GoingOn(AfterScan(s, p, a).scans[o]))
  {
    hide Counted;
  }

  /** A scan that is due, or has seen nothing running, goes on like that until it calls `shutdown`. */
  lemma ScanGoesOn(s: State, step: Step, o: Owner)
    requires Enabled(s, step) && AllDone(s) && Apply(s, step).tableEmpty
    requires o in s.scans && GoingOn(s.scans[o])
    ensures 0 < Apply(s, step).calls || ScanPending(Apply(s, step))
  {
    hide Counted, CanHappen, After, AfterMain, AfterBody, NewKills, AfterScan, AllDone, BodyCan;
    if step.ScanStep? {
      ScanGoesOnScanning(s, step.o, step.scan, o);
    } else {
      assert o in Apply(s, step).scans && GoingOn(Apply(s, step).scans[o]);
    }
  }

  /** A waiter that has stored the state goes on to close the channel, and then its scan is due. */
  lemma WaiterGoesOn(s: State, step: Step, i: nat)
    requires ProgramsOk(s) && Enabled(s, step) && Has(s, i) && s.programs[i].waiter.StateSet?
    ensures ScanPending(Apply(s, step))
  {
    hide Counted, AfterMain, AfterBody, NewKills;
    var s' := Apply(s, step);
    if step.ProgramStep? && step.i == i && step.e.CloseChannel? {
      assert WaiterOf(i) in s'.scans && s'.scans[WaiterOf(i)].Due?;
    } else {
      assert s'.programs[i].waiter.StateSet?;
    }
  }

  /** The step after which no program is counted any more leaves a scan to be done. */
  lemma LastOneOut(s: State, step: Step)
    requires ProgramsOk(s) && Enabled(s, step) && !AllDone(s) && AllDone(Apply(s, step))
    ensures ScanPending(Apply(s, step))
  {
    var s' := Apply(s, step);
    var i :| 0 <= i < |s.programs| && Counted(s.programs[i]);
    if step.Deliver? {
      hide Counted, ProgramOk;
      assert ReaperLoop in s'.scans && s'.scans[ReaperLoop].Due?;
    } else if step.ProgramStep? {
      assert |s'.programs| == |s.programs| && !Counted(s'.programs[i]);
      StopsCounting(s.programs[i], step.e);
      assert s'.programs[i].waiter.StateSet?;
    }
  }

  lemma ProgressKept(s: State, step: Step)
    requires ProgramsOk(s) && ProgressOk(s) && Enabled(s, step)
    ensures ProgressOk(Apply(s, step))
  {
    var s' := Apply(s, step);
    StepSizes(s, step);
    hide Counted, ProgramOk, Apply, Enabled;
    if s'.tableEmpty && s'.programs != [] && AllDone(s') {
      if !AllDone(s) {
        LastOneOut(s, step);
      } else if s.calls == 0 {
        if i :| 0 <= i < |s.programs| && s.programs[i].waiter.StateSet? {
          WaiterGoesOn(s, step, i);
        } else {
          var o :| o in s.scans && GoingOn(s.scans[o]);
          ScanGoesOn(s, step, o);
        }
      }
    }
  }

  lemma StepSizes(s: State, step: Step)
    requires Enabled(s, step)
    ensures |Apply(s, step).programs| == |s.programs| && s.calls <= Apply(s, step).calls
    ensures Apply(s, step).tableEmpty ==> s.tableEmpty
  {
    hide Counted, CanHappen, After, AfterMain, AfterBody, NewKills;
  }

  // ------------------------------------------------------------------ rounds

  lemma BodyFrame(s: State, s': State, b: Body)
    requires BodyOk(s, b) && ProgramsEvolve(s, s')
    ensures BodyOk(s', b)
  {
    if AllDone(s) {
      AllDoneStays(s, s');
    }
    hide ProgramOk, Counted;
  }

  lemma BodyStepOk(s: State, b: Body, a: BodyAction)
    requires ProgramsOk(s) && BodiesOk(s) && ScansOk(s) && BodyOk(s, b) && BodyCan(s, b, a)
    ensures BodyOk(s, AfterBody(s, b, a))
  {
    hide Counted;
    if a.ReadInstant? {
      hide ProgramsOk, AllDone, Has;
    } else if a.Check? {
      CheckOk(s, b, a.i);
    } else if a.Wake? {
      WakeOk(s, b, a.i);
    }
  }

  lemma CheckOk(s: State, b: Body, i: nat)
    requires ProgramsOk(s) && BodyOk(s, b) && BodyCan(s, b, Check(i))
    ensures BodyOk(s, AfterBody(s, b, Check(i)))
  {
    assert ProgramOk(s.programs[i]);
    hide Counted, AllDone, ProgramsOk;
  }

  lemma WakeOk(s: State, b: Body, i: nat)
    requires ProgramsOk(s) && BodyOk(s, b) && BodyCan(s, b, Wake(i))
    ensures BodyOk(s, AfterBody(s, b, Wake(i)))
  {
    assert ProgramOk(s.programs[i]);
    hide Counted, AllDone, ProgramsOk;
  }

  lemma BodiesKept(s: State, step: Step)
    requires ProgramsOk(s) && QueueOk(s) && ScansOk(s) && BodiesOk(s) && Enabled(s, step)
    ensures BodiesOk(Apply(s, step))
  {
    var s' := Apply(s, step);
    StepEvolves(s, step);
    hide ProgramOk, Counted, CanHappen, QueueOk, ScansOk, BodyCan, AfterBody, NewKills, AfterMain, Evolves;
    forall b | 0 <= b < |s'.bodies|
      ensures BodyOk(s', s'.bodies[b])
    {
      if b < |s.bodies| {
        if step.BodyStep? && step.b == b {
          BodyStepOk(s, s.bodies[b], step.body);
          BodyFrame(s, s', s'.bodies[b]);
        } else {
          assert s'.bodies[b] == s.bodies[b];
          BodyFrame(s, s', s.bodies[b]);
        }
      }
    }
    TerminateSignalsKept(s, step);
  }

  ghost predicate SignalsOk(s: State) {
    forall i :: i in s.terminateSignals ==>
      Has(s, i) && s.programs[i].launcher.Registered? && s.terminateSignals[i] == s.programs[i].signal
  }

  lemma SignalsFrame(s: State, s': State)
    requires SignalsOk(s) && ProgramsEvolve(s, s') && s'.terminateSignals == s.terminateSignals
    ensures SignalsOk(s')
  {
    hide ProgramOk, Counted;
  }

  lemma RegisterKeeps(s: State, i: nat)
    requires SignalsOk(s) && Has(s, i) && CanHappen(s.programs[i], Register)
    ensures SignalsOk(Announce(s.(programs := s.programs[i := After(s.programs[i], Register)]), i, Register))
  {
  }

  lemma TerminateSignalsKept(s: State, step: Step)
    requires ProgramsOk(s) && QueueOk(s) && SignalsOk(s) && Enabled(s, step)
    ensures SignalsOk(Apply(s, step))
  {
    if step.ProgramStep? && step.e.Register? {
      RegisterKeeps(s, step.i);
    } else {
      var s' := Apply(s, step);
      StepEvolves(s, step);
      hide SignalsOk, ProgramOk, Counted, QueueOk, CanHappen, AfterBody, NewKills, AfterMain, AfterScan;
      SignalsFrame(s, s');
    }
  }

  // ------------------------------------------------------------- all schedules

  lemma StepKeepsInv(s: State, step: Step)
    requires Inv(s) && Enabled(s, step)
    ensures Inv(Apply(s, step))
  {
    hide Apply, Enabled, ProgramsOk, QueueOk, ScansOk, CountsOk, ProgressOk, BodiesOk;
    StepEvolves(s, step);
    QueueKept(s, step);
    ScansKept(s, step);
    CountsKept(s, step);
    ProgressKept(s, step);
    BodiesKept(s, step);
  }

  lemma InitInv(signals: seq<nat>)
    ensures Inv(Init(signals))
  {
    var s := Init(signals);
    assert s.programs != [] ==> Counted(s.programs[0]);
  }

  lemma {:induction false} RunKeepsInv(s: State, schedule: seq<Step>)
    requires Inv(s)
    ensures Inv(Run(s, schedule))
    decreases |schedule|
  {
    hide Inv, Apply, Enabled;
    if schedule != [] {
      if Enabled(s, schedule[0]) {
        StepKeepsInv(s, schedule[0]);
        RunKeepsInv(Apply(s, schedule[0]), schedule[1..]);
      } else {
        RunKeepsInv(s, schedule[1..]);
      }
    }
  }

  // ---------------------------------------------------------------- theorems

  /**
   Safe automatic power-off: in every schedule, whenever a `handleExit` is about
   to call `shutdown`, and whenever one has done so, every configured program
   was started and has ended.
   */
  lemma SafePowerOff(signals: seq<nat>, schedule: seq<Step>)
    ensures var s := Run(Init(signals), schedule);
            (0 < s.calls || exists o :: Enabled(s, ScanStep(o, Call))) ==>
              forall i :: 0 <= i < |s.programs| ==> s.programs[i].process.Collected?
  {
    hide Run, ProgramOk, Counted;
    InitInv(signals);
    RunKeepsInv(Init(signals), schedule);
    var s := Run(Init(signals), schedule);
    EndedWhenDone(s);
  }

  /** A program that could not be started keeps the machine running: no `handleExit` ever calls `shutdown`. */
  lemma FailedKeepsRunning(signals: seq<nat>, schedule: seq<Step>, i: nat)
    ensures var s := Run(Init(signals), schedule);
            Has(s, i) && s.programs[i].launcher.Failed? ==> s.calls == 0 && forall o :: !Enabled(s, ScanStep(o, Call))
  {
    hide Run, Counted;
    SafePowerOff(signals, schedule);
    InitInv(signals);
    RunKeepsInv(Init(signals), schedule);
    hide QueueOk, ScansOk, CountsOk, ProgressOk, BodiesOk;
    var s := Run(Init(signals), schedule);
    if Has(s, i) {
      assert ProgramOk(s.programs[i]);
    }
  }

  lemma StuckStep(s: State, step: Step, o: Owner)
    requires Enabled(s, step) && (o == ReaperLoop || o == Listener) && o in s.scans && s.scans[o].Stuck?
    ensures o in Apply(s, step).scans && Apply(s, step).scans[o].Stuck?
    ensures o == ReaperLoop ==> Apply(s, step).deliveries == s.deliveries
  {
    hide Counted, CanHappen, After, AfterBody, NewKills, AfterMain, AfterScan, CallShutdown, EnterBody, MainCan,
         BodyCan;
    if step.ScanStep? {
      StuckInScan(s, step.o, step.scan, o);
    }
  }

  lemma StuckInScan(s: State, p: Owner, a: ScanAction, o: Owner)
    requires CanScan(s, p, a) && o in s.scans && s.scans[o].Stuck?
    ensures o in AfterScan(s, p, a).scans && AfterScan(s, p, a).scans[o].Stuck?
  {
    hide Counted, SomeCounted;
  }

  /** A reaper loop or a listener that has called `shutdown` is inside it for good, and delivers nothing more. */
  lemma {:induction false} StuckStays(s: State, schedule: seq<Step>, o: Owner)
    requires (o == ReaperLoop || o == Listener) && o in s.scans && s.scans[o].Stuck?
    ensures var r := Run(s, schedule);
            o in r.scans && r.scans[o].Stuck? && (o == ReaperLoop ==> r.deliveries == s.deliveries)
    decreases |schedule|
  {
    hide Apply, Enabled;
    if schedule != [] {
      if Enabled(s, schedule[0]) {
        StuckStep(s, schedule[0], o);
        StuckStays(Apply(s, schedule[0]), schedule[1..], o);
      } else {
        StuckStays(s, schedule[1..], o);
      }
    }
  }

  lemma EndedWhenDone(s: State)
    requires Inv(s)
    ensures AllDone(s) ==> forall i :: 0 <= i < |s.programs| ==> s.programs[i].process.Collected?
  {
    hide QueueOk, ScansOk, CountsOk, ProgressOk, BodiesOk;
    if AllDone(s) {
      forall i | 0 <= i < |s.programs|
        ensures s.programs[i].process.Collected?
      {
        NotCountedEnded(s.programs[i]);
      }
    }
  }

  /** A shutdown that skips the terminate signals never skips a program that is still running. */
  lemma SkippingIsHarmless(signals: seq<nat>, schedule: seq<Step>)
    ensures var s := Run(Init(signals), schedule);
            (s.instantShutdown || exists b :: 0 <= b < |s.bodies| && s.bodies[b].phase.SkippedSignals?) ==>
              forall i :: 0 <= i < |s.programs| ==> s.programs[i].process.Collected?
  {
    hide Run, ProgramOk, Counted;
    InitInv(signals);
    RunKeepsInv(Init(signals), schedule);
    var s := Run(Init(signals), schedule);
    EndedWhenDone(s);
    if b :| 0 <= b < |s.bodies| && s.bodies[b].phase.SkippedSignals? {
      assert BodyOk(s, s.bodies[b]);
    }
  }

  /** The end of the program left a trace that `handleExit` recognises. */
  ghost predicate LeftTrace(s: State, i: nat)
    requires Has(s, i)
  {
    && s.programs[i].process.Collected?
    && match s.programs[i].process.via
       case ByWait => s.programs[i].process.exit.Normal?
       case ByReaper => i in s.deliveries && s.deliveries[i]
  }

  /** The reaper has marked a program exactly if its pid was delivered with the handle recorded. */
  ghost predicate Marked(s: State) {
    forall i :: 0 <= i < |s.programs| ==>
      && (s.programs[i].reaper <==> i in s.deliveries && s.deliveries[i])
      && (s.programs[i].missed <==> i in s.deliveries && !s.deliveries[i])
  }

  lemma DeliverMarks(s: State)
    requires Inv(s) && Marked(s) && Enabled(s, Deliver)
    ensures Marked(Apply(s, Deliver))
  {
    hide ScansOk, CountsOk, ProgressOk, BodiesOk;
    if s.queue[0].Child? {
      var i := s.queue[0].program;
      assert ProgramOk(s.programs[i]) && Undelivered(s.programs[i]);
    }
  }

  lemma OtherStepMarks(s: State, step: Step)
    requires Marked(s) && Enabled(s, step) && !step.Deliver?
    ensures Marked(Apply(s, step))
  {
    hide CanHappen, After, Counted, AfterBody, NewKills, AfterMain, AfterScan, CallShutdown, EnterBody, Announce;
    if step.ProgramStep? {
      AfterKeepsMark(s.programs[step.i], step.e);
    }
  }

  lemma AfterKeepsMark(p: Program, e: Event)
    requires CanHappen(p, e)
    ensures After(p, e).reaper == p.reaper && After(p, e).missed == p.missed
  {
  }

  lemma {:induction false} RunKeepsMarked(s: State, schedule: seq<Step>)
    requires Inv(s) && Marked(s)
    ensures Marked(Run(s, schedule))
    decreases |schedule|
  {
    hide Inv, Marked, Apply, Enabled;
    if schedule != [] {
      if Enabled(s, schedule[0]) {
        StepKeepsInv(s, schedule[0]);
        if schedule[0].Deliver? {
          DeliverMarks(s);
        } else {
          OtherStepMarks(s, schedule[0]);
        }
        RunKeepsMarked(Apply(s, schedule[0]), schedule[1..]);
      } else {
        RunKeepsMarked(s, schedule[1..]);
      }
    }
  }

  /**
   What a delivery does, in every schedule: the program whose pid it is gets marked
   if and only if its handle was recorded before, and nothing else about the
   programs changes.
   */
  lemma DeliveryExactly(signals: seq<nat>, schedule: seq<Step>, i: nat)
    ensures var s := Run(Init(signals), schedule);
            Enabled(s, Deliver) && s.queue[0] == Child(i) ==>
              var s' := Apply(s, Deliver);
              && Has(s, i) && |s'.programs| == |s.programs| && s'.queue == s.queue[1..]
              && !s.programs[i].reaper
              && s'.programs[i] == s.programs[i].(reaper := s.programs[i].handle, missed := !s.programs[i].handle)
              && forall j :: 0 <= j < |s.programs| && j != i ==> s'.programs[j] == s.programs[j]
  {
    hide Run, ScansOk, CountsOk, ProgressOk, BodiesOk;
    InitInv(signals);
    RunKeepsInv(Init(signals), schedule);
    var s := Run(Init(signals), schedule);
    if Enabled(s, Deliver) && s.queue[0] == Child(i) {
      assert ProgramOk(s.programs[i]) && Undelivered(s.programs[i]);
    }
  }

  /**
   Every collection has been recorded and every scan that follows one has run. Who
   passed the guard of `shutdown` stays inside; that may be the reaper loop, which
   then delivers no more.
   */
  ghost predicate Quiet(s: State) {
    && s.inGuard == 0 && (forall o :: o in s.scans ==> s.scans[o].Stuck?)
    && (s.queue == [] || ReaperLoop in s.scans)
    && forall i :: 0 <= i < |s.programs| ==> !s.programs[i].waiter.Holding? && !s.programs[i].waiter.StateSet?
  }

  lemma TraceMeansNotCounted(s: State, i: nat)
    requires Inv(s) && Marked(s) && Quiet(s) && Has(s, i)
    ensures LeftTrace(s, i) <==> !Counted(s.programs[i])
  {
    NoneUndelivered(s, i);
    hide QueueOk, ScansOk, CountsOk, ProgressOk, BodiesOk;
  }

  lemma NoneUndelivered(s: State, i: nat)
    requires Inv(s) && Quiet(s) && Has(s, i)
    ensures !Undelivered(s.programs[i])
  {
    hide CountsOk, ProgressOk, BodiesOk;
    assert Undelivered(s.programs[i]) ==> Child(i) in s.queue;
    if s.queue != [] {
      assert s.scans[ReaperLoop].Stuck?;
      assert ProgramOk(s.programs[i]) && !Counted(s.programs[i]);
    }
  }

  /** What is left in the queue of a quiet machine concerns none of the programs. */
  lemma QuietQueue(s: State)
    requires Inv(s) && Quiet(s)
    ensures forall k :: 0 <= k < |s.queue| ==> s.queue[k].Other?
  {
    forall k | 0 <= k < |s.queue|
      ensures s.queue[k].Other?
    {
      if s.queue[k].Child? {
        NoneUndelivered(s, s.queue[k].program);
      }
    }
  }

  /**
   No lost and no wrong power-off: once all scans that follow a collection have
   run, and none begun while no program was counted found a foreign process,
   `handleExit` has called `shutdown` if
   and only if every program was collected by `Wait` after a normal exit, or by
   the reaper with its pid delivered after the process handle was recorded. A
   program killed by a signal and collected by `Wait` keeps the machine up.
   */
  lemma PowerOffExactly(signals: seq<nat>, schedule: seq<Step>)
    requires signals != []
    ensures var s := Run(Init(signals), schedule);
            Quiet(s) && s.tableEmpty ==>
              (0 < s.calls <==> forall i :: 0 <= i < |s.programs| ==> LeftTrace(s, i))
    ensures var s := Run(Init(signals), schedule);
            Quiet(s) && 0 < s.calls ==> s.bodies != []
  {
    hide Run, ProgramOk, LeftTrace, Counted;
    InitInv(signals);
    RunKeepsInv(Init(signals), schedule);
    var s := Run(Init(signals), schedule);
    RunSize(Init(signals), schedule);
    RunKeepsMarked(Init(signals), schedule);
    hide Marked;
    if Quiet(s) && s.tableEmpty {
      forall i | 0 <= i < |s.programs|
        ensures LeftTrace(s, i) <==> !Counted(s.programs[i])
      {
        TraceMeansNotCounted(s, i);
      }
    }
  }

  lemma {:induction false} RunSize(s: State, schedule: seq<Step>)
    ensures |Run(s, schedule).programs| == |s.programs|
    decreases |schedule|
  {
    hide Apply, Enabled;
    if schedule != [] {
      if Enabled(s, schedule[0]) {
        StepSizes(s, schedule[0]);
        RunSize(Apply(s, schedule[0]), schedule[1..]);
      } else {
        RunSize(s, schedule[1..]);
      }
    }
  }

  /**
   How often the body of `shutdown` is entered: the callers past the guard are
   those that raced, one for each power-off that the main routine undid, which
   it does at most twice, and one if a power-off stands. After `Launch` has
   written its status at most one more passes without a race.
   */
  lemma ShutdownCount(signals: seq<nat>, schedule: seq<Step>)
    ensures var s := Run(Init(signals), schedule);
            && |s.bodies| + s.inGuard == s.raced + s.undone + Standing(s) && s.undone <= 2
            && (s.main.Done? ==> s.unracedAtLaunch <= Unraced(s) <= s.unracedAtLaunch + 1)
  {
    hide Run, ProgramsOk, QueueOk, ScansOk, ProgressOk, BodiesOk;
    InitInv(signals);
    RunKeepsInv(Init(signals), schedule);
  }

  /** A scan that nothing disturbs reads the programs from `next` on and keeps the zero count while none is counted. */
  lemma {:induction false} UndisturbedScan(s: State, o: Owner, k: nat)
    requires o in s.scans && s.scans[o].Scanning? && s.scans[o].next + k <= |s.programs|
    ensures var n := s.scans[o].next;
            Run(s, seq(k, _ => ScanStep(o, One))).scans[o := Due] == s.scans[o := Due]
            && o in Run(s, seq(k, _ => ScanStep(o, One))).scans
            && Run(s, seq(k, _ => ScanStep(o, One))).scans[o] ==
               Scanning(n + k, s.scans[o].zero && forall i :: n <= i < n + k ==> !Counted(s.programs[i]))
    decreases k
  {
    if k > 0 {
      var steps := seq(k, _ => ScanStep(o, One));
      assert steps[0] == ScanStep(o, One) && steps[1..] == seq(k - 1, _ => ScanStep(o, One));
      var s' := Apply(s, ScanStep(o, One));
      UndisturbedScan(s', o, k - 1);
    }
  }
}
