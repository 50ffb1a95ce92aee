/**
 The race in the guard of `shutdown`: all programs end, every waiter finds that
 nothing runs any more, and all of them read the status before the first of them
 has written it.
 */
module LifecycleRace {
  import opened Wrappers
  import opened Lifecycle
  import opened LifecycleSafety
  import opened LifecycleStory

  /** Steps of the main routine, of the programs and their waiters, and of those in the guard of `shutdown`. */
  predicate Inside(step: Step) {
    step.MainStep? || step.ProgramStep? || step.EnterShutdown? || (step.ScanStep? && step.o.WaiterOf?)
  }

  /** Nobody but the waiters scans or calls `shutdown`. */
  ghost predicate FromInside(schedule: seq<Step>) {
    forall i :: 0 <= i < |schedule| ==> Inside(schedule[i])
  }

  // ------------------------------------------------------------ a program ends

  function With(s: State, i: nat, p: Program): (s': State)
    requires Has(s, i)
  {
    s.(programs := s.programs[i := p])
  }

  /** Events that change nothing but the program. */
  predicate Local(e: Event) {
    !e.Register? && !e.Reap? && !e.CloseChannel?
  }

  lemma LocalStep(s: State, i: nat, schedule: seq<Step>, p: Program, e: Event)
    requires Has(s, i) && LaunchedYet(s) && Run(s, schedule) == With(s, i, p) && CanHappen(p, e) && Local(e)
    ensures Run(s, schedule + [ProgramStep(i, e)]) == With(s, i, After(p, e))
  {
    hide CanHappen, After;
    var t := With(s, i, p);
    RunConcat(s, schedule, [ProgramStep(i, e)]);
    RunOne(t, [ProgramStep(i, e)]);
    RunNothing(With(s, i, After(p, e)));
    hide Run;
    assert t.programs[i := After(p, e)] == s.programs[i := After(p, e)];
  }

  function Ended(signal: nat): (p: Program) {
    Program(signal, WaiterStarted, true, true, Collected(Normal(0), ByWait), Some(Normal(0)), false, false, StateSet, 0)
  }

  function Closing(signal: nat): (p: Program) {
    Ended(signal).(waiter := Closed, closes := 1)
  }

  const LIFE: seq<Event> := [SetCmd, Fork, SetHandle, StartWaiter, Exits(Normal(0)), WaitCollects, SetState]

  /** The program is started, exits at once, and its waiter records that. */
  lemma Lives(s: State, i: nat) returns (schedule: seq<Step>)
    requires Has(s, i) && LaunchedYet(s) && s.programs[i] == NewProgram(s.programs[i].signal)
    ensures FromInside(schedule) && Run(s, schedule) == With(s, i, Ended(s.programs[i].signal))
  {
    var p := s.programs[i];
    schedule := [];
    assert s.programs[i := p] == s.programs;
    RunNothing(s);
    hide Run, With;
    var k := 0;
    while k < |LIFE|
      invariant 0 <= k <= |LIFE| && FromInside(schedule)
      invariant Run(s, schedule) == With(s, i, p) && p == Stage(s.programs[i].signal, k)
    {
      StageStep(s.programs[i].signal, k);
      LocalStep(s, i, schedule, p, LIFE[k]);
      schedule := schedule + [ProgramStep(i, LIFE[k])];
      p := After(p, LIFE[k]);
      k := k + 1;
    }
  }

  /** The program after the first `k` events of its life. */
  function Stage(signal: nat, k: nat): (p: Program)
    requires k <= 7
  {
    match k
    case 0 => NewProgram(signal)
    case 1 => NewProgram(signal).(launcher := CmdSet, cmd := true)
    case 2 => NewProgram(signal).(launcher := Forked, cmd := true, process := Running)
    case 3 => NewProgram(signal).(launcher := HandleSet, cmd := true, handle := true, process := Running)
    case 4 =>
      NewProgram(signal).(launcher := WaiterStarted, cmd := true, handle := true, process := Running, waiter := Waiting)
    case 5 =>
      NewProgram(signal).(launcher := WaiterStarted, cmd := true, handle := true, process := Zombie(Normal(0)),
                          waiter := Waiting)
    case 6 =>
      NewProgram(signal).(launcher := WaiterStarted, cmd := true, handle := true,
                          process := Collected(Normal(0), ByWait), waiter := Holding(Some(Normal(0))))
    case _ => Ended(signal)
  }

  lemma StageStep(signal: nat, k: nat)
    requires k < 7
    ensures CanHappen(Stage(signal, k), LIFE[k]) && Local(LIFE[k])
    ensures After(Stage(signal, k), LIFE[k]) == Stage(signal, k + 1)
  {
  }

  // ------------------------------------------------------------- all of them end

  /** The phase of the boot in which the programs are launched and nobody has called `shutdown`. */
  ghost predicate Undisturbed(s: State) {
    s.main.Launching? && s.status.StatusRun? && s.bodies == [] && s.inGuard == 0 && s.undone == 0
  }

  /** The first `k` programs have ended and their waiters are about to look around; the others have not started. */
  ghost predicate EndedUpTo(s: State, k: nat)
    ensures EndedUpTo(s, k) ==> k <= |s.programs|
  {
    && Undisturbed(s) && k <= |s.programs|
    && (forall i: nat :: i < k ==> s.programs[i] == Closing(s.programs[i].signal))
    && (forall i: nat :: k <= i < |s.programs| ==> s.programs[i] == NewProgram(s.programs[i].signal))
    && (forall i: nat :: i < k ==> WaiterOf(i) in s.scans && s.scans[WaiterOf(i)] == Due)
  }

  lemma OneMoreEnds(s: State, k: nat) returns (schedule: seq<Step>)
    requires EndedUpTo(s, k) && k < |s.programs|
    ensures FromInside(schedule) && EndedUpTo(Run(s, schedule), k + 1)
    ensures |Run(s, schedule).programs| == |s.programs|
  {
    var signal := s.programs[k].signal;
    schedule := Lives(s, k);
    var t := With(s, k, Ended(signal));
    RunConcat(s, schedule, [ProgramStep(k, CloseChannel)]);
    RunOne(t, [ProgramStep(k, CloseChannel)]);
    RunNothing(Apply(t, ProgramStep(k, CloseChannel)));
    schedule := schedule + [ProgramStep(k, CloseChannel)];
    hide Run;
    assert Apply(t, ProgramStep(k, CloseChannel)).programs == s.programs[k := Closing(signal)];
  }

  lemma {:induction false} AllEnd(s: State, k: nat) returns (schedule: seq<Step>)
    requires EndedUpTo(s, k)
    ensures FromInside(schedule) && |Run(s, schedule).programs| == |s.programs|
    ensures EndedUpTo(Run(s, schedule), |s.programs|)
    decreases |s.programs| - k
  {
    hide Run, EndedUpTo;
    schedule := [];
    RunNothing(s);
    if k < |s.programs| {
      schedule := OneMoreEnds(s, k);
      var rest := AllEnd(Run(s, schedule), k + 1);
      RunConcat(s, schedule, rest);
      schedule := schedule + rest;
    }
  }

  // ------------------------------------------------------- all waiters look around

  /** The scan of `o` has come to `scan`. */
  function ScanAt(s: State, o: Owner, scan: Scan): (s': State) {
    s.(scans := s.scans[o := scan])
  }

  lemma ScanAtTwice(s: State, o: Owner, a: Scan, b: Scan)
    ensures ScanAt(ScanAt(s, o, a), o, b) == ScanAt(s, o, b)
  {
    assert s.scans[o := a][o := b] == s.scans[o := b];
  }

  lemma ScanAtKeeps(s: State, o: Owner, a: Scan)
    ensures ScanAt(s, o, a).programs == s.programs && o in ScanAt(s, o, a).scans && ScanAt(s, o, a).scans[o] == a
    ensures ScanAt(s, o, a).status == s.status
  {
  }

  lemma ReadsOne(s: State, o: Owner, next: nat)
    requires AllDone(s) && o in s.scans && s.scans[o] == Scanning(next, true) && next < |s.programs|
    ensures Run(s, [ScanStep(o, One)]) == ScanAt(s, o, Scanning(next + 1, true))
  {
    RunSingle(s, ScanStep(o, One));
  }

  lemma StartsScan(s: State, o: Owner)
    requires o in s.scans && s.scans[o] == Due
    ensures Run(s, [ScanStep(o, Start(0))]) == ScanAt(s, o, Scanning(0, true))
  {
    RunSingle(s, ScanStep(o, Start(0)));
  }

  lemma EndsScan(s: State, o: Owner)
    requires s.status.StatusRun? && o in s.scans && s.scans[o] == Scanning(|s.programs|, true)
    ensures Run(s, [ScanStep(o, End)]) == ScanAt(s, o, Marking)
  {
    RunSingle(s, ScanStep(o, End));
  }

  lemma Marks(s: State, o: Owner)
    requires o in s.scans && s.scans[o] == Marking
    ensures Run(s, [ScanStep(o, Mark)]) == ScanAt(s, o, Calling).(instantShutdown := true)
  {
    RunSingle(s, ScanStep(o, Mark));
  }

  /** The scan of `o` reads `m` programs, all ended. */
  lemma {:induction false} Reads(s: State, o: Owner, next: nat, m: nat)
    requires AllDone(s) && o in s.scans && s.scans[o] == Scanning(next, true) && next + m <= |s.programs|
    ensures Run(s, seq(m, _ => ScanStep(o, One))) == ScanAt(s, o, Scanning(next + m, true))
    decreases m
  {
    var steps := seq(m, _ => ScanStep(o, One));
    if m == 0 {
      assert s.scans[o := Scanning(next + m, true)] == s.scans;
      RunNothing(s);
    } else {
      assert steps[0] == ScanStep(o, One) && steps[1..] == seq(m - 1, _ => ScanStep(o, One));
      var t := ScanAt(s, o, Scanning(next + 1, true));
      ReadsOne(s, o, next);
      hide Run, Counted, ScanAt;
      RunConcat(s, [ScanStep(o, One)], steps[1..]);
      assert steps == [ScanStep(o, One)] + steps[1..];
      ScanAtKeeps(s, o, Scanning(next + 1, true));
      Reads(t, o, next + 1, m - 1);
      ScanAtTwice(s, o, Scanning(next + 1, true), Scanning(next + m, true));
    }
  }

  /** A scan from its start to the point at which it is about to call `shutdown`. */
  lemma Looks(s: State, o: Owner) returns (schedule: seq<Step>)
    requires AllDone(s) && s.status.StatusRun? && o.WaiterOf? && o in s.scans && s.scans[o] == Due
    ensures FromInside(schedule)
    ensures Run(s, schedule) == ScanAt(s, o, Calling).(instantShutdown := true)
  {
    var n := |s.programs|;
    var t0, t1, t2 := ScanAt(s, o, Scanning(0, true)), ScanAt(s, o, Scanning(n, true)), ScanAt(s, o, Marking);
    ScanAtKeeps(s, o, Scanning(0, true));
    ScanAtKeeps(s, o, Scanning(n, true));
    ScanAtKeeps(s, o, Marking);
    hide Run, Counted, ScanAt;
    StartsScan(s, o);
    Reads(t0, o, 0, n);
    ScanAtTwice(s, o, Scanning(0, true), Scanning(n, true));
    EndsScan(t1, o);
    ScanAtTwice(s, o, Scanning(n, true), Marking);
    Marks(t2, o);
    ScanAtTwice(s, o, Marking, Calling);
    var ones := seq(n, _ => ScanStep(o, One));
    var last := [ScanStep(o, End)] + [ScanStep(o, Mark)];
    schedule := [ScanStep(o, Start(0))] + (ones + last);
    RunConcat(s, [ScanStep(o, Start(0))], ones + last);
    RunConcat(t0, ones, last);
    RunConcat(t1, [ScanStep(o, End)], [ScanStep(o, Mark)]);
  }

  /** The first `k` waiters are about to call `shutdown`, the others about to look around. */
  ghost predicate LookedUpTo(s: State, k: nat)
    ensures LookedUpTo(s, k) ==> k <= |s.programs|
  {
    && Undisturbed(s) && k <= |s.programs| && AllDone(s)
    && (forall i: nat :: i < k ==> WaiterOf(i) in s.scans && s.scans[WaiterOf(i)] == Calling)
    && (forall i: nat :: k <= i < |s.programs| ==> WaiterOf(i) in s.scans && s.scans[WaiterOf(i)] == Due)
  }

  lemma {:induction false} AllLook(s: State, k: nat) returns (schedule: seq<Step>)
    requires LookedUpTo(s, k)
    ensures FromInside(schedule) && |Run(s, schedule).programs| == |s.programs|
    ensures LookedUpTo(Run(s, schedule), |s.programs|)
    decreases |s.programs| - k
  {
    hide Run, Counted;
    schedule := [];
    RunNothing(s);
    if k < |s.programs| {
      schedule := Looks(s, WaiterOf(k));
      var t := ScanAt(s, WaiterOf(k), Calling).(instantShutdown := true);
      var rest := AllLook(t, k + 1);
      RunConcat(s, schedule, rest);
      schedule := schedule + rest;
    }
  }

  // ------------------------------------------------------------------- all call

  /** The first `k` waiters are in the guard, the others about to call. */
  ghost predicate CalledUpTo(s: State, k: nat)
    ensures CalledUpTo(s, k) ==> k <= |s.programs|
  {
    && s.status.StatusRun? && s.bodies == [] && s.undone == 0 && s.inGuard == k && k <= |s.programs|
    && (forall i: nat :: k <= i < |s.programs| ==> WaiterOf(i) in s.scans && s.scans[WaiterOf(i)] == Calling)
  }

  lemma {:induction false} AllCall(s: State, k: nat) returns (schedule: seq<Step>)
    requires CalledUpTo(s, k)
    ensures FromInside(schedule) && |Run(s, schedule).programs| == |s.programs|
    ensures CalledUpTo(Run(s, schedule), |s.programs|)
    decreases |s.programs| - k
  {
    hide Run, Counted;
    schedule := [];
    RunNothing(s);
    if k < |s.programs| {
      var call := ScanStep(WaiterOf(k), Call);
      RunSingle(s, call);
      var t := Apply(s, call);
      var rest := AllCall(t, k + 1);
      RunConcat(s, [call], rest);
      schedule := [call] + rest;
    }
  }

  lemma {:induction false} AllEnter(s: State, n: nat)
    requires n <= s.inGuard
    ensures var s' := Run(s, seq(n, _ => EnterShutdown));
            |s'.bodies| == |s.bodies| + n && s'.undone == s.undone && s'.inGuard == s.inGuard - n
    decreases n
  {
    if n > 0 {
      var steps := seq(n, _ => EnterShutdown);
      assert steps[1..] == seq(n - 1, _ => EnterShutdown);
      AllEnter(EnterBody(s), n - 1);
    }
  }

  // ------------------------------------------------------------------- the race

  lemma Launched(signals: seq<nat>) returns (schedule: seq<Step>)
    ensures FromInside(schedule) && EndedUpTo(Run(Init(signals), schedule), 0)
    ensures |Run(Init(signals), schedule).programs| == |signals|
  {
    var s := Init(signals);
    RunSingle(s, MainStep(WriteRun));
    var t := Apply(s, MainStep(WriteRun));
    RunSingle(t, MainStep(StartLaunch));
    schedule := [MainStep(WriteRun)] + [MainStep(StartLaunch)];
    hide Run;
    RunConcat(s, [MainStep(WriteRun)], [MainStep(StartLaunch)]);
  }

  lemma EndedLooks(s: State)
    requires EndedUpTo(s, |s.programs|)
    ensures LookedUpTo(s, 0)
  {
  }

  lemma LookedCalls(s: State)
    requires LookedUpTo(s, |s.programs|)
    ensures CalledUpTo(s, 0)
  {
  }

  /**
   There is no bound on the executions of `shutdown`: for any programs there is a
   schedule on which nobody but the waiters calls it, and the body is executed once
   for each of them, although no power-off was undone.
   */
  lemma RacersAllShutDown(signals: seq<nat>) returns (schedule: seq<Step>)
    ensures FromInside(schedule)
    ensures var s := Run(Init(signals), schedule);
            |s.bodies| == |signals| && s.undone == 0 && s.inGuard == 0
  {
    hide Run, EndedUpTo, LookedUpTo;
    var s := Init(signals);
    schedule := Launched(signals);
    var s1 := Run(s, schedule);
    var ends := AllEnd(s1, 0);
    var s2 := Run(s1, ends);
    EndedLooks(s2);
    var looks := AllLook(s2, 0);
    var s3 := Run(s2, looks);
    LookedCalls(s3);
    var calls := AllCall(s3, 0);
    var s4 := Run(s3, calls);
    var enters := seq(|signals|, _ => EnterShutdown);
    AllEnter(s4, |signals|);
    RunConcat(s3, calls, enters);
    RunConcat(s2, looks, calls + enters);
    RunConcat(s1, ends, looks + (calls + enters));
    RunConcat(s, schedule, ends + (looks + (calls + enters)));
    schedule := schedule + (ends + (looks + (calls + enters)));
  }
}
