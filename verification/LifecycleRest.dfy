/**
 Coming to rest: from every reachable state the waiters, the reaper loop, the
 scans and the callers in the guard of `shutdown` can be run until nothing of
 theirs is left to do. So the quiet states, for which it is known exactly whether
 the machine has powered off, are within reach at any time.
 */
module LifecycleRest {
  import opened Lifecycle
  import opened LifecycleSafety
  import opened LifecycleStory

  /** Steps that finish what has begun: nothing is launched, ends, or calls from outside. */
  predicate Settling(step: Step) {
    || step.Deliver? || step.EnterShutdown?
    || (step.ScanStep? && (step.scan.Start? ==> step.scan.table == 0))
    || (step.ProgramStep? && (step.e.SetState? || step.e.CloseChannel?))
  }

  ghost predicate Settles(schedule: seq<Step>) {
    forall i :: 0 <= i < |schedule| ==> Settling(schedule[i])
  }

  /** Waiters exist only once the programs are being launched. */
  ghost predicate WaitersLaunched(s: State) {
    LaunchedYet(s) || forall i :: 0 <= i < |s.programs| ==> s.programs[i].waiter.NotStarted?
  }

  lemma StepKeepsLaunched(s: State, step: Step)
    requires WaitersLaunched(s) && Enabled(s, step)
    ensures WaitersLaunched(Apply(s, step))
  {
    hide Counted, CanHappen, After, AfterBody, NewKills;
  }

  lemma {:induction false} RunKeepsLaunched(s: State, schedule: seq<Step>)
    requires WaitersLaunched(s)
    ensures WaitersLaunched(Run(s, schedule))
    decreases |schedule|
  {
    hide Apply, Enabled, WaitersLaunched;
    if schedule != [] {
      if Enabled(s, schedule[0]) {
        StepKeepsLaunched(s, schedule[0]);
        RunKeepsLaunched(Apply(s, schedule[0]), schedule[1..]);
      } else {
        RunKeepsLaunched(s, schedule[1..]);
      }
    }
  }

  // ---------------------------------------------------------------- one scan

  /** What a scan leaves alone. */
  ghost predicate SameButScans(s: State, s': State) {
    s'.programs == s.programs && s'.queue == s.queue && s'.main == s.main && s'.tableEmpty == s.tableEmpty
  }

  ghost predicate NextInRange(s: State, o: Owner) {
    o in s.scans && (s.scans[o].Scanning? ==> s.scans[o].next <= |s.programs|)
  }

  /** The scan of `o` is over: it has returned, or is stuck in `shutdown`. */
  ghost predicate Over(s: State, o: Owner) {
    o in s.scans ==> s.scans[o].Stuck?
  }

  /** How far a scan is from its end. */
  function ScanLeft(s: State, o: Owner): (n: int)
    requires o in s.scans
  {
    match s.scans[o]
    case Due => |s.programs| + 4
    case Scanning(next, _) => |s.programs| - next + 3
    case Marking => 2
    case Calling => 1
    case Stuck => 0
  }

  /** The next thing a scan does. */
  function NextAction(s: State, o: Owner): (a: ScanAction)
    requires o in s.scans && !s.scans[o].Stuck?
  {
    match s.scans[o]
    case Due => Start(0)
    case Scanning(next, _) => if next < |s.programs| then One else End
    case Marking => Mark
    case Calling => Call
  }

  lemma ScanEnabled(s: State, o: Owner)
    requires NextInRange(s, o) && !Over(s, o)
    ensures CanScan(s, o, NextAction(s, o))
  {
  }

  lemma ScanMoves(s: State, o: Owner, a: ScanAction)
    requires CanScan(s, o, a) && (a.Start? ==> a.table == 0)
    ensures SameButScans(s, AfterScan(s, o, a)) && AfterScan(s, o, a).scans - {o} == s.scans - {o}
  {
    hide Counted, SomeCounted, CallShutdown;
  }

  lemma ScanAdvances(s: State, o: Owner)
    requires NextInRange(s, o) && !Over(s, o)
    ensures CanScan(s, o, NextAction(s, o))
    ensures var s' := AfterScan(s, o, NextAction(s, o));
            && SameButScans(s, s') && s'.scans - {o} == s.scans - {o}
            && (o in s'.scans ==> NextInRange(s', o) && 0 <= ScanLeft(s', o) < ScanLeft(s, o))
  {
    hide Counted, SomeCounted;
    ScanEnabled(s, o);
    ScanMoves(s, o, NextAction(s, o));
    hide SameButScans, CanScan;
  }

  /** A scan is run to its end; it may leave its owner in the guard. */
  lemma {:induction false} FinishScan(s: State, o: Owner) returns (schedule: seq<Step>)
    requires NextInRange(s, o)
    ensures Settles(schedule) && SameButScans(s, Run(s, schedule))
    ensures Over(Run(s, schedule), o) && Run(s, schedule).scans - {o} == s.scans - {o}
    decreases ScanLeft(s, o)
  {
    schedule := [];
    RunNothing(s);
    if !Over(s, o) {
      ScanAdvances(s, o);
      var step := ScanStep(o, NextAction(s, o));
      var s' := AfterScan(s, o, NextAction(s, o));
      RunSingle(s, step);
      hide Run, AfterScan, CanScan;
      schedule := [step];
      if o in s'.scans {
        var rest := FinishScan(s', o);
        RunConcat(s, [step], rest);
        schedule := [step] + rest;
      }
    }
  }

  /** Nobody else's scan changes. */
  lemma OthersKept(s: State, s': State, o: Owner, p: Owner)
    requires s'.scans - {o} == s.scans - {o} && p != o
    ensures p in s'.scans <==> p in s.scans
    ensures p in s.scans ==> s'.scans[p] == s.scans[p]
  {
    assert p in s.scans - {o} <==> p in s.scans;
    assert p in s'.scans - {o} <==> p in s'.scans;
    assert p in s.scans ==> (s.scans - {o})[p] == s.scans[p] && (s'.scans - {o})[p] == s'.scans[p];
  }

  ghost predicate AllInRange(s: State) {
    forall o :: o in s.scans ==> NextInRange(s, o)
  }

  ghost predicate AllOver(s: State) {
    forall o :: o in s.scans ==> Over(s, o)
  }

  function Unfinished(s: State): (os: set<Owner>) {
    set o | o in s.scans && !s.scans[o].Stuck?
  }

  lemma {:induction false} FinishScans(s: State) returns (schedule: seq<Step>)
    requires AllInRange(s)
    ensures Settles(schedule) && SameButScans(s, Run(s, schedule)) && AllOver(Run(s, schedule))
    decreases Unfinished(s)
  {
    hide Run;
    schedule := [];
    RunNothing(s);
    if Unfinished(s) == {} {
      forall o | o in s.scans
        ensures Over(s, o)
      {
        assert o !in Unfinished(s);
      }
    } else {
      var o :| o in Unfinished(s);
      schedule := FinishScan(s, o);
      var s' := Run(s, schedule);
      forall p | p != o
        ensures p in s'.scans <==> p in s.scans
        ensures p in s.scans ==> s'.scans[p] == s.scans[p]
      {
        OthersKept(s, s', o, p);
      }
      assert o !in Unfinished(s') && o in Unfinished(s);
      var rest := FinishScans(s');
      RunConcat(s, schedule, rest);
      schedule := schedule + rest;
    }
  }

  /** A new scan, and those that are over, leave only scans that are over. */
  lemma OneMoreOver(s: State, s1: State, s2: State, o: Owner)
    requires AllOver(s) && s1.scans - {o} == s.scans - {o} && s2.scans - {o} == s1.scans - {o} && Over(s2, o)
    ensures AllOver(s2)
  {
    forall p | p in s2.scans
      ensures Over(s2, p)
    {
      if p != o {
        OthersKept(s, s2, o, p);
      }
    }
  }

  // -------------------------------------------------------------- the waiters

  predicate Resting(p: Program) {
    !p.waiter.Holding? && !p.waiter.StateSet?
  }

  /** Between two turns: all scans are over, and the first `k` waiters rest. */
  ghost predicate RestUpTo(s: State, k: nat) {
    && WaitersLaunched(s) && AllOver(s) && k <= |s.programs|
    && forall i :: 0 <= i < k ==> Resting(s.programs[i])
  }

  lemma WaiterSets(s: State, i: nat)
    requires LaunchedYet(s) && Has(s, i) && s.programs[i].waiter.Holding?
    ensures var p := s.programs[i];
            Run(s, [ProgramStep(i, SetState)]) ==
            s.(programs := s.programs[i := p.(processState := p.waiter.state, waiter := StateSet)])
  {
    RunSingle(s, ProgramStep(i, SetState));
  }

  lemma WaiterCloses(s: State, i: nat)
    requires LaunchedYet(s) && Has(s, i) && s.programs[i].waiter.StateSet?
    ensures var p := s.programs[i];
            Run(s, [ProgramStep(i, CloseChannel)]) ==
            s.(programs := s.programs[i := p.(waiter := Closed, closes := p.closes + 1)],
               scans := s.scans[WaiterOf(i) := Due])
  {
    RunSingle(s, ProgramStep(i, CloseChannel));
  }

  /** The same but for one program. */
  ghost predicate SameBut(s: State, s': State, k: nat) {
    && |s'.programs| == |s.programs| && s'.queue == s.queue && s'.main == s.main && s'.tableEmpty == s.tableEmpty
    && forall i :: 0 <= i < |s.programs| && i != k ==> s'.programs[i] == s.programs[i]
  }

  /** A waiter that holds a status records it, closes its channel and looks around. */
  lemma FinishWaiter(s: State, k: nat) returns (schedule: seq<Step>)
    requires LaunchedYet(s) && Has(s, k) && AllOver(s) && !Resting(s.programs[k])
    ensures Settles(schedule) && SameBut(s, Run(s, schedule), k)
    ensures AllOver(Run(s, schedule)) && Resting(Run(s, schedule).programs[k])
  {
    hide Run;
    var first: seq<Step> := [];
    RunNothing(s);
    if s.programs[k].waiter.Holding? {
      WaiterSets(s, k);
      first := [ProgramStep(k, SetState)];
    }
    var s1 := Run(s, first);
    assert SameBut(s, s1, k) && s1.programs[k].waiter.StateSet? && s1.scans == s.scans;
    WaiterCloses(s1, k);
    var s2 := Run(s1, [ProgramStep(k, CloseChannel)]);
    assert SameBut(s, s2, k) && Resting(s2.programs[k]) && s2.scans == s.scans[WaiterOf(k) := Due];
    assert s2.scans - {WaiterOf(k)} == s.scans - {WaiterOf(k)};
    var look := FinishScan(s2, WaiterOf(k));
    OneMoreOver(s, s2, Run(s2, look), WaiterOf(k));
    RunConcat(s1, [ProgramStep(k, CloseChannel)], look);
    RunConcat(s, first, [ProgramStep(k, CloseChannel)] + look);
    schedule := first + ([ProgramStep(k, CloseChannel)] + look);
  }

  lemma {:induction false} FinishWaiters(s: State, k: nat) returns (schedule: seq<Step>)
    requires RestUpTo(s, k)
    ensures Settles(schedule) && |Run(s, schedule).programs| == |s.programs|
    ensures RestUpTo(Run(s, schedule), |s.programs|) && Run(s, schedule).queue == s.queue
    ensures Run(s, schedule).tableEmpty == s.tableEmpty
    decreases |s.programs| - k
  {
    hide Run;
    schedule := [];
    RunNothing(s);
    if k < |s.programs| {
      if !Resting(s.programs[k]) {
        schedule := FinishWaiter(s, k);
      }
      var rest := FinishWaiters(Run(s, schedule), k + 1);
      RunConcat(s, schedule, rest);
      schedule := schedule + rest;
    }
  }

  // --------------------------------------------------------- the reaper's queue

  lemma {:induction false} FinishQueue(s: State) returns (schedule: seq<Step>)
    requires RestUpTo(s, |s.programs|)
    ensures Settles(schedule) && |Run(s, schedule).programs| == |s.programs|
    ensures RestUpTo(Run(s, schedule), |s.programs|)
    ensures Run(s, schedule).queue == [] || ReaperLoop in Run(s, schedule).scans
    ensures Run(s, schedule).tableEmpty == s.tableEmpty
    decreases |s.queue|
  {
    RunNothing(s);
    schedule := [];
    if s.queue != [] && ReaperLoop !in s.scans {
      RunSingle(s, Deliver);
      hide Run;
      var s1 := Apply(s, Deliver);
      var look := FinishScan(s1, ReaperLoop);
      assert s1.scans - {ReaperLoop} == s.scans - {ReaperLoop};
      var s2 := Run(s1, look);
      OneMoreOver(s, s1, s2, ReaperLoop);
      var rest := FinishQueue(s2);
      RunConcat(s1, look, rest);
      RunConcat(s, [Deliver], look + rest);
      schedule := [Deliver] + (look + rest);
    }
  }

  // ------------------------------------------------------------------ the guard

  lemma {:induction false} FinishGuard(s: State)
    ensures var s' := Run(s, seq(s.inGuard, _ => EnterShutdown));
            && s'.inGuard == 0 && s'.programs == s.programs && s'.queue == s.queue && s'.scans == s.scans
            && s'.tableEmpty == s.tableEmpty
    decreases s.inGuard
  {
    if s.inGuard > 0 {
      var steps := seq(s.inGuard, _ => EnterShutdown);
      assert steps[1..] == seq(s.inGuard - 1, _ => EnterShutdown);
      FinishGuard(EnterBody(s));
    }
  }

  // ----------------------------------------------------------------- all of it

  lemma Reached(signals: seq<nat>, schedule: seq<Step>)
    ensures var s := Run(Init(signals), schedule);
            AllInRange(s) && WaitersLaunched(s)
  {
    hide Run, ProgramsOk, QueueOk, CountsOk, ProgressOk, BodiesOk;
    InitInv(signals);
    RunKeepsInv(Init(signals), schedule);
    RunKeepsLaunched(Init(signals), schedule);
  }

  /** Every run can be brought to rest by steps that only finish what has begun. */
  lemma ComesToRest(signals: seq<nat>, schedule: seq<Step>) returns (more: seq<Step>)
    ensures Settles(more) && Quiet(Run(Init(signals), schedule + more))
    ensures var s := Run(Init(signals), schedule + more);
            forall k :: 0 <= k < |s.queue| ==> s.queue[k].Other?
    ensures Run(Init(signals), schedule + more).tableEmpty == Run(Init(signals), schedule).tableEmpty
  {
    var s := Run(Init(signals), schedule);
    Reached(signals, schedule);
    hide Run;
    var scans := FinishScans(s);
    var s1 := Run(s, scans);
    var waiters := FinishWaiters(s1, 0);
    var s2 := Run(s1, waiters);
    var queue := FinishQueue(s2);
    var s3 := Run(s2, queue);
    var enters := seq(s3.inGuard, _ => EnterShutdown);
    FinishGuard(s3);
    RunConcat(s2, queue, enters);
    RunConcat(s1, waiters, queue + enters);
    RunConcat(s, scans, waiters + (queue + enters));
    more := scans + (waiters + (queue + enters));
    RunConcat(Init(signals), schedule, more);
    QuietRun(signals, schedule + more);
  }

  lemma QuietRun(signals: seq<nat>, schedule: seq<Step>)
    requires Quiet(Run(Init(signals), schedule))
    ensures var s := Run(Init(signals), schedule);
            forall k :: 0 <= k < |s.queue| ==> s.queue[k].Other?
  {
    hide Run, Inv, Quiet;
    InitInv(signals);
    RunKeepsInv(Init(signals), schedule);
    QuietQueue(Run(Init(signals), schedule));
  }

  /**
   With `PowerOffExactly`: if no scan begun while no program was counted has found
   a foreign process, the run can be brought to rest, and has then powered off if
   and only if each program left a trace.
   */
  lemma DecidedAtRest(signals: seq<nat>, schedule: seq<Step>) returns (more: seq<Step>)
    requires signals != [] && Run(Init(signals), schedule).tableEmpty
    ensures Settles(more)
    ensures var s := Run(Init(signals), schedule + more);
            && Quiet(s)
            && (0 < s.calls <==> forall i :: 0 <= i < |s.programs| ==> LeftTrace(s, i))
            && (0 < s.calls ==> s.bodies != [])
  {
    hide Run, Quiet, LeftTrace;
    more := ComesToRest(signals, schedule);
    PowerOffExactly(signals, schedule + more);
  }
}
