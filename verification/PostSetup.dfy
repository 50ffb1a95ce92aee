/**
 The synchronisation of the post-setup phase: five goroutines on a wait group,
 one of which (logging) waits on an unbuffered channel for another (cloud
 metadata) that signals only after it has left the wait group. Two of them may
 fail and then hand their error to the main routine over an unbuffered channel,
 which the main routine closes as soon as it has one.
 */
module PostSetup {

  datatype Logging = LogStart | LogReceive | LogRun | LogDone

  datatype Cloud = CloudFetch | CloudSend | CloudSent

  /** A task that may fail. `Failing` offers the error, `Reported` has handed it over. */
  datatype Task = Working | Failing | Reported | Done

  /** `Received` has an error, `PoweringOff` has closed the channel and calls `SystemPanic`. */
  datatype Main = Waiting | Received | PoweringOff | Finished

  datatype Setup = Setup(
    logging: bool,      // logging is configured and the file system is writable
    shellFails: bool,
    ntpFails: bool)

  datatype State = State(
    nfsDone: bool,
    shell: Task,
    ntp: Task,
    logging: Logging,
    cloud: Cloud,
    group: int,         // the counter of the wait group; a negative value is a panic
    closed: bool,       // wgDone
    main: Main,
    crashed: bool,      // a send on the closed error channel ends the whole process
    fetched: bool,      // the metadata step has completed
    startedEarly: bool) // logging was started before that

  const INIT: State := State(false, Working, Working, LogStart, CloudFetch, 5, false, Waiting, false, false, false)

  datatype Which = Shell | Ntp

  datatype Step =
    | Nfs
    | Work(which: Which) | HandOver(which: Which) | Leave(which: Which) | Crash(which: Which)
    | LogBegin | LogStartUp | CloudDone | Rendezvous
    | Close | Finish | CloseErrors

  function TaskOf(s: State, which: Which): (t: Task) {
    if which == Shell then s.shell else s.ntp
  }

  function SetTask(s: State, which: Which, t: Task): (s': State) {
    if which == Shell then s.(shell := t) else s.(ntp := t)
  }

  predicate Fails(c: Setup, which: Which) {
    if which == Shell then c.shellFails else c.ntpFails
  }

  predicate Enabled(s: State, step: Step) {
    !s.crashed &&
    match step
    case Nfs => !s.nfsDone
    case Work(which) => TaskOf(s, which) == Working
    case HandOver(which) => TaskOf(s, which) == Failing && s.main == Waiting
    case Leave(which) => TaskOf(s, which) == Reported
    case Crash(which) => TaskOf(s, which) == Failing && s.main == PoweringOff
    case LogBegin => s.logging == LogStart
    case LogStartUp => s.logging == LogRun
    case CloudDone => s.cloud == CloudFetch
    case Rendezvous => s.logging == LogReceive && s.cloud == CloudSend
    case Close => s.group == 0 && !s.closed
    case Finish => s.closed && s.main == Waiting
    case CloseErrors => s.main == Received
  }

  function Apply(c: Setup, s: State, step: Step): (s': State)
    requires Enabled(s, step)
  {
    match step
    case Nfs => s.(nfsDone := true, group := s.group - 1)
    case Work(which) =>
      if Fails(c, which) then SetTask(s, which, Failing) else SetTask(s, which, Done).(group := s.group - 1)
    case HandOver(which) => SetTask(s, which, Reported).(main := Received)
    case Leave(which) => SetTask(s, which, Done).(group := s.group - 1)
    case Crash(_) => s.(crashed := true)
    case LogBegin => if c.logging then s.(logging := LogReceive) else s.(logging := LogDone, group := s.group - 1)
    case LogStartUp => s.(logging := LogDone, group := s.group - 1, startedEarly := s.startedEarly || !s.fetched)
    case CloudDone => s.(cloud := CloudSend, fetched := true, group := s.group - 1)
    case Rendezvous => s.(logging := LogRun, cloud := CloudSent)
    case Close => s.(closed := true)
    case Finish => s.(main := Finished)
    case CloseErrors => s.(main := PoweringOff)
  }

  /** Any schedule; a step that is not enabled in its turn is skipped. */
  function Run(c: Setup, s: State, schedule: seq<Step>): (r: State)
    decreases |schedule|
  {
    if schedule == [] then s
    else Run(c, if Enabled(s, schedule[0]) then Apply(c, s, schedule[0]) else s, schedule[1..])
  }

  /** The number of steps of the schedule that are enabled in their turn. */
  function Taken(c: Setup, s: State, schedule: seq<Step>): (n: nat)
    decreases |schedule|
  {
    if schedule == [] then 0
    else if Enabled(s, schedule[0]) then 1 + Taken(c, Apply(c, s, schedule[0]), schedule[1..])
    else Taken(c, s, schedule[1..])
  }

  function Bit(b: bool): (n: nat) {
    if b then 1 else 0
  }

  /** A task that fails has been heard when it is no longer at work on its error. */
  predicate Heard(c: Setup, s: State, which: Which) {
    Fails(c, which) && (TaskOf(s, which) == Reported || TaskOf(s, which) == Done)
  }

  ghost predicate TaskInv(c: Setup, s: State, which: Which) {
    TaskOf(s, which) == Failing || TaskOf(s, which) == Reported ==> Fails(c, which)
  }

  /** The wait group counts the goroutines that have not left it. */
  ghost predicate GroupInv(s: State) {
    && s.group == Bit(!s.nfsDone) + Bit(s.shell != Done) + Bit(s.ntp != Done) + Bit(s.logging != LogDone)
                  + Bit(s.cloud == CloudFetch)
    && (s.closed ==> s.group == 0)
    && (s.main == Finished ==> s.closed)
  }

  /** The main routine hears at most one error, and goes to power off exactly when it has heard one. */
  ghost predicate ErrorInv(c: Setup, s: State) {
    && TaskInv(c, s, Shell) && TaskInv(c, s, Ntp)
    && !(Heard(c, s, Shell) && Heard(c, s, Ntp))
    && (s.main == Received || s.main == PoweringOff <==> Heard(c, s, Shell) || Heard(c, s, Ntp))
    && (s.crashed ==> c.shellFails && c.ntpFails && s.main == PoweringOff)
  }

  ghost predicate LoggingInv(c: Setup, s: State) {
    && (s.fetched <==> s.cloud != CloudFetch)
    && (s.logging == LogReceive || s.logging == LogRun ==> c.logging)
    && (s.logging == LogRun ==> s.cloud == CloudSent)
    && (s.cloud == CloudSent ==> c.logging && (s.logging == LogRun || s.logging == LogDone))
    && (s.logging == LogDone && c.logging ==> s.cloud == CloudSent)
    && !s.startedEarly
  }

  ghost predicate Inv(c: Setup, s: State) {
    GroupInv(s) && ErrorInv(c, s) && LoggingInv(c, s)
  }

  function TaskLeft(t: Task): (n: nat) {
    match t case Working => 3 case Failing => 2 case Reported => 1 case Done => 0
  }

  function GroupLeft(s: State): (n: nat) {
    Bit(!s.nfsDone) + Bit(!s.closed) + TaskLeft(s.shell) + TaskLeft(s.ntp)
  }

  function LoggingLeft(s: State): (n: nat) {
    (match s.logging case LogStart => 3 case LogReceive => 2 case LogRun => 1 case LogDone => 0)
    + (match s.cloud case CloudFetch => 2 case CloudSend => 1 case CloudSent => 0)
  }

  function MainLeft(s: State): (n: nat) {
    (match s.main case Waiting => 2 case Received => 1 case _ => 0) + Bit(!s.crashed)
  }

  /** Work left; every step that is taken reduces it. */
  function Left(s: State): (n: nat) {
    GroupLeft(s) + LoggingLeft(s) + MainLeft(s)
  }

  predicate OfLogging(step: Step) {
    step.LogBegin? || step.LogStartUp? || step.CloudDone? || step.Rendezvous?
  }

  predicate OfTask(step: Step) {
    step.Work? || step.HandOver? || step.Leave? || step.Crash?
  }

  /** A step of a task changes that task, the wait group and the main routine, and nothing else. */
  lemma TaskStepIsLocal(c: Setup, s: State, step: Step)
    requires Enabled(s, step) && OfTask(step)
    ensures var s' := Apply(c, s, step);
            && s'.nfsDone == s.nfsDone && s'.closed == s.closed && s'.logging == s.logging && s'.cloud == s.cloud
            && s'.fetched == s.fetched && s'.startedEarly == s.startedEarly
            && (step.which == Shell ==> s'.ntp == s.ntp) && (step.which == Ntp ==> s'.shell == s.shell)
  {
  }

  lemma TaskStepCounts(c: Setup, s: State, step: Step)
    requires Enabled(s, step) && OfTask(step)
    ensures var s', t, t' := Apply(c, s, step), TaskOf(s, step.which), TaskOf(Apply(c, s, step), step.which);
            && t != Done && s.group - s'.group == Bit(t' == Done) && (s'.main == Finished <==> s.main == Finished)
            && TaskLeft(t') + MainLeft(s') < TaskLeft(t) + MainLeft(s)
  {
  }

  lemma StepKeepsGroup(c: Setup, s: State, step: Step)
    requires GroupInv(s) && Enabled(s, step)
    ensures GroupInv(Apply(c, s, step))
  {
    if OfTask(step) {
      TaskStepIsLocal(c, s, step);
      TaskStepCounts(c, s, step);
      hide Apply, Enabled;
    }
  }

  lemma StepKeepsError(c: Setup, s: State, step: Step)
    requires ErrorInv(c, s) && Enabled(s, step)
    ensures ErrorInv(c, Apply(c, s, step))
  {
    if OfTask(step) {
      TaskStepKeepsError(c, s, step);
    } else {
      var s' := Apply(c, s, step);
      assert s'.shell == s.shell && s'.ntp == s.ntp && s'.crashed == s.crashed;
      assert TaskOf(s', Shell) == TaskOf(s, Shell) && TaskOf(s', Ntp) == TaskOf(s, Ntp);
      hide TaskOf, Fails;
    }
  }

  lemma TaskStepKeepsError(c: Setup, s: State, step: Step)
    requires ErrorInv(c, s) && Enabled(s, step) && OfTask(step)
    ensures ErrorInv(c, Apply(c, s, step))
  {
    hide ErrorInv, Apply, Enabled;
    if step.Work? {
      WorkKeepsError(c, s, step.which);
    } else if step.Crash? {
      CrashKeepsError(c, s, step.which);
    } else {
      ReportKeepsError(c, s, step);
    }
  }

  lemma WorkKeepsError(c: Setup, s: State, which: Which)
    requires ErrorInv(c, s) && Enabled(s, Work(which))
    ensures ErrorInv(c, Apply(c, s, Work(which)))
  {
  }

  lemma CrashKeepsError(c: Setup, s: State, which: Which)
    requires ErrorInv(c, s) && Enabled(s, Crash(which))
    ensures ErrorInv(c, Apply(c, s, Crash(which)))
  {
  }

  lemma ReportKeepsError(c: Setup, s: State, step: Step)
    requires ErrorInv(c, s) && Enabled(s, step) && (step.HandOver? || step.Leave?)
    ensures ErrorInv(c, Apply(c, s, step))
  {
  }

  lemma StepKeepsLogging(c: Setup, s: State, step: Step)
    requires LoggingInv(c, s) && Enabled(s, step)
    ensures LoggingInv(c, Apply(c, s, step))
  {
  }

  lemma StepShrinks(c: Setup, s: State, step: Step)
    requires Enabled(s, step)
    ensures Left(Apply(c, s, step)) < Left(s)
  {
    hide Apply, Enabled, GroupLeft, LoggingLeft, MainLeft;
    if OfLogging(step) {
      LoggingStepShrinks(c, s, step);
    } else {
      OtherStepShrinks(c, s, step);
    }
  }

  lemma LoggingStepShrinks(c: Setup, s: State, step: Step)
    requires Enabled(s, step) && OfLogging(step)
    ensures LoggingLeft(Apply(c, s, step)) < LoggingLeft(s)
    ensures GroupLeft(Apply(c, s, step)) == GroupLeft(s) && MainLeft(Apply(c, s, step)) == MainLeft(s)
  {
  }

  lemma OtherStepShrinks(c: Setup, s: State, step: Step)
    requires Enabled(s, step) && !OfLogging(step)
    ensures LoggingLeft(Apply(c, s, step)) == LoggingLeft(s)
    ensures GroupLeft(Apply(c, s, step)) + MainLeft(Apply(c, s, step)) < GroupLeft(s) + MainLeft(s)
  {
    if OfTask(step) {
      TaskStepIsLocal(c, s, step);
      TaskStepCounts(c, s, step);
      hide Apply, Enabled, MainLeft, TaskLeft, Bit;
    }
  }

  lemma {:induction false} RunKeeps(c: Setup, s: State, schedule: seq<Step>)
    requires Inv(c, s)
    ensures Inv(c, Run(c, s, schedule)) && Left(Run(c, s, schedule)) + Taken(c, s, schedule) <= Left(s)
    decreases |schedule|
  {
    if schedule != [] {
      if Enabled(s, schedule[0]) {
        StepKeepsGroup(c, s, schedule[0]);
        StepKeepsError(c, s, schedule[0]);
        StepKeepsLogging(c, s, schedule[0]);
        StepShrinks(c, s, schedule[0]);
        hide GroupInv, ErrorInv, LoggingInv, Apply, Left;
        RunKeeps(c, Apply(c, s, schedule[0]), schedule[1..]);
      } else {
        RunKeeps(c, s, schedule[1..]);
      }
    }
  }

  ghost predicate Stuck(s: State) {
    forall step :: !Enabled(s, step)
  }

  /** Every state can be run to one in which nothing can move. */
  lemma {:induction false} Completion(c: Setup, s: State) returns (schedule: seq<Step>)
    ensures Stuck(Run(c, s, schedule))
    decreases Left(s)
  {
    schedule := [];
    if !Stuck(s) {
      var step :| Enabled(s, step);
      StepShrinks(c, s, step);
      var rest := Completion(c, Apply(c, s, step));
      schedule := [step] + rest;
      assert schedule[1..] == rest;
    }
  }

  /**
   Short of a crash nothing can move only when every task has left the wait group
   and the main routine has gone on.
   */
  lemma StuckMeans(c: Setup, s: State)
    requires Inv(c, s) && Stuck(s) && !s.crashed
    ensures s.group == 0 && s.closed && s.logging == LogDone && s.shell == Done && s.ntp == Done
    ensures s.main == Finished || s.main == PoweringOff
  {
    assert !Enabled(s, Nfs) && !Enabled(s, Close) && !Enabled(s, Finish) && !Enabled(s, CloseErrors);
    assert !Enabled(s, LogBegin) && !Enabled(s, LogStartUp) && !Enabled(s, CloudDone) && !Enabled(s, Rendezvous);
    forall which ensures TaskOf(s, which) == Done || (TaskOf(s, which) == Failing && s.main == Finished) {
      assert !Enabled(s, Work(which)) && !Enabled(s, HandOver(which));
      assert !Enabled(s, Leave(which)) && !Enabled(s, Crash(which));
    }
    assert TaskOf(s, Shell) == s.shell && TaskOf(s, Ntp) == s.ntp;
  }

  /**
   In every interleaving: at most sixteen steps are taken; the wait group never
   goes below zero; logging starts only after the metadata step; and the main
   routine goes on as if all were well only if no task fails.
   */
  lemma PhaseIsSafe(c: Setup, schedule: seq<Step>)
    ensures var s := Run(c, INIT, schedule);
            && 0 <= s.group && !s.startedEarly
            && (s.main == Finished ==> !c.shellFails && !c.ntpFails && s.group == 0)
            && (s.main == PoweringOff ==> c.shellFails || c.ntpFails)
            && (s.crashed ==> c.shellFails && c.ntpFails)
    ensures Taken(c, INIT, schedule) <= 16
  {
    RunKeeps(c, INIT, schedule);
  }

  /**
   A run that cannot go on has come to the one end that the failures prescribe:
   success without any, power-off with one, and with two the send on the closed
   channel. Short of that all tasks have left the wait group, and the metadata
   goroutine is blocked for ever exactly when logging was not waiting for it.
   */
  lemma PhaseCompletes(c: Setup, schedule: seq<Step>)
    requires Stuck(Run(c, INIT, schedule))
    ensures var s := Run(c, INIT, schedule);
            && (s.main == Finished <==> !c.shellFails && !c.ntpFails)
            && (s.main == PoweringOff <==> c.shellFails || c.ntpFails)
            && (s.crashed <==> c.shellFails && c.ntpFails)
            && (!s.crashed ==> s.group == 0 && s.logging == LogDone && (s.cloud == CloudSend <==> !c.logging))
  {
    RunKeeps(c, INIT, schedule);
    var s := Run(c, INIT, schedule);
    if !s.crashed {
      StuckMeans(c, s);
    }
  }

  /** As long as the main routine has not gone on and nothing has crashed, some goroutine can move. */
  lemma NoDeadlock(c: Setup, s: State)
    requires Inv(c, s) && !s.crashed && (s.main == Waiting || s.main == Received)
    ensures exists step :: Enabled(s, step)
  {
    if Stuck(s) {
      StuckMeans(c, s);
    }
  }
}
