/**
 The life of the configured programs and the shutdown of the machine, as a
 step system: every goroutine of the init process (a launcher and a waiter per
 program, the child reaper, the process listener, the main routine, and
 whatever calls `shutdown` from outside) advances in small steps, in any order.
 `handleExit` reads one program per step, so it never sees a snapshot, and
 nothing locks the status between its reads and its writes. The kernel hands out
 each exit status once, either to the reaper or to `Wait`, and does not reuse a
 pid.
 */
module Lifecycle {
  import opened Wrappers

  // ---------------------------------------------------------------- programs

  datatype Exit = Normal(code: nat) | Killed(signal: nat)

  datatype Collector = ByReaper | ByWait

  datatype Process = NotForked | Running | Zombie(exit: Exit) | Collected(exit: Exit, via: Collector)

  /** Progress of `launchProgram` and `launch`. */
  datatype Launcher = Preparing | CmdSet | Forked | HandleSet | WaiterStarted | Registered | Failed

  /** Progress of `waitForApp`; `Holding` is the status `Wait` got but has not stored yet. */
  datatype Waiter = NotStarted | Waiting | Holding(state: Option<Exit>) | StateSet | Closed

  datatype Program = Program(
    signal: nat,                  // the configured terminate signal
    launcher: Launcher,
    cmd: bool,                    // p.cmd != nil
    handle: bool,                 // p.cmd.Process != nil
    process: Process,
    processState: Option<Exit>,   // p.cmd.ProcessState
    reaper: bool,                 // p.reaper
    missed: bool,                 // its pid was delivered before the handle was recorded
    waiter: Waiter,
    closes: nat)                  // how often the exit channel was closed

  function NewProgram(signal: nat): (p: Program) {
    Program(signal, Preparing, false, false, NotForked, None, false, false, NotStarted, 0)
  }

  /** The three conditions under which `handleExit` counts a program as not finished. */
  predicate Counted(p: Program) {
    if !p.cmd then true
    else if p.processState.None? && !p.reaper then true
    else p.processState.Some? && !p.processState.value.Normal?
  }

  datatype ProcessEntry = ProcessEntry(pid: int, ppid: int, executable: string)

  /** A process that keeps the machine running: neither a kernel thread, nor a child of init, nor a helper. */
  predicate Foreign(e: ProcessEntry) {
    e.pid > 2 && e.ppid > 2 && e.executable != "chronyd" && e.executable != "fluent-bit"
  }

  /** The counting loops of `handleExit`, when nothing else moves. */
  method CountRunning(table: seq<ProcessEntry>, programs: seq<Program>) returns (count: nat)
    ensures count == 0 <==>
              && (forall i :: 0 <= i < |table| ==>
                    table[i].pid <= 2 || table[i].ppid <= 2 || table[i].executable in ["chronyd", "fluent-bit"])
              && (forall i :: 0 <= i < |programs| ==> !Counted(programs[i]))
  {
    count := 0;
    for i := 0 to |table|
      invariant count == 0 <==> forall j :: 0 <= j < i ==> !Foreign(table[j])
    {
      if Foreign(table[i]) {
        count := count + 1;
      }
    }
    ghost var foreign := count;
    for i := 0 to |programs|
      invariant count == 0 <==> foreign == 0 && forall j :: 0 <= j < i ==> !Counted(programs[j])
    {
      var p := programs[i];
      if !p.cmd {
        count := count + 1;
      } else if p.processState.None? && !p.reaper {
        count := count + 1;
      } else if p.processState.Some? && !p.processState.value.Normal? {
        count := count + 1;
      }
    }
  }

  // --------------------------------------------------------- scans and rounds

  /** Who runs `handleExit`. */
  datatype Owner = Listener | ReaperLoop | WaiterOf(program: nat)

  /**
   A call of `handleExit`: about to start, at program `next` with count zero or
   not, about to set `instantShutdown`, about to call `shutdown`, or inside it for
   good.
   */
  datatype Scan = Due | Scanning(next: nat, zero: bool) | Marking | Calling | Stuck

  datatype Phase = Entered | SkippedSignals | Terminating | Terminated | TimedOut

  /** A goroutine of `sendTerminateSignals`. */
  datatype Sender = Pending | Finished | Signalled | Woken

  /** One execution of the body of `shutdown`. */
  datatype Body = Body(phase: Phase, targets: map<nat, nat>, senders: map<nat, Sender>)

  datatype Kill = Kill(body: nat, program: nat, signal: nat)

  /** Who calls `shutdown` besides `handleExit`; each is busy once it is past the guard. */
  datatype Caller = SignalHandler | PowerLoop(device: nat) | GuestTools | Panic(goroutine: nat)

  datatype Reaped = Child(program: nat) | Other

  datatype Status = StatusSetup | StatusRun | StatusLaunched | StatusPoweroff

  datatype Main = BeforeRun | BeforeLaunch | Launching | Done

  datatype State = State(
    programs: seq<Program>,
    queue: seq<Reaped>,           // pids the reaper collected and has not delivered
    scans: map<Owner, Scan>,
    terminateSignals: map<nat, nat>,
    status: Status,
    instantShutdown: bool,
    main: Main,
    bodies: seq<Body>,
    inside: set<Caller>,          // outside callers that are past the guard of shutdown
    inGuard: nat,                 // callers of shutdown that have read the status and not yet written it
    // history
    kills: seq<Kill>,
    calls: nat,                   // calls of shutdown made by handleExit
    raced: nat,                   // callers that passed the guard while another was in it
    undone: nat,                  // status writes of the main routine over a power-off, with nobody in the guard
    unracedAtLaunch: int,         // the other callers that had passed when Launch wrote its status
    deliveries: map<nat, bool>,   // programs whose pid was delivered: was the handle recorded then?
    tableEmpty: bool)             // no scan begun while no program was counted found a foreign process

  function Init(signals: seq<nat>): (s: State) {
    State(seq(|signals|, i requires 0 <= i < |signals| => NewProgram(signals[i])), [], map[], map[],
          StatusSetup, false, BeforeRun, [], {}, 0, [], 0, 0, 0, 0, map[], true)
  }

  // ------------------------------------------------------------ program steps

  /** Steps of one program's launcher, process, reaper and waiter. */
  datatype Event =
    | SetCmd | FailLaunch | Fork | SetHandle | StartWaiter | Register
    | Exits(exit: Exit)
    | Reap
    | WaitCollects | WaitFindsNothing | SetState | CloseChannel

  predicate CanHappen(p: Program, e: Event) {
    match e
    case SetCmd => p.launcher.Preparing?
    case FailLaunch => p.launcher.Preparing? || p.launcher.CmdSet?
    case Fork => p.launcher.CmdSet?
    case SetHandle => p.launcher.Forked?
    case StartWaiter => p.launcher.HandleSet?
    case Register => p.launcher.WaiterStarted?
    case Exits(_) => p.process.Running?
    case Reap => p.process.Zombie?
    case WaitCollects => p.waiter.Waiting? && p.process.Zombie?
    case WaitFindsNothing => p.waiter.Waiting? && p.process.Collected?
    case SetState => p.waiter.Holding?
    case CloseChannel => p.waiter.StateSet?
  }

  function After(p: Program, e: Event): (p': Program)
    requires CanHappen(p, e)
  {
    match e
    case SetCmd => p.(launcher := CmdSet, cmd := true)
    case FailLaunch => p.(launcher := Failed)
    case Fork => p.(launcher := Forked, process := Running)
    case SetHandle => p.(launcher := HandleSet, handle := true)
    case StartWaiter => p.(launcher := WaiterStarted, waiter := Waiting)
    case Register => p.(launcher := Registered)
    case Exits(exit) => p.(process := Zombie(exit))
    case Reap => p.(process := Collected(p.process.exit, ByReaper))
    case WaitCollects => p.(process := Collected(p.process.exit, ByWait), waiter := Holding(Some(p.process.exit)))
    case WaitFindsNothing => p.(waiter := Holding(None))
    case SetState => p.(processState := p.waiter.state, waiter := StateSet)
    case CloseChannel => p.(waiter := Closed, closes := p.closes + 1)
  }

  /** The reaper loop gets the pid of a program; it finds the program only if the handle is recorded. */
  function Delivered(p: Program): (p': Program) {
    if p.cmd && p.handle then p.(reaper := true) else p.(missed := true)
  }

  // -------------------------------------------------------- shutdown and scans

  predicate Has(s: State, i: nat) {
    i < |s.programs|
  }

  predicate LaunchedYet(s: State) {
    s.main.Launching? || s.main.Done?
  }

  /** A call of `shutdown` reads the status; nothing locks it until it is written. */
  function CallShutdown(s: State): (s': State)
    ensures s' == s.(inGuard := s'.inGuard, raced := s'.raced)
  {
    if s.status.StatusPoweroff? then s
    else s.(inGuard := s.inGuard + 1, raced := s.raced + if s.inGuard == 0 then 0 else 1)
  }

  /** A caller that passed the guard writes the status; the body continues on its own. */
  function EnterBody(s: State): (s': State)
    requires 0 < s.inGuard
    ensures s' == s.(inGuard := s.inGuard - 1, status := StatusPoweroff, bodies := s'.bodies)
  {
    s.(inGuard := s.inGuard - 1, status := StatusPoweroff, bodies := s.bodies + [Body(Entered, map[], map[])])
  }

  /** Passed callers that did not race. */
  function Unraced(s: State): (n: int) {
    |s.bodies| + s.inGuard - s.raced
  }

  predicate SomeCounted(s: State) {
    exists i :: 0 <= i < |s.programs| && Counted(s.programs[i])
  }

  /** Steps of a call of `handleExit`. */
  datatype ScanAction = Start(table: nat) | One | End | Mark | Call

  predicate CanScan(s: State, o: Owner, a: ScanAction) {
    && o in s.scans
    && match a
       case Start(_) => s.scans[o].Due?
       case One => s.scans[o].Scanning? && s.scans[o].next < |s.programs|
       case End => s.scans[o].Scanning? && s.scans[o].next == |s.programs|
       case Mark => s.scans[o].Marking?
       case Call => s.scans[o].Calling?
  }

  function AfterScan(s: State, o: Owner, a: ScanAction): (s': State)
    requires CanScan(s, o, a)
    ensures s'.programs == s.programs && s'.queue == s.queue && s'.main == s.main && s'.kills == s.kills
    ensures s'.undone == s.undone && s'.unracedAtLaunch == s.unracedAtLaunch && s'.deliveries == s.deliveries
    ensures s'.terminateSignals == s.terminateSignals && s'.bodies == s.bodies && s'.status == s.status
    ensures !a.Call? ==> s'.calls == s.calls && s'.inGuard == s.inGuard && s'.raced == s.raced
  {
    match a
    case Start(table) =>
      s.(scans := s.scans[o := Scanning(0, table == 0)], tableEmpty := s.tableEmpty && (table == 0 || SomeCounted(s)))
    case One =>
      var k := s.scans[o].next;
      s.(scans := s.scans[o := Scanning(k + 1, s.scans[o].zero && !Counted(s.programs[k]))])
    case End =>
      if !s.scans[o].zero then s.(scans := s.scans - {o})
      else s.(scans := s.scans[o := if s.status.StatusPoweroff? then Calling else Marking])
    case Mark => s.(scans := s.scans[o := Calling], instantShutdown := true)
    case Call =>
      var scans := if s.status.StatusPoweroff? then s.scans - {o} else s.scans[o := Stuck];
      CallShutdown(s.(scans := scans, calls := s.calls + 1))
  }

  // --------------------------------------------------------- the main routine

  datatype MainAction = WriteRun | StartLaunch | WriteLaunched

  predicate MainCan(s: State, a: MainAction) {
    match a
    case WriteRun => s.main.BeforeRun?
    case StartLaunch => s.main.BeforeLaunch?
    case WriteLaunched =>
      && s.main.Launching?
      && ((forall i :: 0 <= i < |s.programs| ==> s.programs[i].launcher.Registered?)
          || (exists i :: 0 <= i < |s.programs| && s.programs[i].launcher.Failed?))
  }

  /** The main routine writes the status without looking at the one it replaces. */
  function AfterMain(s: State, a: MainAction): (s': State)
    ensures s' == s.(status := s'.status, main := s'.main, undone := s'.undone, unracedAtLaunch := s'.unracedAtLaunch)
  {
    var undone := s.undone + if s.status.StatusPoweroff? && s.inGuard == 0 then 1 else 0;
    match a
    case WriteRun => s.(status := StatusRun, main := BeforeLaunch, undone := undone)
    case StartLaunch => s.(main := Launching)
    case WriteLaunched => s.(status := StatusLaunched, main := Done, undone := undone, unracedAtLaunch := Unraced(s))
  }

  // -------------------------------------------------- the body of shutdown

  /** Steps of a shutdown body and of its `sendTerminateSignals` goroutines. */
  datatype BodyAction = ReadInstant | Check(i: nat) | Wake(i: nat) | Report | Timeout

  predicate BodyCan(s: State, b: Body, a: BodyAction) {
    match a
    case ReadInstant => b.phase.Entered?
    case Check(i) => i in b.senders && i in b.targets && Has(s, i) && b.senders[i].Pending?
    case Wake(i) => i in b.senders && Has(s, i) && b.senders[i].Signalled? && 0 < s.programs[i].closes
    case Report => b.phase.Terminating? && forall i :: i in b.senders ==> b.senders[i].Finished? || b.senders[i].Woken?
    case Timeout => b.phase.Terminating?
  }

  /** Not started, or its normal exit was recorded; an unrecorded or killed process has no exit code. */
  predicate KnownFinished(p: Program) {
    !p.cmd || !p.handle || (p.processState.Some? && p.processState.value.Normal?)
  }

  function AfterBody(s: State, b: Body, a: BodyAction): (b': Body)
    requires BodyCan(s, b, a)
  {
    match a
    case ReadInstant =>
      if s.instantShutdown then b.(phase := SkippedSignals)
      else Body(Terminating, s.terminateSignals, map i | i in s.terminateSignals :: Pending)
    case Check(i) => b.(senders := b.senders[i := if KnownFinished(s.programs[i]) then Finished else Signalled])
    case Wake(i) => b.(senders := b.senders[i := Woken])
    case Report => b.(phase := Terminated)
    case Timeout => b.(phase := TimedOut)
  }

  function NewKills(s: State, b: nat, a: BodyAction): (ks: seq<Kill>)
    requires b < |s.bodies| && BodyCan(s, s.bodies[b], a)
  {
    if a.Check? && !KnownFinished(s.programs[a.i]) then [Kill(b, a.i, s.bodies[b].targets[a.i])] else []
  }

  // ------------------------------------------------------------------- steps

  datatype Step =
    | ProgramStep(i: nat, e: Event)
    | ReapOther
    | Deliver
    | ExitEvent
    | ScanStep(o: Owner, scan: ScanAction)
    | ExternalShutdown(caller: Caller)
    | EnterShutdown
    | MainStep(act: MainAction)
    | BodyStep(b: nat, body: BodyAction)

  predicate Enabled(s: State, step: Step) {
    match step
    case ProgramStep(i, e) => Has(s, i) && CanHappen(s.programs[i], e) && LaunchedYet(s)
    case ReapOther => LaunchedYet(s)
    case Deliver => s.queue != [] && ReaperLoop !in s.scans
    case ExitEvent => LaunchedYet(s) && Listener !in s.scans
    case ScanStep(o, a) => CanScan(s, o, a)
    case ExternalShutdown(c) => c !in s.inside
    case EnterShutdown => 0 < s.inGuard
    case MainStep(a) => MainCan(s, a)
    case BodyStep(b, a) => b < |s.bodies| && BodyCan(s, s.bodies[b], a)
  }

  /** What a program step does outside the program. */
  function Announce(s: State, i: nat, e: Event): (s': State)
    requires Has(s, i)
    ensures s' == s.(terminateSignals := s'.terminateSignals, queue := s'.queue, scans := s'.scans)
  {
    match e
    case Register => s.(terminateSignals := s.terminateSignals[i := s.programs[i].signal])
    case Reap => s.(queue := s.queue + [Child(i)])
    case CloseChannel => s.(scans := s.scans[WaiterOf(i) := Due])
    case _ => s
  }

  function DeliverPid(s: State): (s': State)
    requires s.queue != []
    ensures s' == s.(programs := s'.programs, queue := s.queue[1..], scans := s.scans[ReaperLoop := Due],
                     deliveries := s'.deliveries)
  {
    var s1 := s.(queue := s.queue[1..], scans := s.scans[ReaperLoop := Due]);
    if s.queue[0].Child? && Has(s, s.queue[0].program) then
      var i := s.queue[0].program;
      s1.(programs := s.programs[i := Delivered(s.programs[i])], deliveries := s.deliveries[i := s.programs[i].handle])
    else s1
  }

  function Apply(s: State, step: Step): (s': State)
    requires Enabled(s, step)
  {
    match step
    case ProgramStep(i, e) => Announce(s.(programs := s.programs[i := After(s.programs[i], e)]), i, e)
    case ReapOther => s.(queue := s.queue + [Other])
    case Deliver => DeliverPid(s)
    case ExitEvent => s.(scans := s.scans[Listener := Due])
    case ScanStep(o, a) => AfterScan(s, o, a)
    case ExternalShutdown(c) =>
      CallShutdown(s.(inside := if s.status.StatusPoweroff? then s.inside else s.inside + {c}))
    case EnterShutdown => EnterBody(s)
    case MainStep(a) => AfterMain(s, a)
    case BodyStep(b, a) =>
      s.(bodies := s.bodies[b := AfterBody(s, s.bodies[b], a)], kills := s.kills + NewKills(s, b, a))
  }

  /** The state after a schedule; a step that is not enabled when its turn comes is skipped. */
  function Run(s: State, schedule: seq<Step>): (r: State)
    decreases |schedule|
  {
    if schedule == [] then s
    else Run(if Enabled(s, schedule[0]) then Apply(s, schedule[0]) else s, schedule[1..])
  }
}
