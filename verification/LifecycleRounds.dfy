/**
 The termination round of a shutdown: who is sent a signal, how often, and what
 the report "applications terminated" is worth.
 */
module LifecycleRounds {
  import opened Lifecycle
  import opened LifecycleSafety

  /** How often program `i` was sent a signal by shutdown body `b`. */
  ghost function Sent(kills: seq<Kill>, b: nat, i: nat): (n: nat) {
    if kills == [] then 0
    else Sent(kills[..|kills| - 1], b, i)
         + if kills[|kills| - 1].body == b && kills[|kills| - 1].program == i then 1 else 0
  }

  lemma SentSnoc(kills: seq<Kill>, k: Kill, b: nat, i: nat)
    ensures Sent(kills + [k], b, i) == Sent(kills, b, i) + if k.body == b && k.program == i then 1 else 0
  {
    assert (kills + [k])[..|kills|] == kills;
  }

  ghost predicate HasSent(s: State, b: nat, i: nat) {
    b < |s.bodies| && i in s.bodies[b].senders && (s.bodies[b].senders[i].Signalled? || s.bodies[b].senders[i].Woken?)
  }

  /** The log holds one entry for each sender that got past its check, with the registered signal, and no other. */
  ghost predicate KillsOk(s: State) {
    && (forall b: nat, i: nat :: Sent(s.kills, b, i) == if HasSent(s, b, i) then 1 else 0)
    && (forall k :: k in s.kills ==>
          && k.body < |s.bodies| && k.program in s.bodies[k.body].targets
          && k.signal == s.bodies[k.body].targets[k.program])
  }

  /** A step of body `b` adds at most one sender to those past their check, and exactly when it logs a kill. */
  lemma SendersAfter(s: State, b: nat, a: BodyAction, c: nat, i: nat)
    requires b < |s.bodies| && BodyOk(s, s.bodies[b]) && BodyCan(s, s.bodies[b], a)
    ensures var s' := Apply(s, BodyStep(b, a));
            HasSent(s', c, i) <==> HasSent(s, c, i) || (NewKills(s, b, a) != [] && c == b && a.i == i)
    ensures NewKills(s, b, a) != [] ==> a.Check? && !HasSent(s, b, a.i)
  {
    hide KnownFinished, AllDone;
  }

  lemma TargetsAfter(s: State, b: nat, a: BodyAction)
    requires b < |s.bodies| && BodyOk(s, s.bodies[b]) && BodyCan(s, s.bodies[b], a)
    ensures !a.ReadInstant? ==> AfterBody(s, s.bodies[b], a).targets == s.bodies[b].targets
    ensures a.ReadInstant? ==> s.bodies[b].targets == map[]
  {
    hide KnownFinished, AllDone;
  }

  lemma SentAfter(s: State, b: nat, a: BodyAction, c: nat, i: nat)
    requires b < |s.bodies| && BodyOk(s, s.bodies[b]) && BodyCan(s, s.bodies[b], a)
    requires Sent(s.kills, c, i) == if HasSent(s, c, i) then 1 else 0
    ensures var s' := Apply(s, BodyStep(b, a));
            Sent(s'.kills, c, i) == if HasSent(s', c, i) then 1 else 0
  {
    SendersAfter(s, b, a, c, i);
    var s', ks := Apply(s, BodyStep(b, a)), NewKills(s, b, a);
    assert s'.kills == s.kills + ks;
    assert ks == [] || (ks == [ks[0]] && ks[0].body == b && ks[0].program == a.i);
    hide Apply, AfterBody, BodyCan, HasSent, Sent, BodyOk, NewKills;
    if ks == [] {
      assert s.kills + ks == s.kills;
    } else {
      SentSnoc(s.kills, ks[0], c, i);
    }
  }

  lemma LogAfter(s: State, b: nat, a: BodyAction)
    requires b < |s.bodies| && BodyOk(s, s.bodies[b]) && BodyCan(s, s.bodies[b], a) && KillsOk(s)
    ensures var s' := Apply(s, BodyStep(b, a));
            forall k :: k in s'.kills ==>
              && k.body < |s'.bodies| && k.program in s'.bodies[k.body].targets
              && k.signal == s'.bodies[k.body].targets[k.program]
  {
    TargetsAfter(s, b, a);
    hide AfterBody, HasSent, Sent, BodyOk, KnownFinished;
  }

  lemma BodyStepKills(s: State, b: nat, a: BodyAction)
    requires Inv(s) && KillsOk(s) && Enabled(s, BodyStep(b, a))
    ensures KillsOk(Apply(s, BodyStep(b, a)))
  {
    assert BodyOk(s, s.bodies[b]);
    LogAfter(s, b, a);
    hide Inv, AfterBody, BodyCan, HasSent, Sent, BodyOk, Apply;
    forall c: nat, i: nat {
      SentAfter(s, b, a, c, i);
    }
  }

  lemma OtherStepKills(s: State, step: Step)
    requires KillsOk(s) && Enabled(s, step) && !step.BodyStep?
    ensures KillsOk(Apply(s, step))
  {
    hide Counted, CanHappen, After, AfterMain;
    var s' := Apply(s, step);
    assert s'.kills == s.kills && |s.bodies| <= |s'.bodies|;
    assert forall b :: 0 <= b < |s.bodies| ==> s'.bodies[b] == s.bodies[b];
    assert forall b :: |s.bodies| <= b < |s'.bodies| ==> s'.bodies[b].senders == map[];
    hide Apply;
    assert forall b: nat, i: nat :: HasSent(s', b, i) <==> HasSent(s, b, i);
  }

  lemma {:induction false} RunKeepsKills(s: State, schedule: seq<Step>)
    requires Inv(s) && KillsOk(s)
    ensures KillsOk(Run(s, schedule))
    decreases |schedule|
  {
    hide Inv, KillsOk, Apply, Enabled;
    if schedule != [] {
      if Enabled(s, schedule[0]) {
        StepKeepsInv(s, schedule[0]);
        if schedule[0].BodyStep? {
          BodyStepKills(s, schedule[0].b, schedule[0].body);
        } else {
          OtherStepKills(s, schedule[0]);
        }
        RunKeepsKills(Apply(s, schedule[0]), schedule[1..]);
      } else {
        RunKeepsKills(s, schedule[1..]);
      }
    }
  }

  /** The program has ended by itself, and its end was collected. */
  predicate ExitedNormally(p: Program) {
    p.process.Collected? && p.process.exit.Normal?
  }

  lemma {:induction false} RunSignals(s: State, schedule: seq<Step>)
    requires Inv(s)
    ensures |Run(s, schedule).programs| == |s.programs|
    ensures forall i :: 0 <= i < |s.programs| ==> Run(s, schedule).programs[i].signal == s.programs[i].signal
    decreases |schedule|
  {
    hide Apply, Enabled, ProgramOk, QueueOk, ScansOk, CountsOk, ProgressOk, BodiesOk;
    if schedule != [] {
      if Enabled(s, schedule[0]) {
        StepEvolves(s, schedule[0]);
        StepKeepsInv(s, schedule[0]);
        RunSignals(Apply(s, schedule[0]), schedule[1..]);
      } else {
        RunSignals(s, schedule[1..]);
      }
    }
  }

  /**
   In every schedule and every round: a registered program is sent a signal once
   if its goroutine found it not known to have finished, and otherwise never; it
   is the configured signal; the round reports "applications terminated" only if
   every registered program has ended, and was known to have exited normally or
   was sent its signal and closed its exit channel; and no exit channel is closed
   twice.
   */
  lemma TerminationRound(signals: seq<nat>, schedule: seq<Step>)
    ensures var s := Run(Init(signals), schedule);
            forall b, i :: 0 <= b < |s.bodies| && i in s.bodies[b].targets ==>
              && Has(s, i) && i in s.bodies[b].senders
              && Sent(s.kills, b, i) == (if HasSent(s, b, i) then 1 else 0)
              && (s.bodies[b].senders[i].Finished? ==> ExitedNormally(s.programs[i]))
              && (s.bodies[b].phase.Terminated? ==>
                    && s.programs[i].process.Collected?
                    && (s.bodies[b].senders[i].Finished? || (Sent(s.kills, b, i) == 1 && s.programs[i].closes == 1)))
    ensures var s := Run(Init(signals), schedule);
            forall k :: k in s.kills ==> k.program < |signals| && k.signal == signals[k.program]
    ensures var s := Run(Init(signals), schedule);
            forall i :: 0 <= i < |s.programs| ==> s.programs[i].closes <= 1
  {
    hide Run, QueueOk, ScansOk, CountsOk, ProgressOk, Counted;
    InitInv(signals);
    RunKeepsInv(Init(signals), schedule);
    RunSignals(Init(signals), schedule);
    var s := Run(Init(signals), schedule);
    assert KillsOk(s) by {
      assert KillsOk(Init(signals));
      RunKeepsKills(Init(signals), schedule);
    }
    forall b, i | 0 <= b < |s.bodies| && i in s.bodies[b].targets
      ensures Has(s, i) && i in s.bodies[b].senders
      ensures s.bodies[b].senders[i].Finished? ==> ExitedNormally(s.programs[i])
      ensures s.bodies[b].senders[i].Woken? ==> s.programs[i].closes == 1
      ensures s.bodies[b].phase.Terminated? ==> s.bodies[b].senders[i].Finished? || s.bodies[b].senders[i].Woken?
      ensures s.bodies[b].phase.Terminated? ==> s.programs[i].process.Collected?
    {
      assert BodyOk(s, s.bodies[b]);
      assert ProgramOk(s.programs[i]);
    }
    forall k | k in s.kills
      ensures Has(s, k.program) && k.signal == s.programs[k.program].signal
    {
      assert BodyOk(s, s.bodies[k.body]);
    }
  }

  // ------------------------------------------------------ whom a round can miss

  ghost predicate AllListed(s: State) {
    forall i :: 0 <= i < |s.programs| && s.programs[i].launcher.Registered? ==> i in s.terminateSignals
  }

  lemma ListedByProgram(s: State, i: nat, e: Event)
    requires AllListed(s) && Has(s, i) && CanHappen(s.programs[i], e)
    ensures AllListed(Announce(s.(programs := s.programs[i := After(s.programs[i], e)]), i, e))
  {
    assert After(s.programs[i], e).launcher.Registered? ==> e.Register? || s.programs[i].launcher.Registered?;
    hide CanHappen, After;
  }

  lemma StepKeepsListed(s: State, step: Step)
    requires AllListed(s) && Enabled(s, step)
    ensures AllListed(Apply(s, step))
  {
    if step.ProgramStep? {
      hide AllListed, CanHappen, After, Announce;
      ListedByProgram(s, step.i, step.e);
    } else {
      hide Counted, CanHappen, After, AfterMain, AfterBody, NewKills, AfterScan;
    }
  }

  lemma {:induction false} RunKeepsListed(s: State, schedule: seq<Step>)
    requires AllListed(s)
    ensures AllListed(Run(s, schedule))
    decreases |schedule|
  {
    hide AllListed, Apply, Enabled;
    if schedule != [] {
      if Enabled(s, schedule[0]) {
        StepKeepsListed(s, schedule[0]);
        RunKeepsListed(Apply(s, schedule[0]), schedule[1..]);
      } else {
        RunKeepsListed(s, schedule[1..]);
      }
    }
  }

  /** Forked, and not yet in the map of terminate signals. */
  predicate BeingStarted(p: Program) {
    p.launcher.Forked? || p.launcher.HandleSet? || p.launcher.WaiterStarted?
  }

  /**
   A round that sends signals at all addresses exactly the programs registered at
   the moment it reads the map; the running programs it misses are exactly those
   that have been forked and not yet registered.
   */
  lemma RoundMisses(signals: seq<nat>, schedule: seq<Step>, b: nat)
    ensures var s := Run(Init(signals), schedule);
            Enabled(s, BodyStep(b, ReadInstant)) && !s.instantShutdown ==>
              var targets := Apply(s, BodyStep(b, ReadInstant)).bodies[b].targets;
              forall i :: 0 <= i < |s.programs| ==>
                && (i in targets <==> s.programs[i].launcher.Registered?)
                && (s.programs[i].process.Running? && i !in targets <==>
                      s.programs[i].process.Running? && BeingStarted(s.programs[i]))
  {
    hide Run, QueueOk, ScansOk, CountsOk, ProgressOk;
    InitInv(signals);
    RunKeepsInv(Init(signals), schedule);
    RunKeepsListed(Init(signals), schedule);
    var s := Run(Init(signals), schedule);
    forall i | 0 <= i < |s.programs|
      ensures i in s.terminateSignals <==> s.programs[i].launcher.Registered?
      ensures s.programs[i].process.Running? ==> s.programs[i].launcher.Registered? || BeingStarted(s.programs[i])
    {
      assert ProgramOk(s.programs[i]);
    }
  }

  // ------------------------------------------------- what decides about a signal

  /**
   In every schedule: a goroutine of a round that checks its program skips it if
   its normal exit is recorded, and otherwise sends it the registered signal, once.
   */
  lemma CheckExactly(signals: seq<nat>, schedule: seq<Step>, b: nat, i: nat)
    ensures var s := Run(Init(signals), schedule);
            Enabled(s, BodyStep(b, Check(i))) ==>
              var s', known := Apply(s, BodyStep(b, Check(i))), s.programs[i].processState;
              if known.Some? && known.value.Normal? then
                s'.kills == s.kills && s'.bodies[b].senders[i] == Finished
              else
                s'.kills == s.kills + [Kill(b, i, s.programs[i].signal)] && s'.bodies[b].senders[i] == Signalled
  {
    hide Run, QueueOk, ScansOk, CountsOk, ProgressOk, Counted;
    InitInv(signals);
    RunKeepsInv(Init(signals), schedule);
    var s := Run(Init(signals), schedule);
    if Enabled(s, BodyStep(b, Check(i))) {
      assert BodyOk(s, s.bodies[b]) && ProgramOk(s.programs[i]);
    }
  }

  /** A body skips the signals exactly if it finds `instantShutdown` set, and then starts no goroutine. */
  lemma InstantExactly(s: State, b: nat)
    requires Enabled(s, BodyStep(b, ReadInstant))
    ensures var body := Apply(s, BodyStep(b, ReadInstant)).bodies[b];
            && (body.phase == SkippedSignals <==> s.instantShutdown)
            && (s.instantShutdown ==> body.senders == s.bodies[b].senders)
            && (!s.instantShutdown ==> body.senders.Keys == s.terminateSignals.Keys)
  {
  }

  /** Nothing sets `instantShutdown` but a `handleExit` that has found nothing running, and nothing clears it. */
  lemma InstantOnlyByScan(s: State, step: Step)
    requires Enabled(s, step)
    ensures Apply(s, step).instantShutdown <==> s.instantShutdown || (step.ScanStep? && step.scan.Mark?)
  {
    hide Counted, CanHappen, After, AfterBody, NewKills;
  }

  lemma ScanMarks(s: State, p: Owner, a: ScanAction, o: Owner)
    requires CanScan(s, p, a) && o in AfterScan(s, p, a).scans
    requires !(o in s.scans && s.scans[o] == AfterScan(s, p, a).scans[o])
    ensures var now := AfterScan(s, p, a).scans[o];
            && (now.Marking? ==>
                  o in s.scans && s.scans[o] == Scanning(|s.programs|, true) && !s.status.StatusPoweroff?)
            && (now.Calling? ==> o in s.scans && (s.scans[o].Marking? || s.status.StatusPoweroff?))
  {
    hide Counted, SomeCounted;
  }

  lemma OthersMarkNothing(s: State, step: Step, o: Owner)
    requires Enabled(s, step) && !step.ScanStep? && o in Apply(s, step).scans
    requires !(o in s.scans && s.scans[o] == Apply(s, step).scans[o])
    ensures Apply(s, step).scans[o].Due?
  {
    hide Counted, CanHappen, After, AfterBody, NewKills, AfterMain, AfterScan, CallShutdown, EnterBody, MainCan,
         BodyCan;
  }

  /** A scan gets to setting it only if it has found nothing running and the machine is not powering off yet. */
  lemma MarksOnlyBeforePowerOff(s: State, step: Step, o: Owner)
    requires Enabled(s, step) && o in Apply(s, step).scans && !(o in s.scans && s.scans[o] == Apply(s, step).scans[o])
    ensures var now := Apply(s, step).scans[o];
            && (now.Marking? ==>
                  o in s.scans && s.scans[o] == Scanning(|s.programs|, true) && !s.status.StatusPoweroff?)
            && (now.Calling? ==> o in s.scans && (s.scans[o].Marking? || s.status.StatusPoweroff?))
  {
    if step.ScanStep? {
      ScanMarks(s, step.o, step.scan, o);
    } else {
      OthersMarkNothing(s, step, o);
    }
  }

  // ---------------------------------------------------------- foreign processes

  /** The owner has no scan, one that is due, or one that has counted something. */
  ghost predicate Fruitless(s: State, o: Owner) {
    o in s.scans ==> s.scans[o].Due? || (s.scans[o].Scanning? && !s.scans[o].zero)
  }

  /** The owner begins another scan. */
  predicate Begins(step: Step, o: Owner) {
    step.ScanStep? && step.o == o && step.scan.Start?
  }

  lemma FruitlessScan(s: State, p: Owner, a: ScanAction, o: Owner)
    requires CanScan(s, p, a) && Fruitless(s, o) && !Begins(ScanStep(p, a), o)
    ensures Fruitless(AfterScan(s, p, a), o)
  {
    hide Counted, SomeCounted;
  }

  lemma FruitlessStep(s: State, step: Step, o: Owner)
    requires Enabled(s, step) && Fruitless(s, o) && !Begins(step, o)
    ensures Fruitless(Apply(s, step), o)
  {
    hide Counted, CanHappen, After, AfterBody, NewKills, AfterMain, AfterScan, CallShutdown, EnterBody, MainCan,
         BodyCan;
    if step.ScanStep? {
      FruitlessScan(s, step.o, step.scan, o);
    }
  }

  lemma {:induction false} FruitlessRun(s: State, schedule: seq<Step>, o: Owner)
    requires Fruitless(s, o) && forall k :: 0 <= k < |schedule| ==> !Begins(schedule[k], o)
    ensures Fruitless(Run(s, schedule), o)
    decreases |schedule|
  {
    hide Fruitless, Apply, Enabled;
    if schedule != [] {
      if Enabled(s, schedule[0]) {
        FruitlessStep(s, schedule[0], o);
        FruitlessRun(Apply(s, schedule[0]), schedule[1..], o);
      } else {
        FruitlessRun(s, schedule[1..], o);
      }
    }
  }

  /** A scan that has met a foreign process does not call `shutdown`, whatever happens meanwhile. */
  lemma ForeignKeepsRunning(s: State, o: Owner, table: nat, schedule: seq<Step>)
    requires CanScan(s, o, Start(table)) && 0 < table
    requires forall k :: 0 <= k < |schedule| ==> !Begins(schedule[k], o)
    ensures var r := Run(Apply(s, ScanStep(o, Start(table))), schedule);
            !Enabled(r, ScanStep(o, Mark)) && !Enabled(r, ScanStep(o, Call))
  {
    hide Run, SomeCounted;
    FruitlessRun(Apply(s, ScanStep(o, Start(table))), schedule, o);
  }
}
