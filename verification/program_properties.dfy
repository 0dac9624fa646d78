/** Properties of the supervisor as a whole: its invariant, the restart accounting, the
    watchdog, the shutdown escalation and the exit codes. */
module ProgramProperties {
  import opened Wrappers
  import opened ConsoleWriter
  import opened LineProcessor
  import opened ProcessStates
  import opened Program
  import Processors
  import MiningProcessors

  // ---------------------------------------------------------------------------
  // The invariant

  lemma InitialInv(processor: Processors.Processor)
    requires Processors.Valid(processor)
    ensures Inv(Program.Initial(processor))
  {
  }

  lemma BeginKeepsInv(s: Supervisor, args: seq<string>, parse: MiningProcessors.DecimalParser)
    requires Inv(s)
    ensures Inv(Step(s, Event.Begin(args), parse).sup)
  {
  }

  lemma LaunchKeepsInv(s: Supervisor, now: Instant, start: StartResult, parse: MiningProcessors.DecimalParser)
    requires Inv(s)
    ensures Inv(Step(s, Launch(now, start), parse).sup)
  {
  }

  lemma ReceivedKeepsInv(s: Supervisor, kind: LineType, line: Option<string>, now: Instant,
                         parse: MiningProcessors.DecimalParser)
    requires Inv(s)
    ensures Inv(Step(s, Received(kind, line, now), parse).sup)
  {
  }

  lemma TickKeepsInv(s: Supervisor, now: Instant, close: CloseInputs, parse: MiningProcessors.DecimalParser)
    requires Inv(s)
    ensures Inv(Step(s, Tick(now, close), parse).sup)
  {
  }

  lemma ExitedKeepsInv(s: Supervisor, parse: MiningProcessors.DecimalParser)
    requires Inv(s)
    ensures Inv(Step(s, ChildExited, parse).sup)
  {
  }

  lemma InterruptKeepsInv(s: Supervisor, sig: Signal, now: Instant, close: CloseInputs,
                          parse: MiningProcessors.DecimalParser)
    requires Inv(s)
    ensures Inv(Step(s, Event.Interrupt(sig, now, close), parse).sup)
  {
  }

  /** Every transition keeps the invariant. */
  lemma StepKeepsInv(s: Supervisor, e: Event, parse: MiningProcessors.DecimalParser)
    requires Inv(s)
    ensures Inv(Step(s, e, parse).sup)
  {
    match e
    case Begin(args) => BeginKeepsInv(s, args, parse);
    case Launch(now, start) => LaunchKeepsInv(s, now, start, parse);
    case Received(kind, line, now) => ReceivedKeepsInv(s, kind, line, now, parse);
    case Tick(now, close) => TickKeepsInv(s, now, close, parse);
    case ChildExited => ExitedKeepsInv(s, parse);
    case Interrupt(sig, now, close) => InterruptKeepsInv(s, sig, now, close, parse);
  }

  /** Every run from a state satisfying the invariant keeps it; in particular every state
      reachable from the initial one satisfies it. */
  lemma {:induction false} RunKeepsInv(s: Supervisor, events: seq<Event>, parse: MiningProcessors.DecimalParser)
    requires Inv(s)
    ensures Inv(Run(s, events, parse).sup)
    decreases |events|
  {
    if events != [] {
      StepKeepsInv(s, events[0], parse);
      RunKeepsInv(Step(s, events[0], parse).sup, events[1..], parse);
    }
  }

  // ---------------------------------------------------------------------------
  // Restart accounting

  lemma LiftNoLaunch(actions: seq<ConsoleAction>)
    ensures NoLaunch(Lift(actions))
  {
  }

  /** The effects of a transition before the loop condition, and the launches among them. */
  lemma ApplyCountsRestarts(s: Supervisor, e: Event, parse: MiningProcessors.DecimalParser)
    requires WellFormed(s)
    ensures Apply(s, e, parse).sup.state.restarts == s.state.restarts + Launches(Apply(s, e, parse).effects)
  {
    var o := Apply(s, e, parse);
    match e
    case Begin(args) =>
    case Launch(now, start) =>
    case Received(kind, line, now) =>
      if !s.phase.Init? && line.Some? {
        var p := Processors.ProcessLine(s.processor, ViewOf(s.state), kind, line.value, parse);
        LiftNoLaunch(WriteMessage(p.out.line, p.out.foreground, p.out.background));
      }
      NoLaunchCounts(o.effects);
    case Tick(now, close) => NoLaunchCounts(o.effects);
    case ChildExited => NoLaunchCounts(o.effects);
    case Interrupt(sig, now, close) => NoLaunchCounts(o.effects);
  }

  /** Each transition registers exactly as many restarts as it starts children. */
  lemma StepCountsRestarts(s: Supervisor, e: Event, parse: MiningProcessors.DecimalParser)
    requires WellFormed(s)
    ensures Step(s, e, parse).sup.state.restarts == s.state.restarts + Launches(Step(s, e, parse).effects)
  {
    if !s.phase.Done? {
      var a := Apply(s, e, parse);
      var o := Settle(a);
      ApplyCountsRestarts(s, e, parse);
      if a.sup.phase.Running? && !ChildAlive(a.sup) {
        assert o.effects == a.effects + o.effects[|a.effects|..];
        LaunchesAppend(a.effects, o.effects[|a.effects|..]);
        NoLaunchCounts(o.effects[|a.effects|..]);
      }
    }
  }

  /** Over a whole run the restart counter rises by exactly the number of children
      started, so it never decreases. */
  lemma {:induction false} RunCountsRestarts(s: Supervisor, events: seq<Event>, parse: MiningProcessors.DecimalParser)
    requires WellFormed(s)
    ensures Run(s, events, parse).sup.state.restarts == s.state.restarts + Launches(Run(s, events, parse).effects)
    ensures Run(s, events, parse).sup.state.restarts >= s.state.restarts
    decreases |events|
  {
    if events != [] {
      var a := Step(s, events[0], parse);
      var b := Run(a.sup, events[1..], parse);
      StepCountsRestarts(s, events[0], parse);
      RunCountsRestarts(a.sup, events[1..], parse);
      LaunchesAppend(a.effects, b.effects);
    }
  }

  /** When the restart guard trips the loop ends without a launch and the program exits
      normally. */
  lemma GuardRefusesLaunch(s: Supervisor, now: Instant, start: StartResult, parse: MiningProcessors.DecimalParser)
    requires WellFormed(s) && s.phase.Ready? && RestartsExhausted(s.state, now)
    ensures Launches(Step(s, Launch(now, start), parse).effects) == 0
    ensures Step(s, Launch(now, start), parse).sup.phase == Done(Completed)
    ensures ExitCode(Completed) == Some(0)
    ensures !Step(s, Launch(now, start), parse).sup.state.mustRestart
  {
  }

  /** A launch that passes the guard clears the error and closing flags, registers one
      restart at `now`, keeps the output record (including the time of the last output)
      and starts the supervised command once. */
  lemma LaunchResetsFlags(s: Supervisor, now: Instant, parse: MiningProcessors.DecimalParser)
    requires Inv(s) && s.phase.Ready? && !RestartsExhausted(s.state, now)
    ensures
      var o := Step(s, Launch(now, Started), parse);
      && o.sup.phase == Running && ChildAlive(o.sup) && o.sup.timerOn
      && !o.sup.state.hasErrored && !o.sup.state.isClosing && !o.sup.state.mustRestart
      && o.sup.state.restarts == s.state.restarts + 1 && o.sup.state.restartTime == now
      && o.sup.state.lastOutput == s.state.lastOutput && o.sup.state.lastLines == s.state.lastLines
      && Launches(o.effects) == 1 && StartChild(s.command) in o.effects
  {
  }

  // ---------------------------------------------------------------------------
  // Exit codes

  /** No arguments, or a help flag first, exits with 0x667 before any launch. */
  lemma UsageExitCode(processor: Processors.Processor, args: seq<string>, parse: MiningProcessors.DecimalParser)
    requires Processors.Valid(processor)
    requires args == [] || IsHelpFlag(args[0])
    ensures
      var o := Step(Program.Initial(processor), Event.Begin(args), parse);
      && o.sup.phase.Done? && ExitCode(o.sup.phase.exit) == Some(ErrorInvalidCommandLine)
      && Step(o.sup, Launch(0, Started), parse) == Outcome(o.sup, [])
  {
  }

  /** A command that cannot be found exits with 0x667 once its launch has been counted. */
  lemma NotFoundExitCode(s: Supervisor, now: Instant, parse: MiningProcessors.DecimalParser)
    requires Inv(s) && s.phase.Ready? && !RestartsExhausted(s.state, now)
    ensures
      var o := Step(s, Launch(now, NotFound), parse);
      && o.sup.phase == Done(InvalidCommandLine) && ExitCode(o.sup.phase.exit) == Some(0x667)
      && o.sup.state.restarts == s.state.restarts + 1
  {
  }

  /** After a console signal the program has ended and no child is left alive. */
  lemma InterruptEnds(s: Supervisor, sig: Signal, now: Instant, close: CloseInputs, e: Event,
                      parse: MiningProcessors.DecimalParser)
    requires Inv(s) && !s.phase.Done?
    ensures
      var o := Step(s, Event.Interrupt(sig, now, close), parse);
      && o.sup.phase == Done(Interrupted) && !ChildAlive(o.sup) && !o.sup.timerOn
      && Step(o.sup, e, parse) == Outcome(o.sup, [])
  {
  }

  // ---------------------------------------------------------------------------
  // The output pipeline

  /** The end-of-stream marker changes nothing and shows nothing. */
  lemma NullLineDropped(s: Supervisor, kind: LineType, now: Instant, parse: MiningProcessors.DecimalParser)
    requires Inv(s)
    ensures Step(s, Received(kind, None, now), parse) == Outcome(s, [])
  {
  }

  // ---------------------------------------------------------------------------
  // The watchdog

  /** A tick on a running child acts exactly when the output is stale or a processor has
      flagged an error. Acting closes the child once, requests a restart and sends the
      main thread back to the top of the loop; otherwise the tick changes nothing. */
  lemma WatchdogTick(s: Supervisor, now: Instant, close: CloseInputs, parse: MiningProcessors.DecimalParser)
    requires Inv(s) && s.phase.Running?
    ensures
      var o := Step(s, Tick(now, close), parse);
      && ((Stale(s.state, now) || s.state.hasErrored) ==>
            && o.sup.phase == Ready && o.sup.state.mustRestart && o.sup.process.None? && !o.sup.timerOn
            && Count(o.effects, CloseMainWindow) == 1 && Launches(o.effects) == 0
            && o.sup.state.restarts == s.state.restarts)
      && (!(Stale(s.state, now) || s.state.hasErrored) ==> o == Outcome(s, []))
  {
    var a := TimerElapsed(s, now, close, parse);
    assert Alarmed(s, now) <==> Stale(s.state, now) || s.state.hasErrored;
    NoLaunchCounts(a.effects);
    var o := Settle(a);
    if Alarmed(s, now) {
      assert o.effects == a.effects + o.effects[|a.effects|..];
      LaunchesAppend(a.effects, o.effects[|a.effects|..]);
      NoLaunchCounts(o.effects[|a.effects|..]);
    }
  }

  /** The time of the last output survives a relaunch, so a child started right after
      being closed for staleness is itself stale on its first tick, and is closed again
      unless it has printed a line with content first. */
  lemma StaleOutputSurvivesRelaunch(s: Supervisor, now: Instant, later: Instant, close: CloseInputs,
                                    parse: MiningProcessors.DecimalParser)
    requires Inv(s) && s.phase.Ready? && !RestartsExhausted(s.state, now)
    requires Stale(s.state, now) && now <= later
    ensures
      var a := Step(s, Launch(now, Started), parse);
      var b := Step(a.sup, Tick(later, close), parse);
      && a.sup.phase == Running && Stale(a.sup.state, later)
      && b.sup.phase == Ready && b.sup.state.mustRestart && Count(b.effects, CloseMainWindow) == 1
  {
    var a := Step(s, Launch(now, Started), parse);
    LaunchKeepsInv(s, now, Started, parse);
    WatchdogTick(a.sup, later, close, parse);
  }

  // ---------------------------------------------------------------------------
  // Shutdown escalation

  /** The effects of closing a live child, with the in-flight lines invisible. */
  lemma CloseAliveEffects(s: Supervisor, now: Instant, inputs: CloseInputs, parse: MiningProcessors.DecimalParser)
    requires WellFormed(s) && ChildAlive(s)
    ensures CloseProcess(s, now, inputs, parse).effects
         == Say("Closing process...", White) + Stopping(inputs) + [Release] + [StopTimer, Show(ResetColor)]
  {
    var stopped := Stop(s.(state := s.state.(isClosing := true)), inputs);
    var drained := Drain(stopped.sup, inputs.inFlight, now, parse);
    assert drained.effects == [];
  }

  /** Within the stopping sequence a kill comes after the close request and, when that
      request was accepted, after the wait. */
  lemma StoppingOrder(inputs: CloseInputs, j: nat)
    requires j < |Stopping(inputs)| && Stopping(inputs)[j] == Kill
    ensures Stopping(inputs)[0] == CloseMainWindow && 0 < j
    ensures inputs.windowClosed ==> Stopping(inputs)[1] == WaitForExit(CloseTimeoutMs) && 1 < j
  {
  }

  /** A kill is only ever sent after the child was asked to close its main window, and,
      when that request was accepted, only after the 20 s wait. */
  lemma KillComesLast(s: Supervisor, now: Instant, inputs: CloseInputs, parse: MiningProcessors.DecimalParser)
    requires WellFormed(s) && ChildAlive(s)
    ensures
      var effects := CloseProcess(s, now, inputs, parse).effects;
      forall j :: 0 <= j < |effects| && effects[j] == Kill ==>
        && (exists i :: 0 <= i < j && effects[i] == CloseMainWindow)
        && (inputs.windowClosed ==> exists i :: 0 <= i < j && effects[i] == WaitForExit(CloseTimeoutMs))
  {
    CloseAliveEffects(s, now, inputs, parse);
    KillAfter(Say("Closing process...", White), Stopping(inputs), inputs,
              CloseProcess(s, now, inputs, parse).effects);
  }

  lemma KillAfter(say: seq<Effect>, stop: seq<Effect>, inputs: CloseInputs, effects: seq<Effect>)
    requires forall i :: 0 <= i < |say| ==> say[i].Show?
    requires stop == Stopping(inputs)
    requires effects == say + stop + [Release] + [StopTimer, Show(ResetColor)]
    ensures forall j :: 0 <= j < |effects| && effects[j] == Kill ==>
        && (exists i :: 0 <= i < j && effects[i] == CloseMainWindow)
        && (inputs.windowClosed ==> exists i :: 0 <= i < j && effects[i] == WaitForExit(CloseTimeoutMs))
  {
    var k := |say|;
    forall j | 0 <= j < |effects| && effects[j] == Kill
      ensures exists i :: 0 <= i < j && effects[i] == CloseMainWindow
      ensures inputs.windowClosed ==> exists i :: 0 <= i < j && effects[i] == WaitForExit(CloseTimeoutMs)
    {
      assert k <= j < k + |stop|;
      assert stop[j - k] == Kill;
      StoppingOrder(inputs, j - k);
      assert effects[k] == CloseMainWindow;
      if inputs.windowClosed {
        assert effects[k + 1] == WaitForExit(CloseTimeoutMs);
      }
    }
  }

  /** Lines a child delivers while it is being closed change neither the effects of the
      close nor the restart bookkeeping and output record. */
  lemma InFlightInvisible(s: Supervisor, now: Instant, inputs: CloseInputs, parse: MiningProcessors.DecimalParser)
    requires WellFormed(s)
    ensures
      var with := CloseProcess(s, now, inputs, parse);
      var without := CloseProcess(s, now, inputs.(inFlight := []), parse);
      && with.effects == without.effects
      && SameRecords(with.sup.state, without.sup.state)
      && with.sup.process == without.sup.process && with.sup.timerOn == without.sup.timerOn
  {
    if s.process.Some? {
      var closing := s.(state := s.state.(isClosing := true));
      var d := Drain(Stop(closing, inputs).sup, inputs.inFlight, now, parse);
      assert d.effects == [];
      assert Stop(closing, inputs) == Stop(closing, inputs.(inFlight := []));
    }
  }

  /** A second close, from a signal or a later tick, leaves the child alone: it was asked
      to close and released exactly once. */
  lemma CloseTwice(s: Supervisor, now: Instant, later: Instant, first: CloseInputs, second: CloseInputs,
                   parse: MiningProcessors.DecimalParser)
    requires WellFormed(s) && ChildAlive(s)
    ensures
      var a := CloseProcess(s, now, first, parse);
      var b := CloseProcess(a.sup, later, second, parse);
      && b == Outcome(a.sup, [])
      && Count(a.effects + b.effects, CloseMainWindow) == 1
      && Count(a.effects + b.effects, Release) == 1
  {
    var a := CloseProcess(s, now, first, parse);
    assert a.effects + [] == a.effects;
  }
}
