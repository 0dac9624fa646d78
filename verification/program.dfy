/** `Program`: the supervisor. Its threads (the main restart loop, the two stream readers,
    the one-second watchdog timer, the console-signal handlers) are flattened into atomic
    transitions of one state machine over `Supervisor`; the child process, the clock and
    the number parser are inputs. Every transition also yields the effects it has on the
    world (console actions, calls on the child process, the timer), in order. */
module Program {
  import opened Wrappers
  import opened Text
  import opened ConsoleWriter
  import opened LineProcessor
  import opened ProcessStates
  import Processors
  import MiningProcessors

  /** The exit code for an invalid command line, an unknown executable and `--help`. */
  const ErrorInvalidCommandLine := 0x667
  /** How long a gracefully asked child gets to exit before it is killed. */
  const CloseTimeoutMs := 20000
  /** Output older than this (one minute) makes the child stale. */
  const StaleAfter := 60 * TicksPerSecond

  /** How the supervisor ended: its loop finished, the command line was unusable (help
      asked for, or the executable was not found), or a console signal ended the host. */
  datatype Exit = Completed | InvalidCommandLine | Interrupted

  /** The process exit code, where the program chooses it. After a console signal the
      operating system ends the host and picks the code. */
  function ExitCode(e: Exit): Option<int> {
    match e
    case Completed => Some(0)
    case InvalidCommandLine => Some(ErrorInvalidCommandLine)
    case Interrupted => None
  }

  /** Where the main thread is: before argument checks, at the top of the restart loop
      (about to check the restart guard), blocked in `WaitForExit` on a running child, or
      finished. */
  datatype Phase = Init | Ready | Running | Done(exit: Exit)

  /** The tracked `Process` object; `exited` is its `HasExited`. A handle that never
      started a process counts as exited. */
  datatype Child = Child(exited: bool)

  datatype Supervisor = Supervisor(
    phase: Phase,
    command: string,
    state: ProcessState,
    processor: Processors.Processor,
    process: Option<Child>,
    timerOn: bool)

  /** An effect on the world outside the supervisor's own state. */
  datatype Effect =
    | Show(action: ConsoleAction)
    | StartChild(command: string)
    | CloseMainWindow
    | WaitForExit(ms: nat)
    | Kill
    | Release
    | StartTimer
    | StopTimer

  /** The state after a transition and the effects it had, in order. */
  datatype Outcome = Outcome(sup: Supervisor, effects: seq<Effect>)

  /** What `Process.Start()` did: started the child, threw because the executable was
      not found, or returned false. */
  datatype StartResult = Started | NotFound | NotStarted

  /** A line as a stream reader delivers it; none is the end-of-stream marker. */
  datatype Incoming = Incoming(kind: LineType, line: Option<string>)

  /** What the child does while it is being closed: whether `CloseMainWindow` succeeds,
      whether the child then exits within the 20 s wait, and the lines it still delivers
      meanwhile. */
  datatype CloseInputs = CloseInputs(windowClosed: bool, exitsInTime: bool, inFlight: seq<Incoming>)

  /** The console control signals (`CtrlType`). */
  datatype Signal = CtrlC | CtrlBreak | CtrlClose | CtrlLogoff | CtrlShutdown

  function SignalCode(sig: Signal): nat {
    match sig
    case CtrlC => 0
    case CtrlBreak => 1
    case CtrlClose => 2
    case CtrlLogoff => 5
    case CtrlShutdown => 6
  }

  /** Ctrl-C reaches the cancel-key handler; every other signal (code above 0) reaches the
      console-event callback. Each handler announces itself and closes the child. */
  function SignalMessage(sig: Signal): string {
    if SignalCode(sig) > SignalCode(CtrlC) then "Received Close Event." else "Received ^C."
  }

  datatype Event =
    | Begin(args: seq<string>)
    | Launch(now: Instant, start: StartResult)
    | Received(kind: LineType, line: Option<string>, now: Instant)
    | Tick(now: Instant, close: CloseInputs)
    | ChildExited
    | Interrupt(signal: Signal, now: Instant, close: CloseInputs)

  /** The supervisor as `Main` finds it, with the configured processor. */
  function Initial(processor: Processors.Processor): Supervisor {
    Supervisor(Init, "", ProcessStates.Initial(), processor, None, false)
  }

  /** What every function below needs of a state to be defined. */
  predicate WellFormed(s: Supervisor) {
    ProcessStates.Valid(s.state) && Processors.Valid(s.processor)
  }

  /** The invariant of every reachable state: between transitions the supervisor is never
      half-way through a close, the timer runs exactly while the main thread waits on a
      child, and that child is alive. */
  predicate Inv(s: Supervisor) {
    && WellFormed(s)
    && !s.state.isClosing
    && 0 <= s.state.readResponseFailed < MiningProcessors.ReadFailureLimit
    && (s.timerOn <==> s.phase.Running?)
    && (s.phase.Running? <==> ChildAlive(s))
  }

  predicate ChildAlive(s: Supervisor) {
    s.process.Some? && !s.process.value.exited
  }

  /** The restart bookkeeping and the output record agree between two states. */
  predicate SameRecords(a: ProcessState, b: ProcessState) {
    && a.restarts == b.restarts && a.restartTime == b.restartTime && a.mustRestart == b.mustRestart
    && a.lastOutput == b.lastOutput && a.lastLines == b.lastLines
  }

  function Lift(actions: seq<ConsoleAction>): (r: seq<Effect>)
    ensures |r| == |actions| && forall i :: 0 <= i < |r| ==> r[i] == Show(actions[i])
  {
    seq(|actions|, i requires 0 <= i < |actions| => Show(actions[i]))
  }

  /** A supervisor message in one colour. */
  function Say(text: string, color: Color): seq<Effect> {
    Lift(WriteMessage(Some(text), Some(color), None))
  }

  /** How often `e` occurs in `effects`. */
  function Count(effects: seq<Effect>, e: Effect): nat {
    if effects == [] then 0 else (if effects[0] == e then 1 else 0) + Count(effects[1..], e)
  }

  lemma {:induction false} CountAppend(a: seq<Effect>, b: seq<Effect>, e: Effect)
    ensures Count(a + b, e) == Count(a, e) + Count(b, e)
  {
    if a == [] {
      assert a + b == b;
    } else {
      assert (a + b)[1..] == a[1..] + b;
      CountAppend(a[1..], b, e);
    }
  }

  lemma {:induction false} CountAbsent(a: seq<Effect>, e: Effect)
    ensures e !in a <==> Count(a, e) == 0
  {
    if a != [] {
      CountAbsent(a[1..], e);
      assert a == [a[0]] + a[1..];
    }
  }

  /** No child is started by these effects. */
  predicate NoLaunch(effects: seq<Effect>) {
    forall i :: 0 <= i < |effects| ==> !effects[i].StartChild?
  }

  /** How many children these effects start. */
  function Launches(effects: seq<Effect>): nat {
    if effects == [] then 0 else (if effects[0].StartChild? then 1 else 0) + Launches(effects[1..])
  }

  lemma {:induction false} LaunchesAppend(a: seq<Effect>, b: seq<Effect>)
    ensures Launches(a + b) == Launches(a) + Launches(b)
  {
    if a == [] {
      assert a + b == b;
    } else {
      assert (a + b)[1..] == a[1..] + b;
      LaunchesAppend(a[1..], b);
    }
  }

  lemma {:induction false} NoLaunchCounts(a: seq<Effect>)
    ensures NoLaunch(a) <==> Launches(a) == 0
  {
    if a != [] {
      NoLaunchCounts(a[1..]);
      assert forall i :: 1 <= i < |a| ==> a[i] == a[1..][i - 1];
    }
  }

  lemma CountLift(actions: seq<ConsoleAction>, e: Effect)
    requires !e.Show?
    ensures Count(Lift(actions), e) == 0
  {
    CountAbsent(Lift(actions), e);
  }

  // ---------------------------------------------------------------------------
  // Output pipeline

  /** `WriteReceivedLine`: while the child is being closed nothing is shown or recorded;
      otherwise the processed line is written in its colours and, when it has visible
      content, becomes the last output. */
  function WriteReceivedLine(s: Supervisor, out: LineResult, now: Instant): (o: Outcome)
    requires WellFormed(s)
  {
    if s.state.isClosing then Outcome(s, [])
    else
      var shown := Lift(WriteMessage(out.line, out.foreground, out.background));
      if out.line.Some? && HasContent(out.line.value) then
        Outcome(s.(state := RecordOutput(s.state, out.line.value, now)), shown)
      else Outcome(s, shown)
  }

  /** `DataReceived` for a line from either stream. The end-of-stream marker is dropped
      before the processor sees it. Any other line goes through the processor, whose
      effects on the error flag and the read-failure counter always apply, and is then
      shown and recorded unless the child is being closed. */
  function DataReceived(s: Supervisor, kind: LineType, line: Option<string>, now: Instant,
                        parse: MiningProcessors.DecimalParser): (o: Outcome)
    requires WellFormed(s)
    ensures WellFormed(o.sup)
    ensures line.None? ==> o == Outcome(s, [])
    ensures o.sup == s.(processor := o.sup.processor, state := o.sup.state)
    ensures o.sup.state.restarts == s.state.restarts && o.sup.state.restartTime == s.state.restartTime
    ensures o.sup.state.mustRestart == s.state.mustRestart && o.sup.state.isClosing == s.state.isClosing
    ensures s.state.hasErrored ==> o.sup.state.hasErrored
    ensures 0 <= s.state.readResponseFailed < MiningProcessors.ReadFailureLimit ==>
      0 <= o.sup.state.readResponseFailed < MiningProcessors.ReadFailureLimit
    ensures line.Some? ==>
      var p := Processors.ProcessLine(s.processor, ViewOf(s.state), kind, line.value, parse);
      var recorded := !s.state.isClosing && p.out.line.Some? && HasContent(p.out.line.value);
      && o.sup.processor == p.processor
      && o.sup.state.hasErrored == p.out.view.hasErrored
      && o.sup.state.readResponseFailed == p.out.view.readResponseFailed
      && (s.state.isClosing ==> o.effects == [])
      && (!s.state.isClosing ==> o.effects == Lift(WriteMessage(p.out.line, p.out.foreground, p.out.background)))
      && (recorded ==> o.sup.state.lastOutput == Some(now) && o.sup.state.lastLines.Size() > 0
                       && LastLine(o.sup.state) == p.out.line.value)
      && (!recorded ==> o.sup.state.lastOutput == s.state.lastOutput && o.sup.state.lastLines == s.state.lastLines)
  {
    match line
    case None => Outcome(s, [])
    case Some(text) =>
      var p := Processors.ProcessLine(s.processor, ViewOf(s.state), kind, text, parse);
      var s1 := s.(processor := p.processor, state := WithView(s.state, p.out.view));
      WriteReceivedLine(s1, p.out, now)
  }

  /** The lines a child still delivers while it is being closed, processed in order. */
  function Drain(s: Supervisor, lines: seq<Incoming>, now: Instant,
                 parse: MiningProcessors.DecimalParser): (o: Outcome)
    requires WellFormed(s)
    ensures WellFormed(o.sup)
    ensures o.sup == s.(processor := o.sup.processor, state := o.sup.state)
    ensures o.sup.state.isClosing == s.state.isClosing
    ensures s.state.hasErrored ==> o.sup.state.hasErrored
    ensures 0 <= s.state.readResponseFailed < MiningProcessors.ReadFailureLimit ==>
      0 <= o.sup.state.readResponseFailed < MiningProcessors.ReadFailureLimit
    ensures s.state.isClosing ==> o.effects == [] && SameRecords(o.sup.state, s.state)
    decreases |lines|
  {
    if lines == [] then Outcome(s, [])
    else
      var a := DataReceived(s, lines[0].kind, lines[0].line, now, parse);
      var b := Drain(a.sup, lines[1..], now, parse);
      Outcome(b.sup, a.effects + b.effects)
  }

  // ---------------------------------------------------------------------------
  // Shutdown escalation

  /** `CloseProcess`. With no tracked child it does nothing. Otherwise it marks the
      supervisor as closing; a live child is asked to close its main window and killed if
      that request fails or the child does not exit within 20 s, after which the handle is
      released and forgotten; an exited child's handle is kept. Lines the child delivers
      meanwhile are processed but neither shown nor recorded. In every case the timer is
      stopped, the closing mark cleared and the console colours reset. */
  function CloseProcess(s: Supervisor, now: Instant, inputs: CloseInputs,
                        parse: MiningProcessors.DecimalParser): (o: Outcome)
    requires WellFormed(s)
    ensures WellFormed(o.sup)
    ensures s.process.None? ==> o == Outcome(s, [])
    ensures o.sup.phase == s.phase && o.sup.command == s.command && SameRecords(o.sup.state, s.state)
    ensures s.state.hasErrored ==> o.sup.state.hasErrored
    ensures 0 <= s.state.readResponseFailed < MiningProcessors.ReadFailureLimit ==>
      0 <= o.sup.state.readResponseFailed < MiningProcessors.ReadFailureLimit
    ensures s.process.Some? ==>
      && !o.sup.timerOn && !o.sup.state.isClosing
      && |o.effects| >= 2 && o.effects[|o.effects| - 2..] == [StopTimer, Show(ResetColor)]
    ensures ChildAlive(s) ==>
      && o.sup.process.None?
      && Count(o.effects, CloseMainWindow) == 1 && Count(o.effects, Release) == 1
      && Count(o.effects, Kill) == (if !inputs.windowClosed || !inputs.exitsInTime then 1 else 0)
      && Count(o.effects, WaitForExit(CloseTimeoutMs)) == (if inputs.windowClosed then 1 else 0)
    ensures s.process.Some? && !ChildAlive(s) ==>
      && o.sup.process == s.process
      && Count(o.effects, CloseMainWindow) == 0 && Count(o.effects, Kill) == 0
    ensures NoLaunch(o.effects)
  {
    if s.process.None? then Outcome(s, [])
    else
      var stopped := Stop(s.(state := s.state.(isClosing := true)), inputs);
      var drained := Drain(stopped.sup, inputs.inFlight, now, parse);
      var done := drained.sup.(timerOn := false, state := drained.sup.state.(isClosing := false));
      var tail := [StopTimer, Show(ResetColor)];
      var effects := stopped.effects + drained.effects + tail;
      assert drained.effects == [];
      assert effects == stopped.effects + tail;
      CloseEffectCounts(ChildAlive(s), inputs, stopped.effects, effects);
      NoLaunchWhileClosing(ChildAlive(s), inputs, stopped.effects);
      Outcome(done, effects)
  }

  /** The part of a close that acts on the child: a live child is stopped, released and
      forgotten; an exited child's handle is kept. */
  function Stop(s: Supervisor, inputs: CloseInputs): (o: Outcome)
    requires s.process.Some?
  {
    if ChildAlive(s) then
      Outcome(s.(process := None), Say("Closing process...", White) + Stopping(inputs) + [Release])
    else Outcome(s, Say("Process already closed.", White))
  }

  /** Stopping a live child once the close has been asked for: kill it at once when the
      window cannot be closed; otherwise wait up to 20 s and kill it if it is still there. */
  function Stopping(inputs: CloseInputs): seq<Effect> {
    if !inputs.windowClosed then [CloseMainWindow, Kill]
    else if inputs.exitsInTime then [CloseMainWindow, WaitForExit(CloseTimeoutMs)]
    else [CloseMainWindow, WaitForExit(CloseTimeoutMs)]
         + Say("CloseMainWindow failed, terminating...", Magenta) + [Kill]
  }

  /** Messages do not count as calls on the child. */
  lemma CountAfterSay(text: string, color: Color, rest: seq<Effect>, e: Effect)
    requires !e.Show?
    ensures Count(Say(text, color) + rest, e) == Count(rest, e)
  {
    CountAppend(Say(text, color), rest, e);
    CountLift(WriteMessage(Some(text), Some(color), None), e);
  }

  lemma CountPair(a: Effect, b: Effect, e: Effect)
    ensures Count([a, b], e) == (if a == e then 1 else 0) + (if b == e then 1 else 0)
  {
    var ab := [a, b];
    assert ab[1..] == [b];
    assert [b][1..] == [];
    assert Count([b], e) == (if b == e then 1 else 0) + Count([], e);
  }

  lemma CountWithTail(stopping: seq<Effect>, e: Effect)
    requires !e.Show?
    ensures Count(stopping + [StopTimer, Show(ResetColor)], e) == Count(stopping, e) + (if e == StopTimer then 1 else 0)
  {
    CountAppend(stopping, [StopTimer, Show(ResetColor)], e);
    CountPair(StopTimer, Show(ResetColor), e);
  }

  lemma CountStopping(inputs: CloseInputs, e: Effect)
    requires !e.Show?
    ensures Count(Stopping(inputs), e)
         == (if e == CloseMainWindow then 1 else 0)
          + (if e == Kill && (!inputs.windowClosed || !inputs.exitsInTime) then 1 else 0)
          + (if e == WaitForExit(CloseTimeoutMs) && inputs.windowClosed then 1 else 0)
  {
    var stop := Stopping(inputs);
    var head: seq<Effect> := [CloseMainWindow, WaitForExit(CloseTimeoutMs)];
    CountPair(CloseMainWindow, WaitForExit(CloseTimeoutMs), e);
    if !inputs.windowClosed {
      CountPair(CloseMainWindow, Kill, e);
    } else if !inputs.exitsInTime {
      var say := Say("CloseMainWindow failed, terminating...", Magenta);
      assert stop == head + (say + [Kill]);
      CountAppend(head, say + [Kill], e);
      CountAfterSay("CloseMainWindow failed, terminating...", Magenta, [Kill], e);
      assert [Kill][1..] == [];
    }
  }

  lemma CountAliveStopping(inputs: CloseInputs, e: Effect)
    requires !e.Show?
    ensures Count(Say("Closing process...", White) + Stopping(inputs) + [Release], e)
         == Count(Stopping(inputs), e) + (if e == Release then 1 else 0)
  {
    var stop := Stopping(inputs);
    assert Say("Closing process...", White) + stop + [Release] == Say("Closing process...", White) + (stop + [Release]);
    CountAfterSay("Closing process...", White, stop + [Release], e);
    CountAppend(stop, [Release], e);
    assert [Release][1..] == [];
  }

  lemma CloseEffectCounts(alive: bool, inputs: CloseInputs, stopping: seq<Effect>, effects: seq<Effect>)
    requires alive ==> stopping == Say("Closing process...", White) + Stopping(inputs) + [Release]
    requires !alive ==> stopping == Say("Process already closed.", White)
    requires effects == stopping + [StopTimer, Show(ResetColor)]
    ensures alive ==>
      && Count(effects, CloseMainWindow) == 1 && Count(effects, Release) == 1
      && Count(effects, Kill) == (if !inputs.windowClosed || !inputs.exitsInTime then 1 else 0)
      && Count(effects, WaitForExit(CloseTimeoutMs)) == (if inputs.windowClosed then 1 else 0)
    ensures !alive ==> Count(effects, CloseMainWindow) == 0 && Count(effects, Kill) == 0
  {
    CountWithTail(stopping, CloseMainWindow);
    CountWithTail(stopping, Kill);
    CountWithTail(stopping, Release);
    CountWithTail(stopping, WaitForExit(CloseTimeoutMs));
    if alive {
      CountAliveStopping(inputs, CloseMainWindow);
      CountAliveStopping(inputs, Kill);
      CountAliveStopping(inputs, Release);
      CountAliveStopping(inputs, WaitForExit(CloseTimeoutMs));
      CountStopping(inputs, CloseMainWindow);
      CountStopping(inputs, Kill);
      CountStopping(inputs, Release);
      CountStopping(inputs, WaitForExit(CloseTimeoutMs));
    } else {
      CountLift(WriteMessage(Some("Process already closed."), Some(White), None), CloseMainWindow);
      CountLift(WriteMessage(Some("Process already closed."), Some(White), None), Kill);
    }
  }
  lemma NoLaunchWhileClosing(alive: bool, inputs: CloseInputs, stopping: seq<Effect>)
    requires alive ==> stopping == Say("Closing process...", White) + Stopping(inputs) + [Release]
    requires !alive ==> stopping == Say("Process already closed.", White)
    ensures NoLaunch(stopping) && NoLaunch(stopping + [StopTimer, Show(ResetColor)])
  {
    if alive {
      var say := Say("Closing process...", White);
      forall i | 0 <= i < |stopping| ensures !stopping[i].StartChild? {
        if i < |say| {
          assert stopping[i] == say[i];
        } else if i < |say| + |Stopping(inputs)| {
          assert stopping[i] == Stopping(inputs)[i - |say|];
        }
      }
    }
  }

  // ---------------------------------------------------------------------------
  // Watchdog

  /** The last output is strictly older than one minute before `now`. */
  predicate Stale(ps: ProcessState, now: Instant) {
    ps.lastOutput.Some? && ps.lastOutput.value < now - StaleAfter
  }

  /** A processor has flagged an error and the tracked child is still alive. */
  predicate ErrorPending(s: Supervisor) {
    s.state.hasErrored && ChildAlive(s)
  }

  /** The watchdog has a reason to act on this tick. */
  predicate Alarmed(s: Supervisor, now: Instant) {
    s.timerOn && !s.state.isClosing && (Stale(s.state, now) || ErrorPending(s))
  }

  /** Requests a restart, announcing why, and closes the child. */
  function Escalate(s: Supervisor, now: Instant, why: string, color: Color, inputs: CloseInputs,
                    parse: MiningProcessors.DecimalParser): (o: Outcome)
    requires WellFormed(s)
    ensures WellFormed(o.sup)
  {
    var c := CloseProcess(s.(state := s.state.(mustRestart := true)), now, inputs, parse);
    Outcome(c.sup, Say(why, color) + c.effects)
  }

  /** `TimerElapsed`, one watchdog tick. A stopped timer does not tick, and a tick while
      the child is being closed does nothing. Otherwise stale output requests a restart
      and closes the child; then, on the state that leaves, a flagged error with the child
      still alive does the same. A close for staleness forgets the child, so a live child
      is closed at most once per tick. The window-title refresh is not modelled. */
  function TimerElapsed(s: Supervisor, now: Instant, inputs: CloseInputs,
                        parse: MiningProcessors.DecimalParser): (o: Outcome)
    requires WellFormed(s)
    ensures WellFormed(o.sup) && NoLaunch(o.effects)
    ensures !Alarmed(s, now) ==> o == Outcome(s, [])
    ensures Alarmed(s, now) ==> o.sup.state.mustRestart
    ensures Alarmed(s, now) && ChildAlive(s) ==>
      && o.sup.process.None? && !o.sup.timerOn && !o.sup.state.isClosing
      && Count(o.effects, CloseMainWindow) == 1
    ensures o.sup.phase == s.phase && o.sup.command == s.command
    ensures o.sup.state.restarts == s.state.restarts && o.sup.state.restartTime == s.state.restartTime
    ensures o.sup.state.lastOutput == s.state.lastOutput && o.sup.state.lastLines == s.state.lastLines
    ensures !s.state.isClosing ==> !o.sup.state.isClosing
    ensures 0 <= s.state.readResponseFailed < MiningProcessors.ReadFailureLimit ==>
      0 <= o.sup.state.readResponseFailed < MiningProcessors.ReadFailureLimit
  {
    if !s.timerOn || s.state.isClosing then Outcome(s, [])
    else
      var a :=
        if Stale(s.state, now) then Escalate(s, now, "Last output was more than one minute ago.", Yellow, inputs, parse)
        else Outcome(s, []);
      var b :=
        if ErrorPending(a.sup) then Escalate(a.sup, now, "Received error.", Magenta, inputs, parse)
        else Outcome(a.sup, []);
      TickEffects(s, a, b, now, inputs, parse);
      Outcome(b.sup, a.effects + b.effects)
  }

  /** The effects of one tick: no launch, and one close request for a live child when
      the watchdog acts. */
  lemma TickEffects(s: Supervisor, a: Outcome, b: Outcome, now: Instant, inputs: CloseInputs,
                    parse: MiningProcessors.DecimalParser)
    requires WellFormed(s)
    requires a == if Stale(s.state, now) then Escalate(s, now, "Last output was more than one minute ago.", Yellow, inputs, parse)
                  else Outcome(s, [])
    requires WellFormed(a.sup)
    requires b == if ErrorPending(a.sup) then Escalate(a.sup, now, "Received error.", Magenta, inputs, parse)
                  else Outcome(a.sup, [])
    ensures NoLaunch(a.effects + b.effects)
    ensures ChildAlive(s) ==>
      Count(a.effects + b.effects, CloseMainWindow) == (if Stale(s.state, now) || ErrorPending(s) then 1 else 0)
  {
    CountAppend(a.effects, b.effects, CloseMainWindow);
    NoLaunchCounts(a.effects);
    NoLaunchCounts(b.effects);
    LaunchesAppend(a.effects, b.effects);
    NoLaunchCounts(a.effects + b.effects);
    if Stale(s.state, now) {
      var c := CloseProcess(s.(state := s.state.(mustRestart := true)), now, inputs, parse);
      CountAfterSay("Last output was more than one minute ago.", Yellow, c.effects, CloseMainWindow);
      SayNoLaunch("Last output was more than one minute ago.", Yellow, c.effects);
    }
    if ErrorPending(a.sup) {
      var c := CloseProcess(a.sup.(state := a.sup.state.(mustRestart := true)), now, inputs, parse);
      CountAfterSay("Received error.", Magenta, c.effects, CloseMainWindow);
      SayNoLaunch("Received error.", Magenta, c.effects);
    }
  }

  /** Messages start no child. */
  lemma SayNoLaunch(text: string, color: Color, rest: seq<Effect>)
    requires NoLaunch(rest)
    ensures NoLaunch(Say(text, color) + rest)
  {
    var say := Say(text, color);
    forall i | 0 <= i < |say + rest| ensures !(say + rest)[i].StartChild? {
      if i >= |say| {
        assert (say + rest)[i] == rest[i - |say|];
      }
    }
  }

  // ---------------------------------------------------------------------------
  // Main loop

  /** `Exited`, raised when the tracked child ends by itself: clears the closing mark and
      stops the timer. The handle stays, now exited. */
  function Exited(s: Supervisor): (o: Outcome)
    ensures ChildAlive(s) ==>
      && o.sup.process == Some(Child(true)) && !o.sup.timerOn && !o.sup.state.isClosing
      && StopTimer in o.effects && Show(WriteLine("Process closed.")) in o.effects
    ensures !ChildAlive(s) ==> o == Outcome(s, [])
    ensures o.sup.phase == s.phase && o.sup.command == s.command && o.sup.processor == s.processor
    ensures SameRecords(o.sup.state, s.state) && o.sup.state.hasErrored == s.state.hasErrored
    ensures o.sup.state.readResponseFailed == s.state.readResponseFailed
    ensures NoLaunch(o.effects)
  {
    if ChildAlive(s) then
      SayNoLaunch("Process closed.", White, [StopTimer]);
      Outcome(s.(process := Some(Child(true)), state := s.state.(isClosing := false), timerOn := false),
              Say("Process closed.", White) + [StopTimer])
    else Outcome(s, [])
  }

  /** The loop condition `while (MustRestart)`: back to the top of the loop, or finish,
      resetting the console colours. */
  function AfterIteration(s: Supervisor): (o: Outcome)
    ensures o.sup == s.(phase := o.sup.phase)
    ensures s.state.mustRestart <==> o.sup.phase == Ready
    ensures !s.state.mustRestart ==> o.sup.phase == Done(Completed) && o.effects == [Show(ResetColor)]
    ensures NoLaunch(o.effects)
  {
    if s.state.mustRestart then Outcome(s.(phase := Ready), [])
    else Outcome(s.(phase := Done(Completed)), [Show(ResetColor)])
  }

  /** When the main thread's `WaitForExit` returns (the child it waits on is gone or has
      exited), the loop condition decides what comes next. */
  function Settle(o: Outcome): (r: Outcome)
    ensures o.sup.phase.Running? && !ChildAlive(o.sup) ==>
      && r.sup == o.sup.(phase := r.sup.phase)
      && (o.sup.state.mustRestart <==> r.sup.phase == Ready)
      && (!o.sup.state.mustRestart ==> r.sup.phase == Done(Completed))
      && |r.effects| >= |o.effects| && r.effects[..|o.effects|] == o.effects
      && NoLaunch(r.effects[|o.effects|..])
      && Count(r.effects, CloseMainWindow) == Count(o.effects, CloseMainWindow)
    ensures !(o.sup.phase.Running? && !ChildAlive(o.sup)) ==> r == o
  {
    if o.sup.phase.Running? && !ChildAlive(o.sup) then
      var next := AfterIteration(o.sup);
      CountAppend(o.effects, next.effects, CloseMainWindow);
      assert (o.effects + next.effects)[|o.effects|..] == next.effects;
      Outcome(next.sup, o.effects + next.effects)
    else o
  }

  /** `--help`, `/?` or `-?`, compared without regard to case. */
  predicate IsHelpFlag(arg: string) {
    EqualsIgnoreCase(arg, "--help") || EqualsIgnoreCase(arg, "/?") || EqualsIgnoreCase(arg, "-?")
  }

  /** The argument checks at the start of `Main`: no arguments or a help flag first ends
      the program with the invalid-command-line code (after printing the usage text, which
      is not modelled); otherwise the first argument is the command to supervise. */
  function CheckArguments(s: Supervisor, args: seq<string>): (o: Outcome)
    ensures s.phase.Init? && (args == [] || IsHelpFlag(args[0])) ==>
      o.sup == s.(phase := Done(InvalidCommandLine)) && ExitCode(o.sup.phase.exit) == Some(0x667)
    ensures s.phase.Init? && args != [] && !IsHelpFlag(args[0]) ==>
      o.sup == s.(phase := Ready, command := args[0])
    ensures !s.phase.Init? ==> o == Outcome(s, [])
    ensures o.effects == []
  {
    if !s.phase.Init? then Outcome(s, [])
    else if |args| == 0 || IsHelpFlag(args[0]) then Outcome(s.(phase := Done(InvalidCommandLine)), [])
    else Outcome(s.(phase := Ready, command := args[0]), [])
  }

  /** One iteration of the `do ... while` loop up to the point where the main thread
      blocks. The restart guard is checked first; when it trips, the loop ends without a
      launch. Otherwise the console colours are reset, the error and closing flags are
      cleared, exactly one restart is registered (the time of the last output is kept)
      and exactly one child is started with the supervised command; `AfterStart` tells
      what became of it. */
  function LaunchAttempt(s: Supervisor, now: Instant, start: StartResult,
                         parse: MiningProcessors.DecimalParser): (o: Outcome)
    requires WellFormed(s)
    ensures WellFormed(o.sup)
    ensures !s.phase.Ready? ==> o == Outcome(s, [])
    ensures 0 <= s.state.readResponseFailed < MiningProcessors.ReadFailureLimit ==>
      0 <= o.sup.state.readResponseFailed < MiningProcessors.ReadFailureLimit
    ensures s.phase.Ready? && RestartsExhausted(s.state, now) ==>
      && o.sup == s.(phase := Done(Completed), state := s.state.(mustRestart := false))
      && Launches(o.effects) == 0
    ensures s.phase.Ready? && !RestartsExhausted(s.state, now) ==>
      && o.sup.state.restarts == s.state.restarts + 1 && o.sup.state.restartTime == now
      && o.sup.state.lastOutput == s.state.lastOutput && o.sup.state.lastLines == s.state.lastLines
      && !o.sup.state.isClosing && !o.sup.state.hasErrored && o.sup.command == s.command
      && Launches(o.effects) == 1 && StartChild(s.command) in o.effects
    ensures s.phase.Ready? && !RestartsExhausted(s.state, now) && start == Started ==>
      && o.sup.phase == Running && o.sup.timerOn && o.sup.process == Some(Child(false))
      && !o.sup.state.hasErrored && !o.sup.state.mustRestart
    ensures s.phase.Ready? && !RestartsExhausted(s.state, now) && start == NotFound ==>
      && o.sup.phase == Done(InvalidCommandLine) && ExitCode(o.sup.phase.exit) == Some(0x667)
      && o.sup.timerOn == s.timerOn && !ChildAlive(o.sup)
    ensures s.phase.Ready? && !RestartsExhausted(s.state, now) && start == NotStarted ==>
      o.sup.phase == Ready && o.sup.state.mustRestart && !o.sup.timerOn && !ChildAlive(o.sup)
  {
    if !s.phase.Ready? then Outcome(s, [])
    else
      var g := TooManyRestarts(s.state, now);
      if g.tooMany then Refuse(s, g.state)
      else
        var ps := RegisterRestart(g.state.(hasErrored := false, isClosing := false), now);
        var announce := [Show(ResetColor)] + Say("Starting process " + s.command + "...", White);
        var before := announce + [StartChild(s.command)];
        var after := AfterStart(s.(state := ps), now, start, parse);
        LaunchCount(s.command, announce, after.effects);
        Outcome(after.sup, before + after.effects)
  }

  /** The restart guard tripped: the loop ends and the colours are reset. */
  function Refuse(s: Supervisor, guarded: ProcessState): (o: Outcome)
    ensures o.sup == s.(phase := Done(Completed), state := guarded)
    ensures Launches(o.effects) == 0
    ensures |o.effects| > 0 && o.effects[|o.effects| - 1] == Show(ResetColor)
  {
    var effects := Say("Too many restarts in a short time. Aborting.", Red) + [Show(ResetColor)];
    SayNoLaunch("Too many restarts in a short time. Aborting.", Red, [Show(ResetColor)]);
    NoLaunchCounts(effects);
    Outcome(s.(phase := Done(Completed), state := guarded), effects)
  }

  /** What follows `Process.Start()`. A started child is waited on with the watchdog
      running. A missing executable prints the usage text, which ends the program with the
      invalid-command-line code. A `false` result requests a restart and closes the handle,
      after which the loop condition is checked. None of this starts another child. */
  function AfterStart(s: Supervisor, now: Instant, start: StartResult,
                      parse: MiningProcessors.DecimalParser): (o: Outcome)
    requires WellFormed(s)
    ensures WellFormed(o.sup) && NoLaunch(o.effects)
    ensures o.sup.command == s.command
    ensures o.sup.state.restarts == s.state.restarts && o.sup.state.restartTime == s.state.restartTime
    ensures o.sup.state.lastOutput == s.state.lastOutput && o.sup.state.lastLines == s.state.lastLines
    ensures !s.state.isClosing ==> !o.sup.state.isClosing
    ensures 0 <= s.state.readResponseFailed < MiningProcessors.ReadFailureLimit ==>
      0 <= o.sup.state.readResponseFailed < MiningProcessors.ReadFailureLimit
    ensures start == Started ==>
      o.sup == s.(phase := Running, process := Some(Child(false)), timerOn := true)
    ensures start == NotFound ==>
      o.sup == s.(phase := Done(InvalidCommandLine), process := Some(Child(true)))
    ensures start == NotStarted ==>
      o.sup.phase == Ready && o.sup.state.mustRestart && !o.sup.timerOn && o.sup.process == Some(Child(true))
  {
    match start
    case Started =>
      Outcome(s.(phase := Running, process := Some(Child(false)), timerOn := true), [StartTimer])
    case NotFound =>
      SayNoLaunch(s.command + " not found", Red, [Show(WriteLine(""))]);
      Outcome(s.(phase := Done(InvalidCommandLine), process := Some(Child(true))),
              Say(s.command + " not found", Red) + [Show(WriteLine(""))])
    case NotStarted =>
      var handle := s.(state := s.state.(mustRestart := true), process := Some(Child(true)));
      var c := CloseProcess(handle, now, CloseInputs(true, true, []), parse);
      var next := AfterIteration(c.sup);
      SayNoLaunch("Process already running.", White, c.effects + next.effects);
      assert Say("Process already running.", White) + c.effects + next.effects
          == Say("Process already running.", White) + (c.effects + next.effects);
      Outcome(next.sup, Say("Process already running.", White) + c.effects + next.effects)
  }

  lemma LaunchCount(command: string, announce: seq<Effect>, after: seq<Effect>)
    requires announce == [Show(ResetColor)] + Say("Starting process " + command + "...", White)
    requires NoLaunch(after)
    ensures Launches(announce + [StartChild(command)] + after) == 1
    ensures StartChild(command) in announce + [StartChild(command)] + after
  {
    var all := announce + [StartChild(command)] + after;
    assert all[|announce|] == StartChild(command);
    SayNoLaunch("Starting process " + command + "...", White, []);
    assert NoLaunch(announce) by {
      assert Say("Starting process " + command + "...", White) + [] == Say("Starting process " + command + "...", White);
      forall i | 0 <= i < |announce| ensures !announce[i].StartChild? {
        if i > 0 {
          assert announce[i] == Say("Starting process " + command + "...", White)[i - 1];
        }
      }
    }
    NoLaunchCounts(announce);
    NoLaunchCounts(after);
    LaunchesAppend(announce, [StartChild(command)]);
    LaunchesAppend(announce + [StartChild(command)], after);
    assert [StartChild(command)][1..] == [];
  }

  // ---------------------------------------------------------------------------
  // Console signals

  /** The cancel-key handler (Ctrl-C) and the console-event callback (every other
      signal): announce the signal and close the child. Neither handler cancels the
      signal, so the host then ends with a code the operating system chooses. */
  function OnSignal(s: Supervisor, sig: Signal, now: Instant, inputs: CloseInputs,
                     parse: MiningProcessors.DecimalParser): (o: Outcome)
    requires WellFormed(s)
    ensures WellFormed(o.sup) && NoLaunch(o.effects)
    ensures o.sup.phase == Done(Interrupted) && ExitCode(o.sup.phase.exit).None?
    ensures SameRecords(o.sup.state, s.state)
    ensures |o.effects| > 1 && o.effects[0] == Show(SetForeground(White))
      && o.effects[1] == Show(WriteLine(SignalMessage(sig)))
    ensures ChildAlive(s) ==>
      && o.sup.process.None? && !o.sup.timerOn
      && Count(o.effects, CloseMainWindow) == 1 && Count(o.effects, Release) == 1
    ensures !ChildAlive(s) ==> o.sup.process == s.process && Count(o.effects, CloseMainWindow) == 0
    ensures s.process.Some? ==> !o.sup.timerOn
    ensures s.process.None? ==> o.sup.timerOn == s.timerOn
    ensures !s.state.isClosing ==> !o.sup.state.isClosing
    ensures 0 <= s.state.readResponseFailed < MiningProcessors.ReadFailureLimit ==>
      0 <= o.sup.state.readResponseFailed < MiningProcessors.ReadFailureLimit
  {
    var c := CloseProcess(s, now, inputs, parse);
    SayNoLaunch(SignalMessage(sig), White, c.effects);
    CountAfterSay(SignalMessage(sig), White, c.effects, CloseMainWindow);
    CountAfterSay(SignalMessage(sig), White, c.effects, Release);
    Outcome(c.sup.(phase := Done(Interrupted)), Say(SignalMessage(sig), White) + c.effects)
  }

  // ---------------------------------------------------------------------------
  // The whole program

  /** What an event does before the loop condition is looked at. Stream lines are only
      delivered once the command line has been accepted. */
  function Apply(s: Supervisor, e: Event, parse: MiningProcessors.DecimalParser): (o: Outcome)
    requires WellFormed(s)
    ensures WellFormed(o.sup)
  {
    match e
    case Begin(args) => CheckArguments(s, args)
    case Launch(now, start) => LaunchAttempt(s, now, start, parse)
    case Received(kind, line, now) =>
      if s.phase.Init? then Outcome(s, []) else DataReceived(s, kind, line, now, parse)
    case Tick(now, close) => TimerElapsed(s, now, close, parse)
    case ChildExited => Exited(s)
    case Interrupt(sig, now, close) => OnSignal(s, sig, now, close, parse)
  }

  /** One transition of the supervisor. A finished supervisor ignores every event. */
  function Step(s: Supervisor, e: Event, parse: MiningProcessors.DecimalParser): (o: Outcome)
    requires WellFormed(s)
    ensures WellFormed(o.sup)
    ensures s.phase.Done? ==> o == Outcome(s, [])
  {
    if s.phase.Done? then Outcome(s, []) else Settle(Apply(s, e, parse))
  }

  /** A run: the events in order, with all their effects. */
  function Run(s: Supervisor, events: seq<Event>, parse: MiningProcessors.DecimalParser): (o: Outcome)
    requires WellFormed(s)
    ensures WellFormed(o.sup)
    ensures s.phase.Done? ==> o == Outcome(s, [])
    decreases |events|
  {
    if events == [] then Outcome(s, [])
    else
      var a := Step(s, events[0], parse);
      var b := Run(a.sup, events[1..], parse);
      Outcome(b.sup, a.effects + b.effects)
  }
}
