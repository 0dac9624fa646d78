# ConsoleProxy in Dafny

ConsoleProxy is a console supervisor. It starts a child process, reads the child's
standard output and standard error line by line, and passes each line through a
pluggable line processor. The processor may recolour the line, rewrite it, suppress it,
or flag an error. The supervisor then echoes the line in its colours and keeps track of
the latest output.

A one-second watchdog timer closes the child and asks for a restart in two cases: when
a minute has passed since the last line with content (no staleness close happens until
some child has printed a line with content; that time carries over to the children
started after it), or when a processor has flagged an error. Closing escalates
in steps. The supervisor first asks the child to close its main window. If that request
fails, it kills the child at once. If the request succeeds, it waits up to 20 s and
kills the child if it is still there. A restart guard ends the loop once more than three restarts have been
counted and the last one was at most 120 s ago. Console signals (Ctrl-C, Ctrl-Break,
close, logoff, shutdown) close the child before the host ends.

Two processors are modelled:

- `DefaultProcessor` passes every line through unchanged.
- `MiningProcessor` is for ethminer. It colours standard-error lines by class: hashrate
  report, failure, accepted share, solution found, or anything else. It keeps a
  300-sample hashrate history and an average over it. It turns repeated "read response
  failed" lines and every other failure into the error flag.

The project is written as pure functions over immutable datatypes:

| file | module | contents |
|---|---|---|
| `wrappers.dfy` | `Wrappers` | `Option` |
| `text.dfy` | `Text` | the .NET string operations the supervisor and processors use: white space, `Trim`, ordinal and case-insensitive search, `LastIndexOf` |
| `buffer.dfy` | `Buffer` | the bounded circular buffer (`CircularBuffer<T>`): `Put`, `Peek`, `PeekLast` |
| `console_writer.dfy` | `ConsoleWriter` | `WriteMessage` as a trace of console actions, and what the trace shows |
| `line_processor.dfy` | `LineProcessor` | `LineType`, the processor's view of the process state, and the processor contract |
| `process_state.dfy` | `ProcessStates` | `ProcessState` and its restart guard |
| `mining_state.dfy` | `MiningStates` | `MiningState`: the `Hashrate` property and `AverageHashrate` |
| `default_processor.dfy` | `DefaultProcessors` | `DefaultProcessor.ProcessLine` |
| `mining_processor.dfy` | `MiningProcessors` | `MiningProcessor.ProcessLine` |
| `processors.dfy` | `Processors` | dispatch to the configured processor |
| `program.dfy` | `Program` | the supervisor: the main loop, the stream handlers, the watchdog, `CloseProcess`, `Exited`, the signal handlers |
| `program_properties.dfy` | `ProgramProperties` | whole-program properties |

Threads are flattened into atomic events on one `Supervisor` state: argument check,
launch attempt, line received, timer tick, child exited, and console signal. Every
transition returns the new state and the ordered list of its effects on the world:

- console actions;
- starting the child;
- `CloseMainWindow`;
- `WaitForExit(20000)`;
- `Kill`;
- releasing the handle;
- starting and stopping the timer.

Some inputs are not computed by the model but passed in as parameters:

- The clock is an explicit `now`, counted in `DateTime` ticks of 100 ns.
- The child's behaviour during a close is a `CloseInputs` value: whether
  `CloseMainWindow` succeeds, whether the child exits within 20 s, and which lines it
  still delivers meanwhile.
- The outcome of `Process.Start()` is a `StartResult`.
- `decimal.TryParse` is the parameter `parse: string -> Option<real>`.

The restart guard follows the code. Only the restart count and the time of the last
restart decide; the count never decays. With more than three restarts ever counted, a
launch attempt within 120 s of the previous one is refused, however far apart the
earlier restarts were. A reading of the guard as "more than three restarts within a
sliding 120 s window" does not match the code. `SpreadRestartsStillTrip` and
`GuardSeesOnlyLastRestart` state what the code does.

`ProcessState.cs` declares no `ReadResponseFailed` member, although
`MiningProcessor.cs:124-128` increments and resets one. The model gives `ProcessState` an
integer field `readResponseFailed`, initially 0.

## Model

| member | source | states |
|---|---|---|
| ConsoleWriter.WriteMessage | ConsoleProxy/ConsoleWriter.cs:22-50 | a missing message produces no console action at all; otherwise exactly the message is written, once; the colours are set only to the supplied values, and they are reset exactly once when at least one colour was supplied |
| ConsoleWriter.WriteMessageShows | ConsoleProxy/ConsoleWriter.cs:31-48 | rendered on a console, the message appears in the supplied colours, or in the current ones where none was supplied; afterwards the console has its default colours if a colour was supplied, and its previous colours otherwise |
| Text.HasContentIffNotBlank | ConsoleProxy/Program.cs:293 | a line counts as output exactly when it is not made of white space alone |
| Text.TrimStart | ethminermon/MiningProcessor.cs:92 | the result is a suffix of the input that does not start with white space, and only white space was removed |
| Text.IndexOf | ethminermon/MiningProcessor.cs:86 | none exactly when the needle does not occur; otherwise the first position where it occurs |
| Text.LastIndexOfChar | ethminermon/MiningProcessor.cs:89 | the last position at or before the start index holding the character, or none when there is no such position |
| Text.ContainsIgnoreCaseTransitive | ethminermon/StringUtility.cs:22-25 | a line containing a text, ignoring case, also contains every text that one contains |
| Buffer.PutAllKeepsNewest | ConsoleProxy/ProcessState.cs:38-41 | after any number of `Put`s the buffer holds exactly the newest `capacity` items, oldest first |
| ProcessStates.Initial | ConsoleProxy/ProcessState.cs:16-26 | a fresh state has no restarts, restart time `DateTime.MinValue`, no flags set, no output time, and an empty 50-line history |
| ProcessStates.TooManyRestarts | ConsoleProxy/ProcessState.cs:62-74 | trips exactly when more than three restarts were counted and the last one is at most 120 s ago; a trip clears `MustRestart`, and nothing else changes |
| ProcessStates.RegisterRestart | ConsoleProxy/ProcessState.cs:84-89 | the restart counter goes up by one, the restart time becomes now, `MustRestart` is cleared, and nothing else changes |
| ProcessStates.RecordOutput | ConsoleProxy/ProcessState.cs:31-42 | after recording a line, `LastLine` is that line, the last output time is now, and the history is the last 50 recorded lines |
| ProcessStates.GuardKeepsBookkeeping | ConsoleProxy/ProcessState.cs:62-74 | reading the guard never changes the restart counter or time and never raises `MustRestart` |
| ProcessStates.GuardSeesOnlyLastRestart | ConsoleProxy/ProcessState.cs:66 | once more than three restarts are counted, the guard trips exactly when now is within 120 s of the last restart, whatever the earlier restart times |
| ProcessStates.FourQuickRestartsTrip | ConsoleProxy/ProcessState.cs:66 | four restarts at 0, 30, 70 and 110 s make the guard trip at 110 s |
| ProcessStates.SpreadRestartsStillTrip | ConsoleProxy/ProcessState.cs:66 | four restarts at 0, 200, 210 and 220 s also make the guard trip at 220 s |
| ProcessStates.SlowRestartsAllowed | ConsoleProxy/ProcessState.cs:66 | a launch attempt more than 120 s after the last restart is never refused |
| MiningStates.Initial | ethminermon/MiningState.cs:15-23 | a fresh mining state holds no samples in a 300-sample history, hashrate 0, and no solution |
| MiningStates.SetHashrate | ethminermon/MiningState.cs:45-49 | the value becomes the cached hashrate and the newest sample; the history keeps the last 300 values |
| MiningStates.GetHashrate | ethminermon/MiningState.cs:35-43 | with samples held, the answer is the oldest sample and it becomes the cached value; with none, the answer is the cached value; the samples are untouched |
| MiningStates.GetAfterSet | ethminermon/MiningState.cs:35-49 | reading back after a store answers the oldest of the last 300 values stored, so right after the first store the getter answers that value |
| MiningStates.GetAnswersOldest | ethminermon/MiningState.cs:30-43 | after two different values are stored, the getter answers the first, not "the last hash rate" its documentation promises |
| MiningStates.AverageHashrate | ethminermon/MiningState.cs:56-72 | with no samples, the cached hashrate; otherwise the mean of the samples, which lies between the smallest and the largest sample |
| MiningStates.Mean | ethminermon/MiningState.cs:62-68 | the mean times the number of samples is their sum |
| MiningProcessors.HashrateText | ethminermon/MiningProcessor.cs:86-95 | none when there is no "MH/s" or no ':' before its first occurrence; otherwise the text between the last such ':' and "MH/s", without leading white space |
| MiningProcessors.ReportedHashrate | ethminermon/MiningProcessor.cs:85-95 | 0 when the line has no hashrate text or the text does not parse, as `TryParse` leaves its output at 0; otherwise the parsed value of the text |
| MiningProcessors.ProcessLine | ethminermon/MiningProcessor.cs:73-177 | standard-error lines are classified by the first matching class: hashrate report (dark grey, suppressed when the rate is 0, otherwise recorded), failure (red; the read-failure counter or the error flag), accepted share (green), solution found (dark green), or other lines (dark green right after a solution, dark grey otherwise); standard-output lines get the initial colour, except the donation marker line, which is replaced by the donation text; other line types pass through; the history is never changed, the error flag never cleared, and no background colour is asked for |
| MiningProcessors.CounterStaysBelowLimit | ethminermon/MiningProcessor.cs:122-130 | the read-failure counter stays between 0 and 2 |
| MiningProcessors.ReadFailureIsFailure | ethminermon/MiningProcessor.cs:118-124 | every "read response failed" line contains "fail", so unless it is a hashrate report it reaches the counter |
| MiningProcessors.ThirdReadFailureRaisesError | ethminermon/MiningProcessor.cs:122-130 | from a clear state, two read failures only count, and the third raises the error flag and resets the counter |
| MiningProcessors.NeverRecordsZero | ethminermon/MiningProcessor.cs:107-114 | a zero hashrate never enters the history |
| DefaultProcessors.ProcessLine | defaultprocessorlib/DefaultProcessor.cs:60-65 | the line comes back unchanged, with no colours, and the process state is untouched |
| DefaultProcessors.IgnoresLineType | defaultprocessorlib/DefaultProcessor.cs:60-65 | the result does not depend on the stream the line came from |
| Processors.ProcessLine | ConsoleProxy/Interfaces/ILineProcessor.cs:39 | whichever processor is configured, it stays configured, the history is untouched, the error flag is never cleared, no background colour is asked for, and the counter stays in range |
| Program.DataReceived | ConsoleProxy/Program.cs:274-299 | the end-of-stream marker changes nothing; any other line goes through the processor, whose flag and counter changes always apply; while closing, nothing is shown or recorded; otherwise the processed line is written in its colours and, when it has content, becomes the last line at time now |
| Program.Drain | ConsoleProxy/Program.cs:288-299 | lines arriving while the child is closing show nothing and leave the restart bookkeeping and output record alone |
| Program.CloseProcess | ConsoleProxy/Program.cs:358-392 | with no child nothing happens; a live child is asked to close once, killed exactly when the request fails or it outlives the 20 s wait, released once and forgotten; an exited child's handle is kept and it is neither asked nor killed; in both cases the timer is stopped, the closing mark cleared and the colours reset last; the bookkeeping is untouched and nothing is launched |
| Program.TimerElapsed | ConsoleProxy/Program.cs:328-353 | a tick does nothing unless the timer runs, no close is under way, and the output is stale or an error is pending; when it acts it requests a restart and closes a live child exactly once; it never launches anything |
| Program.Exited | ConsoleProxy/Program.cs:321-326 | a live child's exit is announced with "Process closed.", the timer stopped and the closing mark cleared, and nothing else changes |
| Program.AfterIteration | ConsoleProxy/Program.cs:128-130 | the loop goes round again exactly when a restart was requested; otherwise it ends normally and resets the colours |
| Program.Settle | ConsoleProxy/Program.cs:118 | once the child the main thread waits on is gone, the loop condition decides, adding no launch and no close |
| Program.CheckArguments | ConsoleProxy/Program.cs:65-76 | no arguments or a help flag ends the program with exit code 0x667; otherwise the first argument becomes the command |
| Program.LaunchAttempt | ConsoleProxy/Program.cs:83-126 | when the guard trips the loop ends with no launch; otherwise flags are cleared, exactly one restart is registered at now, the last output time is kept, and exactly one child is started with the command; a started child is running with the timer on, a missing executable exits with 0x667, and a failed start requests a restart |
| Program.OnSignal | ConsoleProxy/Program.cs:301-319 | the signal's message ("Received ^C." or "Received Close Event.") is written first, in white; a live child is asked to close once and released, and the program ends with an exit code the operating system chooses |
| ProgramProperties.StepKeepsInv | ConsoleProxy/Program.cs:83-128 | every transition keeps the invariant: no close is half done, the timer runs exactly while the main thread waits on a child, and that child is alive exactly then |
| ProgramProperties.RunKeepsInv | ConsoleProxy/Program.cs:83-128 | every run keeps the invariant |
| ProgramProperties.StepCountsRestarts | ConsoleProxy/Program.cs:96-104 | each transition adds exactly one restart per child it starts |
| ProgramProperties.RunCountsRestarts | ConsoleProxy/ProcessState.cs:84-89 | over any run the restart counter grows by exactly the number of children started, so it never decreases |
| ProgramProperties.GuardRefusesLaunch | ConsoleProxy/Program.cs:85-89 | when the guard trips no child is started and the program ends normally with code 0 |
| ProgramProperties.LaunchResetsFlags | ConsoleProxy/Program.cs:92-118 | a launch that passes the guard leaves a live child with the timer on, no error or closing flag, one more restart at now, the same output record, and exactly one start of the command |
| ProgramProperties.UsageExitCode | ConsoleProxy/Program.cs:65-76 | no arguments or a help flag exits with code 0x667 and nothing is ever launched |
| ProgramProperties.NotFoundExitCode | ConsoleProxy/Program.cs:106-111 | a command that cannot be found exits with code 0x667, its launch counted |
| ProgramProperties.InterruptEnds | ConsoleProxy/Program.cs:301-319 | after a signal no child is alive, the timer is off and no further event has any effect |
| ProgramProperties.NullLineDropped | ConsoleProxy/Program.cs:276-279 | the end-of-stream marker changes nothing and shows nothing |
| ProgramProperties.WatchdogTick | ConsoleProxy/Program.cs:330-352 | a tick on a running child acts exactly when the output is stale or an error is flagged; acting closes the child once, requests a restart and returns to the top of the loop; otherwise the tick changes nothing |
| ProgramProperties.StaleOutputSurvivesRelaunch | ConsoleProxy/Program.cs:92-97 | the last output time survives a relaunch, so a child started right after a staleness close is stale at its first tick and is closed again |
| ProgramProperties.KillComesLast | ConsoleProxy/Program.cs:364-381 | a kill always follows the close request and, when that request was accepted, also the 20 s wait |
| ProgramProperties.InFlightInvisible | ConsoleProxy/Program.cs:288-299 | lines the child delivers while it is being closed change neither the close's effects nor the bookkeeping and output record |
| ProgramProperties.CloseTwice | ConsoleProxy/Program.cs:358-392 | a second close leaves the child alone, so it is asked to close and released exactly once |

## Left out

- Plugin loading is left out because reflection is not part of the model: reading the settings, loading the processor assembly, `Environment.Exit(2)` for a missing setting, and `Environment.Exit(3)` for a processor that cannot be created. The processor is a parameter of `Program.Initial`.
- The usage, vanity and command-line-usage texts are left out; only the exit code 0x667 that ends `ShowCLIUsage` is modelled. The window title (`WindowTitle`, `Console.Title`) is left out too; `AverageHashrate`, which the title shows, is modelled.
- `GetProgramArguments` and `SetupProcess` are left out, because they turn the raw command line into process start information. Only the command is kept.
- `CurrentDomain_UnhandledException` is left out, because its registration is commented out in the code.
- Real threads, the `System.Timers.Timer` and their interleavings are left out. Each handler runs atomically. Lines that arrive during `CloseProcess` are its `inFlight` input.
- Program.Exited: an `Exited` event for a child that `CloseProcess` has already released is dropped. An `Exited` event that would arrive after the next child has started is not modelled.
- Program.AfterStart: when `Process.Start()` returns false, the handle is treated as an exited child. `CloseProcess` therefore takes its "already closed" path. In .NET, reading `HasExited` on a process that never started throws instead.
- Program.LaunchAttempt: after "not found", `ShowCLIUsage` ends the program. The model stops at that point, so the remaining `Console.WriteLine` output is not shown.
- MiningProcessors.ProcessLine: cursor handling (`Console.CursorTop`, `prevcursortop`, `WasMiningOn`) is left out, because it only moves the console cursor. For the donation marker line, the direct console write of the original line in the initial colour is left out; only the returned donation text is modelled.
- Culture details are left out. `StringUtility.Contains` with `IgnoreCase` and `Equals` with `InvariantCultureIgnoreCase` are modelled by ASCII case folding. Culture-sensitive `IndexOf` without options is modelled as an ordinal substring search.
- MiningProcessors.ReportedHashrate: `decimal.TryParse` is the uninterpreted `parse` parameter, and `decimal` arithmetic is exact `real` arithmetic, without rounding or the 28-digit limit.
- Buffer.Peek and Buffer.PeekLast require a non-empty buffer. The behaviour of `CircularBuffer` on an empty buffer is not modelled. MiningProcessor's cursor logic (`WasMiningOn`) may read `LastLine` on an empty buffer. That read is left out with the cursor handling.
- ProcessStates.RegisterRestart: the restart counter is an unbounded `nat`, not a 32-bit `int`. Overflow after 2^31 restarts is not modelled.
- Console colours are a 16-value enumeration. The console's own state outside the actions traced here is not modelled.
