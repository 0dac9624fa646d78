/** `ProcessState`: restart bookkeeping, the restart-rate guard, the supervision flags,
    the time of the last output and the 50-line output history. */
module ProcessStates {
  import opened Wrappers
  import opened Buffer
  import opened LineProcessor

  /** A `DateTime`, as its count of 100 ns ticks since `DateTime.MinValue`. */
  type Instant = nat

  const MinValue: Instant := 0
  const TicksPerSecond := 10_000_000
  /** The restart guard's window, `TimeSpan.FromSeconds(120)`; the bound is inclusive. */
  const RestartWindow := 120 * TicksPerSecond
  /** More restarts than this within the window is too many. */
  const MaxRestarts := 3
  const HistoryCapacity := 50

  datatype ProcessState = ProcessState(
    restartTime: Instant,
    restarts: nat,
    lastLines: Ring<string>,
    mustRestart: bool,
    hasErrored: bool,
    isClosing: bool,
    lastOutput: Option<Instant>,
    readResponseFailed: int)

  /** The state of a freshly constructed `ProcessState`. */
  function Initial(): (ps: ProcessState)
    ensures ps.restarts == 0 && ps.restartTime == MinValue
    ensures !ps.mustRestart && !ps.hasErrored && !ps.isClosing
    ensures ps.lastOutput.None? && ps.readResponseFailed == 0
    ensures ps.lastLines.Valid() && ps.lastLines.capacity == HistoryCapacity && ps.lastLines.Size() == 0
  {
    ProcessState(MinValue, 0, Empty(HistoryCapacity), false, false, false, None, 0)
  }

  /** The well-formedness every reachable process state has. */
  predicate Valid(ps: ProcessState) {
    ps.lastLines.Valid() && ps.lastLines.capacity == HistoryCapacity
  }

  /** The pure part of `TooManyRestarts`: more than three restarts, the last of them at
      most 120 s before `now`. */
  predicate RestartsExhausted(ps: ProcessState, now: Instant) {
    ps.restarts > MaxRestarts && now - ps.restartTime <= RestartWindow
  }

  /** The result of reading `TooManyRestarts`: its value and the state after the read. */
  datatype Guard = Guard(tooMany: bool, state: ProcessState)

  /** Reading `TooManyRestarts` at time `now`. A positive answer also clears `MustRestart`;
      nothing else changes. */
  function TooManyRestarts(ps: ProcessState, now: Instant): (g: Guard)
    ensures g.tooMany <==> ps.restarts > 3 && now - ps.restartTime <= 120 * TicksPerSecond
    ensures g.tooMany ==> g.state == ps.(mustRestart := false)
    ensures !g.tooMany ==> g.state == ps
  {
    var result := RestartsExhausted(ps, now);
    if result then Guard(true, ps.(mustRestart := false)) else Guard(false, ps)
  }

  /** `RegisterRestart`: stamps the restart time, counts the restart and clears
      `MustRestart`; every other field is left as it was. */
  function RegisterRestart(ps: ProcessState, now: Instant): (r: ProcessState)
    ensures r.restarts == ps.restarts + 1 && r.restartTime == now && !r.mustRestart
    ensures r == ps.(restarts := r.restarts, restartTime := now, mustRestart := false)
  {
    ps.(restartTime := now, restarts := ps.restarts + 1, mustRestart := false)
  }

  /** The `LastLine` getter: the most recently recorded line. */
  function LastLine(ps: ProcessState): string
    requires ps.lastLines.Size() > 0
  {
    ps.lastLines.PeekLast()
  }

  /** `LastOutput = now; LastLine = line`, as the supervisor does for every written line
      with content. */
  function RecordOutput(ps: ProcessState, line: string, now: Instant): (r: ProcessState)
    requires Valid(ps)
    ensures Valid(r)
    ensures r.lastLines.Size() > 0 && r.lastOutput == Some(now) && LastLine(r) == line
    ensures r.lastLines.items == LastN(ps.lastLines.items + [line], HistoryCapacity)
    ensures r == ps.(lastOutput := Some(now), lastLines := r.lastLines)
  {
    PutKeepsNewest(ps.lastLines, line);
    ps.(lastOutput := Some(now), lastLines := ps.lastLines.Put(line))
  }

  /** The slice of the state a line processor sees. */
  function ViewOf(ps: ProcessState): ProcessView {
    ProcessView(ps.hasErrored, ps.lastLines, ps.readResponseFailed)
  }

  /** Writes back what a processor changed; the history is the processor's to read only. */
  function WithView(ps: ProcessState, v: ProcessView): (r: ProcessState)
    ensures ViewOf(r) == v.(lastLines := ps.lastLines)
    ensures r == ps.(hasErrored := v.hasErrored, readResponseFailed := v.readResponseFailed)
  {
    ps.(hasErrored := v.hasErrored, readResponseFailed := v.readResponseFailed)
  }

  // ---------------------------------------------------------------------------
  // Properties of the restart guard

  /** The first check, on a fresh state, never aborts, whatever the time. */
  lemma InitiallyNotTooMany(now: Instant)
    ensures !TooManyRestarts(Initial(), now).tooMany
  {
  }

  /** Reading the guard never touches the restart counter or the restart time, and never
      raises `MustRestart`. */
  lemma GuardKeepsBookkeeping(ps: ProcessState, now: Instant)
    ensures TooManyRestarts(ps, now).state.restarts == ps.restarts
    ensures TooManyRestarts(ps, now).state.restartTime == ps.restartTime
    ensures TooManyRestarts(ps, now).state.mustRestart ==> ps.mustRestart
  {
  }

  /** `RegisterRestart` applied at each of the given times, in order. */
  function RegisterAll(ps: ProcessState, times: seq<Instant>): (r: ProcessState)
    ensures r.restarts == ps.restarts + |times|
    ensures times != [] ==> r.restartTime == times[|times| - 1]
    ensures times == [] ==> r.restartTime == ps.restartTime
    decreases |times|
  {
    if times == [] then ps else RegisterAll(RegisterRestart(ps, times[0]), times[1..])
  }

  /** The guard only ever compares `now` with the LAST restart: once more than three
      restarts have been counted, the next check trips exactly when it comes within
      120 s of the previous restart, however far apart the earlier ones were. */
  lemma {:induction false} GuardSeesOnlyLastRestart(ps: ProcessState, times: seq<Instant>, now: Instant)
    requires ps.restarts + |times| > 3 && times != []
    ensures TooManyRestarts(RegisterAll(ps, times), now).tooMany
        <==> now - times[|times| - 1] <= RestartWindow
  {
  }

  /** Four restarts at 0, 30, 70 and 110 s from a fresh state: a launch attempt right
      after the fourth is refused. */
  lemma FourQuickRestartsTrip()
    ensures TooManyRestarts(
      RegisterAll(Initial(), [0, 30 * TicksPerSecond, 70 * TicksPerSecond, 110 * TicksPerSecond]),
      110 * TicksPerSecond).tooMany
  {
  }

  /** Four restarts at 0, 200, 210 and 220 s: the guard trips at 220 s too, although the
      first restart is more than 120 s away; the counter is never decayed. */
  lemma SpreadRestartsStillTrip()
    ensures TooManyRestarts(
      RegisterAll(Initial(), [0, 200 * TicksPerSecond, 210 * TicksPerSecond, 220 * TicksPerSecond]),
      220 * TicksPerSecond).tooMany
  {
  }

  /** However many restarts have been counted, a launch attempt more than 120 s after the
      last restart is allowed. */
  lemma SlowRestartsAllowed(ps: ProcessState, now: Instant)
    requires now - ps.restartTime > RestartWindow
    ensures !TooManyRestarts(ps, now).tooMany
  {
  }
}
