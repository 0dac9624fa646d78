/** `MiningProcessor`: the line processor for ethminer's output. Lines from standard error
    are classified by the first of these substrings they contain: "Mining on " (a hashrate
    report), "FAIL" or ":-(" (a failure), "B-)" (an accepted share), "Solution found";
    each class gets its own colour, hashrate reports feed the rolling average, and
    failures raise the supervisor's error flag. Console cursor handling is not modelled. */
module MiningProcessors {
  import opened Wrappers
  import opened Text
  import opened ConsoleWriter
  import opened LineProcessor
  import opened MiningStates

  /** `decimal.TryParse` with `NumberStyles.Number` in the en-US culture: the parsed
      value, or none when the text is not a number. */
  type DecimalParser = string -> Option<real>

  const MiningOn := "Mining on "
  const Failed := "FAIL"
  const Frown := ":-("
  const ReadResponseFailed := "Read response failed: End of file"
  const Accepted := "B-)"
  const SolutionFound := "Solution found"
  const HashUnit := "MH/s"
  const DonationMarker := "ETH: 0xeb9310b185455f863f526dab3d245809f6854b4d"
  const NewLine := "\r\n"
  const DonationText :=
    NewLine + "If you like ethminermon/ConsoleProxy, please consider a donation to: " + NewLine
    + "ETH: 0x00D5a55E7c9C92148C451dEF736f8116bf4BD7f5" + NewLine
    + "BTC: 18iyZAE2kPkDFr8DZGpVQDxiARmyogS8qX" + NewLine
  /** This many "read response failed" lines in a row count as one error. */
  const ReadFailureLimit := 3

  /** The processor's own state, kept for the supervisor's whole lifetime: the mining
      state and the foreground colour the console had when the processor was made. */
  datatype MiningProcessor = MiningProcessor(state: MiningState, initialForeground: Color)

  /** `c` is the position of the last ':' before position `m` of `line`. */
  predicate LastColonBefore(line: string, m: nat, c: nat) {
    c < m < |line| && line[c] == ':' && forall j :: c < j <= m ==> line[j] != ':'
  }

  /** The text between the last ':' before position `m` and `m`, leading white space
      removed; none when there is no ':' before `m`. */
  function TextAfterColon(line: string, m: nat): (r: Option<string>)
    requires m < |line| && line[m] != ':'
    ensures r.None? <==> forall j :: 0 <= j <= m ==> line[j] != ':'
    ensures forall c :: LastColonBefore(line, m, c) ==> r == Some(TrimStart(line[c + 1..m]))
  {
    match LastIndexOfChar(line, ':', m)
    case None => None
    case Some(k) =>
      var text := Some(TrimStart(line[k + 1..m]));
      assert forall c :: LastColonBefore(line, m, c) ==> text == Some(TrimStart(line[c + 1..m])) by {
        forall c | LastColonBefore(line, m, c) ensures text == Some(TrimStart(line[c + 1..m])) {
          LastColonUnique(line, m, c, k);
        }
      }
      text
  }

  /** There is only one last ':' before a position. */
  lemma LastColonUnique(line: string, m: nat, c: nat, k: nat)
    requires LastColonBefore(line, m, c) && LastColonBefore(line, m, k)
    ensures c == k
  {
  }

  /** The text of a hashrate report: what lies between the last ':' at or before the
      first "MH/s" and that "MH/s", leading white space removed. None when the line has
      no "MH/s" or no ':' before it. */
  function HashrateText(line: string): (r: Option<string>)
    ensures IndexOf(line, HashUnit).None? ==> r.None?
    ensures IndexOf(line, HashUnit).Some? ==>
      var m := IndexOf(line, HashUnit).value;
      && (r.None? <==> forall j :: 0 <= j <= m ==> line[j] != ':')
      && (forall c :: LastColonBefore(line, m, c) ==> r == Some(TrimStart(line[c + 1..m])))
  {
    match IndexOf(line, HashUnit)
    case None => None
    case Some(m) =>
      assert |HashUnit| == 4 && m + 4 <= |line|;
      assert line[m] == line[m..m + 4][0] == HashUnit[0] == 'M';
      TextAfterColon(line, m)
  }

  /** The hashrate a report line carries; 0 when there is none or it does not parse, as
      `TryParse` leaves its output at 0 on failure. */
  function ReportedHashrate(line: string, parse: DecimalParser): (r: real)
    ensures HashrateText(line).None? ==> r == 0.0
    ensures HashrateText(line).Some? && parse(HashrateText(line).value).None? ==> r == 0.0
    ensures HashrateText(line).Some? && parse(HashrateText(line).value).Some? ==>
      r == parse(HashrateText(line).value).value
  {
    match HashrateText(line)
    case None => 0.0
    case Some(text) => parse(text).GetOr(0.0)
  }

  /** The pair a processor call produces: the processed line and the processor's new state. */
  datatype MiningStep = MiningStep(out: LineResult, processor: MiningProcessor)

  /** `MiningProcessor.ProcessLine`. */
  function ProcessLine(p: MiningProcessor, view: ProcessView, kind: LineType, line: string, parse: DecimalParser): (r: MiningStep)
    requires Valid(p.state)
    ensures Valid(r.processor.state) && r.processor.initialForeground == p.initialForeground
    ensures r.out.background.None?
    ensures HonoursContract(view, r.out.view)
    // lines from neither stream pass through untouched
    ensures kind != Error && kind != Output ==>
      r.out == LineResult(Some(line), None, None, view) && r.processor == p
    // a hashrate report wins over every other class
    ensures kind == Error && ContainsIgnoreCase(line, MiningOn) ==>
      var h := ReportedHashrate(line, parse);
      && r.out.foreground == Some(DarkGray) && !r.processor.state.solutionFound
      && r.out.view == view
      && (h == 0.0 ==> r.out.line.None? && r.processor.state == p.state.(solutionFound := false))
      && (h != 0.0 ==> r.out.line == Some(line)
                       && r.processor.state == SetHashrate(p.state, h).(solutionFound := false))
    // failures
    ensures kind == Error && !ContainsIgnoreCase(line, MiningOn)
            && (ContainsIgnoreCase(line, Failed) || Contains(line, Frown)) ==>
      && r.out.line == Some(line) && r.out.foreground == Some(Red)
      && r.processor.state == p.state.(solutionFound := false)
      && (!ContainsIgnoreCase(line, ReadResponseFailed) ==>
            r.out.view == view.(hasErrored := true))
      && (ContainsIgnoreCase(line, ReadResponseFailed) && view.readResponseFailed + 1 < ReadFailureLimit ==>
            r.out.view == view.(readResponseFailed := view.readResponseFailed + 1))
      && (ContainsIgnoreCase(line, ReadResponseFailed) && view.readResponseFailed + 1 >= ReadFailureLimit ==>
            r.out.view == view.(hasErrored := true, readResponseFailed := 0))
    // accepted shares and found solutions
    ensures kind == Error && !ContainsIgnoreCase(line, MiningOn)
            && !ContainsIgnoreCase(line, Failed) && !Contains(line, Frown) ==>
      && r.out.line == Some(line) && r.out.view == view
      && (Contains(line, Accepted) ==>
            r.out.foreground == Some(Green) && r.processor.state == p.state.(solutionFound := false))
      && (!Contains(line, Accepted) && ContainsIgnoreCase(line, SolutionFound) ==>
            r.out.foreground == Some(DarkGreen) && r.processor.state == p.state.(solutionFound := true))
      && (!Contains(line, Accepted) && !ContainsIgnoreCase(line, SolutionFound) ==>
            && r.out.foreground == Some(if p.state.solutionFound then DarkGreen else DarkGray)
            && r.processor == p)
    // standard output
    ensures kind == Output ==> r.processor == p && r.out.view == view
    ensures kind == Output && !ContainsIgnoreCase(line, DonationMarker) ==>
      r.out.line == Some(line) && r.out.foreground == Some(p.initialForeground)
    ensures kind == Output && ContainsIgnoreCase(line, DonationMarker) ==>
      r.out.line == Some(DonationText) && r.out.foreground.None?
  {
    var m := p.state;
    if kind == Error then
      if ContainsIgnoreCase(line, MiningOn) then
        var m1 := m.(solutionFound := false);
        var h := ReportedHashrate(line, parse);
        if h == 0.0 then
          MiningStep(LineResult(None, Some(DarkGray), None, view), p.(state := m1))
        else
          MiningStep(LineResult(Some(line), Some(DarkGray), None, view), p.(state := SetHashrate(m1, h)))
      else if ContainsIgnoreCase(line, Failed) || Contains(line, Frown) then
        var m1 := m.(solutionFound := false);
        var v :=
          if ContainsIgnoreCase(line, ReadResponseFailed) then
            var count := view.readResponseFailed + 1;
            if count >= ReadFailureLimit then view.(hasErrored := true, readResponseFailed := 0)
            else view.(readResponseFailed := count)
          else view.(hasErrored := true);
        MiningStep(LineResult(Some(line), Some(Red), None, v), p.(state := m1))
      else if Contains(line, Accepted) then
        MiningStep(LineResult(Some(line), Some(Green), None, view), p.(state := m.(solutionFound := false)))
      else if ContainsIgnoreCase(line, SolutionFound) then
        MiningStep(LineResult(Some(line), Some(DarkGreen), None, view), p.(state := m.(solutionFound := true)))
      else
        MiningStep(LineResult(Some(line), Some(if m.solutionFound then DarkGreen else DarkGray), None, view), p)
    else if kind == Output then
      if ContainsIgnoreCase(line, DonationMarker) then
        MiningStep(LineResult(Some(DonationText), None, None, view), p)
      else
        MiningStep(LineResult(Some(line), Some(p.initialForeground), None, view), p)
    else
      MiningStep(LineResult(Some(line), None, None, view), p)
  }

  // ---------------------------------------------------------------------------
  // Properties

  /** The read-failure counter stays in 0..2: it is bumped by one and wraps to 0 (raising
      the error flag) when it reaches three. */
  lemma CounterStaysBelowLimit(p: MiningProcessor, view: ProcessView, kind: LineType, line: string, parse: DecimalParser)
    requires Valid(p.state) && 0 <= view.readResponseFailed < ReadFailureLimit
    ensures 0 <= ProcessLine(p, view, kind, line, parse).out.view.readResponseFailed < ReadFailureLimit
  {
  }

  /** "Read response failed: End of file" contains "failed", so such a line (unless it is
      a hashrate report) is always classified as a failure and reaches the counter. */
  lemma ReadFailureIsFailure(line: string)
    requires ContainsIgnoreCase(line, ReadResponseFailed)
    ensures ContainsIgnoreCase(line, Failed)
  {
    var f := Fold(ReadResponseFailed);
    assert f[14..18] == Fold(Failed) by {
      assert Fold(Failed) == "fail";
      assert ReadResponseFailed[14] == 'f' && ReadResponseFailed[15] == 'a';
      assert ReadResponseFailed[16] == 'i' && ReadResponseFailed[17] == 'l';
      assert ReadResponseFailed[14..18] == "fail";
      FoldSlice(ReadResponseFailed, 14, 18);
    }
    assert OccursAt(f, Fold(Failed), 14);
    ContainsIgnoreCaseTransitive(line, ReadResponseFailed, Failed);
  }

  /** Three read failures in a row, from a zero counter and no error: the first two only
      count, the third raises the error flag and resets the counter. */
  lemma ThirdReadFailureRaisesError(p: MiningProcessor, view: ProcessView, line: string, parse: DecimalParser)
    requires Valid(p.state) && view.readResponseFailed == 0 && !view.hasErrored
    requires ContainsIgnoreCase(line, ReadResponseFailed) && !ContainsIgnoreCase(line, MiningOn)
    ensures
      var s1 := ProcessLine(p, view, Error, line, parse);
      var s2 := ProcessLine(s1.processor, s1.out.view, Error, line, parse);
      var s3 := ProcessLine(s2.processor, s2.out.view, Error, line, parse);
      && !s1.out.view.hasErrored && s1.out.view.readResponseFailed == 1
      && !s2.out.view.hasErrored && s2.out.view.readResponseFailed == 2
      && s3.out.view.hasErrored && s3.out.view.readResponseFailed == 0
  {
    ReadFailureIsFailure(line);
  }

  /** A zero hashrate is never recorded: processing keeps a history without zeros free of them. */
  lemma NeverRecordsZero(p: MiningProcessor, view: ProcessView, kind: LineType, line: string, parse: DecimalParser)
    requires Valid(p.state) && NoZeroSamples(p.state)
    ensures NoZeroSamples(ProcessLine(p, view, kind, line, parse).processor.state)
  {
    var r := ProcessLine(p, view, kind, line, parse);
    var h := ReportedHashrate(line, parse);
    if kind == Error && ContainsIgnoreCase(line, MiningOn) && h != 0.0 {
      var m1 := p.state.(solutionFound := false);
      assert r.processor.state == SetHashrate(m1, h);
      SetHashrateKeepsNonZero(m1, h);
    }
  }
}
