/** `DefaultProcessor`: the pass-through line processor. */
module DefaultProcessors {
  import opened Wrappers
  import opened LineProcessor

  /** Hands every line back unchanged, with no colours, whatever stream it came from,
      and leaves the process state alone. */
  function ProcessLine(view: ProcessView, kind: LineType, line: string): (r: LineResult)
    ensures r.line == Some(line)
    ensures r.foreground.None? && r.background.None?
    ensures r.view == view
  {
    LineResult(Some(line), None, None, view)
  }

  /** The result does not depend on the kind of line. */
  lemma IgnoresLineType(view: ProcessView, a: LineType, b: LineType, line: string)
    ensures ProcessLine(view, a, line) == ProcessLine(view, b, line)
  {
  }
}
