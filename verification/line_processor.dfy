/** The contract between the supervisor and a pluggable line processor (`ILineProcessor`):
    the kind of line, the slice of process state a processor may see and change
    (`IProcessState` plus the read-failure counter the mining processor keeps there),
    and the shape of a processed line. */
module LineProcessor {
  import opened Wrappers
  import opened Buffer
  import opened ConsoleWriter

  /** `LineType`: the stream a line came from (`Output` for stdout, `Error` for stderr). */
  datatype LineType = Undefined | Input | Output | Error

  /** The process state as a processor sees it: the error flag it may raise, the output
      history it may read (`LastLine`), and the count of "read response failed" lines. */
  datatype ProcessView = ProcessView(hasErrored: bool, lastLines: Ring<string>, readResponseFailed: int)

  /** What `ProcessLine` hands back: the line to show (none to suppress it), its optional
      colours, and the process state after the call. */
  datatype LineResult = LineResult(line: Option<string>, foreground: Option<Color>, background: Option<Color>, view: ProcessView)

  /** The side effects a processor is allowed: it reads the output history without
      changing it, and it may raise `HasErrored` but never clear it. */
  predicate HonoursContract(before: ProcessView, after: ProcessView) {
    && after.lastLines == before.lastLines
    && (before.hasErrored ==> after.hasErrored)
  }
}
