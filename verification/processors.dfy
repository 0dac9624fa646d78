/** The line processor the supervisor was configured with. The host chooses one of the
    two implementations at start-up and keeps it (with its private state) for the whole
    run, across restarts of the child. */
module Processors {
  import opened LineProcessor
  import DefaultProcessors
  import MiningProcessors
  import MiningStates

  datatype Processor =
    | Default
    | Mining(mining: MiningProcessors.MiningProcessor)

  predicate Valid(p: Processor) {
    p.Mining? ==> MiningStates.Valid(p.mining.state)
  }

  /** A processed line and the processor's state after processing it. */
  datatype Processed = Processed(out: LineResult, processor: Processor)

  /** `ILineProcessor.ProcessLine`, dispatched to the configured implementation. Whichever
      it is, the call honours the contract (history untouched, the error flag only ever
      raised), never asks for a background colour, keeps the read-failure counter in its
      range, and leaves the implementation in place. */
  function ProcessLine(p: Processor, view: ProcessView, kind: LineType, line: string,
                       parse: MiningProcessors.DecimalParser): (r: Processed)
    requires Valid(p)
    ensures Valid(r.processor) && r.processor.Default? == p.Default?
    ensures HonoursContract(view, r.out.view)
    ensures r.out.background.None?
    ensures 0 <= view.readResponseFailed < MiningProcessors.ReadFailureLimit ==>
      0 <= r.out.view.readResponseFailed < MiningProcessors.ReadFailureLimit
  {
    match p
    case Default => Processed(DefaultProcessors.ProcessLine(view, kind, line), p)
    case Mining(m) =>
      var s := MiningProcessors.ProcessLine(m, view, kind, line, parse);
      Processed(s.out, Mining(s.processor))
  }
}
