/** The node contract (nodes/base.py, types.py): what executing a node returns. */
module Nodes {
  import opened JsonValues
  import opened Wrappers

  datatype Status = Completed | Failed | TimedOut

  datatype FailureKind = Transient | Persistent | Systemic | Critical

  datatype FailureClass = FailureClass(kind: FailureKind, message: string, retryable: bool)

  type Values = map<string, Json>

  datatype NodeOutput = NodeOutput(
    outputs: Values, quality: Values, status: Status, error: Option<string>, failureClass: Option<FailureClass>)

  /** A node either returns an output or raises an exception. */
  datatype Reply = Returned(output: NodeOutput) | Raised(message: string)

  /** A node implementation: a deterministic function of its inputs and the attempt number. */
  type NodeImpl = (Values, nat) -> Reply
}
