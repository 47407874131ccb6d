/** The domain records that the modules below share (packages/shared/src/types.ts). */
module Types {

  datatype Option<+T> = None | Some(value: T)

  datatype Result<+T, +E> = Ok(value: T) | Err(error: E)

  /** Task definition ids and task state ids. */
  type Id = string

  /** `Unknown` is any other value that a stored policy may hold. */
  datatype Strategy = Fixed | Exponential | Linear | Unknown(text: string)

  datatype RetryPolicy = RetryPolicy(strategy: Strategy, maxAttempts: real, baseDelay: real)

  /** `kind` is the source's field `type`; the free-form `config` is not modelled. */
  datatype TaskDefinition = TaskDefinition(
    id: Id, workflowId: string, name: string, kind: string, timeoutMs: int, retryPolicy: Option<RetryPolicy>)

  datatype Edge = Edge(id: string, workflowId: string, source: Id, target: Id, conditionExpr: Option<string>)

  datatype Status = Pending | Running | Completed | Failed | Cancelled | TimedOut | Skipped

  function Ids(tasks: seq<TaskDefinition>): seq<Id> {
    seq(|tasks|, i requires 0 <= i < |tasks| => tasks[i].id)
  }
}
