/** The result of the remote `executeCode(language, code)` call, which is not part
    of this model: either a response record whose `run` field may carry `output`
    and `stderr` strings, or a rejection with an error message. Both the editor and
    the output console read it; they differ in how. */
module Execution {
  import opened Wrappers

  datatype RunRecord = RunRecord(output: Option<string>, stderr: Option<string>)

  /** `await executeCode(...)`: resolves with `{run?: {output?, stderr?}}`, or throws. */
  datatype ExecOutcome = Resolved(run: Option<RunRecord>) | Rejected(message: string)

  /** JavaScript truthiness of an optional string: present and non-empty. */
  predicate Truthy(x: Option<string>) {
    x.Some? && x.value != ""
  }

  /** `x || fallback` for a string that may be `undefined`. */
  function OrElse(x: Option<string>, fallback: string): (r: string)
    ensures Truthy(x) ==> r == x.value
    ensures !Truthy(x) ==> r == fallback
  {
    if Truthy(x) then x.value else fallback
  }

  /** `result.run?.output`. */
  function RunOutput(run: Option<RunRecord>): Option<string> {
    match run
    case None => None
    case Some(r) => r.output
  }

  /** `result.run?.stderr`. */
  function RunStderr(run: Option<RunRecord>): Option<string> {
    match run
    case None => None
    case Some(r) => r.stderr
  }
}
