/** Submission status ids and what the sandbox's outcome is mapped to. */
module Statuses {
  const IN_QUEUE := 1
  const PROCESSING := 2
  const ACCEPTED := 3
  const WRONG_ANSWER := 4
  const TIME_LIMIT_EXCEEDED := 5
  const COMPILATION_ERROR := 6
  const RUNTIME_ERROR := 7
  const INTERNAL_ERROR := 8

  predicate IsTerminal(status: int) {
    status >= ACCEPTED
  }

  /** What the sandbox hands back, as far as the status mapping looks at it. */
  datatype ExecutionResult = ExecutionResult(status: int, exitCode: int, stdout: string)

  /** The longest prefix that does not end in white space. */
  function TrimRight(s: string): (r: string)
    ensures r <= s && forall k :: |r| <= k < |s| ==> s[k] in "\n\r "
    ensures r != [] ==> r[|r| - 1] !in "\n\r "
  {
    if s != [] && s[|s| - 1] in "\n\r " then TrimRight(s[..|s| - 1]) else s
  }

  function MapSandboxStatus(res: ExecutionResult, expectedOutput: string): (status: int)
    ensures status in {3, 4, 5, 6, 7, 8}
    ensures status == 3 <==>
              && res.status !in {5, 6, 7, 8} && res.exitCode == 0
              && (expectedOutput == "" || TrimRight(res.stdout) == TrimRight(expectedOutput))
    ensures status == 4 <==>
              && res.status !in {5, 6, 7, 8} && res.exitCode == 0
              && expectedOutput != "" && TrimRight(res.stdout) != TrimRight(expectedOutput)
    ensures status == 7 <==> res.status == 7 || (res.status !in {5, 6, 8} && res.exitCode != 0)
    ensures status in {5, 6, 8} || res.status in {5, 6, 8} ==> status == res.status
  {
    if res.status in {TIME_LIMIT_EXCEEDED, COMPILATION_ERROR, RUNTIME_ERROR, INTERNAL_ERROR} then res.status
    else if res.exitCode != 0 then RUNTIME_ERROR
    else if expectedOutput != "" && TrimRight(res.stdout) != TrimRight(expectedOutput) then WRONG_ANSWER
    else ACCEPTED
  }
}
