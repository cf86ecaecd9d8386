/**
 * The little of the doctor framework that the formula and configuration
 * checks rely on: the result a check reports and its status. The framework
 * itself (`CheckContext`, `BaseCheck`, `FixableCheck`, the runner) is not
 * part of this model; a check's context is reduced to the town root it is
 * given.
 */
module Checks {
  import opened Text

  /** `StatusOK`, `StatusWarning`, `StatusError`. */
  datatype Status = StatusOK | StatusWarning | StatusError

  /** `CheckResult`: the check's name, its status, a one-line message, detail lines and a hint on how to fix. */
  datatype CheckResult = CheckResult(name: String, status: Status, message: String, details: seq<String>, fixHint: String)
}
