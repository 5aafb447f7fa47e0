/** `classify_failure` (recovery/classifier.py). */
module Classifier {
  import opened Nodes
  import opened Text
  import opened Wrappers

  const CRITICAL_PHRASES := ["permission denied", "access denied", "security", "oom", "out of memory",
                             "memory limit", "killed", "sigkill"]
  const TRANSIENT_PHRASES := ["timeout", "timed out", "rate limit", "rate_limit", "too many requests",
                              "connection refused", "connection reset", "temporary", "unavailable",
                              "503", "502", "504"]
  const PERSISTENT_PHRASES := ["invalid", "validation", "authentication", "unauthorized", "forbidden",
                               "not found", "no such file", "syntax error", "typeerror", "valueerror",
                               "keyerror", "no implementation registered"]
  const SYSTEMIC_PHRASES := ["constraint", "unsatisfiable", "inapplicable", "deadlock", "cycle"]

  /** `error or fallback`: an absent or empty message gives way. */
  function MessageOr(error: Option<string>, fallback: string): string
  {
    if error.Some? && error.value != "" then error.value else fallback
  }

  /** `classify_failure`. */
  function ClassifyFailure(error: Option<string>, retryCount: nat, upgradeThreshold: int): (c: FailureClass)
    ensures c.retryable <==> c.kind == Transient
    ensures var text := Lower(if error.Some? then error.value else "");
            && (c.kind == Critical <==> ContainsAny(text, CRITICAL_PHRASES))
            && (c.kind == Transient <==>
                  && retryCount < upgradeThreshold
                  && !ContainsAny(text, CRITICAL_PHRASES) && ContainsAny(text, TRANSIENT_PHRASES))
            && (c.kind == Systemic <==>
                  && retryCount < upgradeThreshold
                  && !ContainsAny(text, CRITICAL_PHRASES) && !ContainsAny(text, TRANSIENT_PHRASES)
                  && !ContainsAny(text, PERSISTENT_PHRASES) && ContainsAny(text, SYSTEMIC_PHRASES))
    ensures c.message != "" && (error.Some? && error.value != "" ==> c.message == error.value)
  {
    var text := Lower(if error.Some? then error.value else "");
    if ContainsAny(text, CRITICAL_PHRASES) then
      FailureClass(Critical, MessageOr(error, "Critical failure"), false)
    else if retryCount >= upgradeThreshold then
      FailureClass(Persistent, MessageOr(error, "Failed after " + Decimal(retryCount) + " retries"), false)
    else if ContainsAny(text, TRANSIENT_PHRASES) then
      FailureClass(Transient, MessageOr(error, "Transient failure"), true)
    else if ContainsAny(text, PERSISTENT_PHRASES) then
      FailureClass(Persistent, MessageOr(error, "Persistent failure"), false)
    else if ContainsAny(text, SYSTEMIC_PHRASES) then
      FailureClass(Systemic, MessageOr(error, "Systemic failure"), false)
    else
      FailureClass(Persistent, MessageOr(error, "Unclassified failure"), false)
  }
}
