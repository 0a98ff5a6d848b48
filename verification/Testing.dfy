/** What the conformance tests have in common. */
module Testing {
  import opened V2g

  datatype Outcome = PreconditionsNotMet | PassCriteriaNotMet | PassCriteriaMet

  /** A test notes the time of a response only if these events let the connection send it. */
  predicate Answers(e: V2gEvent) {
    e == NoEvent || e == SendAndTerminate
  }
}
