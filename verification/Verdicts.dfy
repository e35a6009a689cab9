/** The possible outcomes of verification and their wire values. */
module Verdicts {
  import opened Options

  datatype VerdictStatus = VERIFIED | BLOCKED | UNVERIFIABLE | HEURISTIC_PASS | ERROR

  const ADMISSIBLE_VERDICTS: set<VerdictStatus> := {VERIFIED}

  function WireValue(v: VerdictStatus): string {
    match v
    case VERIFIED => "verified"
    case BLOCKED => "blocked"
    case UNVERIFIABLE => "unverifiable"
    case HEURISTIC_PASS => "heuristic_pass"
    case ERROR => "error"
  }

  /** Reads a wire value; "forwarded" is what older issuers wrote for VERIFIED. */
  function Parse(text: string): Option<VerdictStatus> {
    if text == "verified" || text == "forwarded" then Some(VERIFIED)
    else if text == "blocked" then Some(BLOCKED)
    else if text == "unverifiable" then Some(UNVERIFIABLE)
    else if text == "heuristic_pass" then Some(HEURISTIC_PASS)
    else if text == "error" then Some(ERROR)
    else None
  }
}
