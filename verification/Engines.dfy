/** What a verification engine concludes. */
module Engines {
  datatype EngineResult =
    | Verified
    | NotVerified
    | Unverifiable
    | HeuristicPass
}
