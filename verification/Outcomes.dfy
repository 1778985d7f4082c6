/** How measuring a mutant can end. */
module Outcomes {
  datatype Outcome = Killed | Survived | TimedOut | Errored | Inconclusive | NotRun
}
