/** Alert severities and their rank, shared by incidents and the topology graph. */
module Severities {
  // The severity labels that are ranked; any other label ranks lowest.
  datatype Severity = Info | Warning | Critical | Fatal | Other(name: string)

  function SeverityRank(s: Severity): nat {
    match s
    case Info => 1
    case Warning => 2
    case Critical => 3
    case Fatal => 4
    case Other(_) => 0
  }
}
