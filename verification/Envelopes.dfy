/** The enumerations of a message envelope. */
module Envelopes {

  datatype Domain = FM | PM | LOG {
    function Text(): string {
      match this
      case FM => "FM"
      case PM => "PM"
      case LOG => "LOG"
    }
  }

  datatype Severity = CRITICAL | MAJOR | MINOR | WARNING | CLEARED {
    function Text(): string {
      match this
      case CRITICAL => "CRITICAL"
      case MAJOR => "MAJOR"
      case MINOR => "MINOR"
      case WARNING => "WARNING"
      case CLEARED => "CLEARED"
    }
  }
}
