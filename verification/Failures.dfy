// The failures that travel between the access layer, the executor and the engine
// (crawloop/access.py, crawloop/config.py) and their classes (crawloop/loop/trigger.py).
module Failures {
  import opened Wrappers

  datatype Marker = Rate | Auth | Challenge

  datatype Failure =
    | UnauthorizedDomain
    | FetchBlocked(marker: Marker)
    | FetchError(status: Option<int>)
    | AllVersionsFailed
    /** The engine's own usage error: an unknown family without a schema. */
    | MissingSchema
    /** A model provider's error. */
    | ProviderFailure
    /** A configured strategy that cannot be built. */
    | BuildFailure
    /** A host configured without any strategy. */
    | NoStrategy
    /** Captcha solving without an operator's authorization. */
    | CaptchaNotEnabled
    /** Source the registry's gate refuses. */
    | GateRefusal
    | OtherError

  datatype FailureClass = Transient | Drift | Blocked | Gone

  /** `classify` on exceptions; `None` stands for re-raising the policy stop. */
  function Classify(f: Failure): Option<FailureClass> {
    match f
    case UnauthorizedDomain => None
    case FetchBlocked(_) => Some(Blocked)
    case FetchError(status) => if status == Some(404) || status == Some(410) then Some(Gone) else Some(Transient)
    case AllVersionsFailed => Some(Drift)
    case _ => Some(Transient)
  }
}
