// What a request is answered with (crawloop/engine.py), as a function of what it met: the ladder
// walk, the page, the model's extraction, recovery, the retries and the regeneration loop.
module Answers {
  import opened Wrappers
  import opened Values
  import opened Failures
  import opened Fallback
  import opened Ladder
  import Executor
  import AccessRecovery
  import opened FetchContext
  import Driver

  datatype Origin = FromRegistry | FromFallback | FromRecovery | FromBootstrap

  datatype Reason =
    | Ok
    | DriftFallback
    | DriftFallbackFailed
    | DriftRefetchFailed
    | RecoveredAccess
    | RecoveredRetryFailed
    | BlockedEscalated
    | TransientGaveUp
    | PageGone
    | NewFamily
    | NewFamilyFallbackFailed
    | BootstrapFetchFailed

  datatype RequestResult = RequestResult(
    items: seq<Record>, origin: Origin, family: string, usedVersion: Option<int>,
    loop: Option<Driver.LoopResult>, strategy: Option<string>, reason: Reason, hybridFilled: bool)

  /** A request is answered, or an exception leaves the engine. */
  datatype Outcome = Answered(r: RequestResult) | Escaped(failure: Failure)

  function Plain(items: seq<Record>, origin: Origin, family: string, reason: Reason): RequestResult {
    RequestResult(items, origin, family, None, None, None, reason, false)
  }

  /** Which way a request went. */
  datatype Route = Refused | Direct | GoneAway | BlockedAway | Retried | Drifted | Bootstrapped

  /** What the hybrid did with the rows a rung served. */
  datatype Fill = Kept | Filled(items: seq<Record>, fields: set<string>) | FillEscaped(failure: Failure)

  /** An inline regeneration loop: its seeds and audit length when it started, and what it did. */
  datatype LoopRun = LoopRun(
    seeds: seq<string>, audits: nat, tiers: seq<Driver.Tier>, before: Driver.State, after: Driver.State,
    r: Driver.LoopOutcome)

  /** What a request for a known family may meet: the ladder walk, the walk of a retry after
      recovery, what the bounded retries come to, the engine's own page fetch, the hybrid's work,
      recovery, the model's extraction, and an inline loop. */
  datatype Facts = Facts(
    run: Executor.FamilyRun, again: Executor.FamilyRun, retries: Outcome, page: PageFetch, fill: Fill,
    rec: AccessRecovery.Recovery, got: Extraction, loop: Option<LoopRun>)

  /** What a walk that does not serve failed with. */
  function FailureOf(run: Executor.FamilyRun): Failure {
    if run.RunRaised? then run.failure else AllVersionsFailed
  }

  /** A failed ladder whose page cannot be re-fetched because of a block is an access problem. */
  function DriftRoute(page: PageFetch): Route {
    if page.NotFetched? && page.failure.FetchBlocked? then BlockedAway else Drifted
  }

  /** The way a known family's request goes, from its ladder walk and its first own page fetch. */
  function RouteOf(run: Executor.FamilyRun, page: PageFetch): Route {
    if run.Served? then Direct
    else match Classify(FailureOf(run))
      case None => Refused
      case Some(Drift) => DriftRoute(page)
      case Some(Blocked) => BlockedAway
      case Some(Transient) => Retried
      case Some(Gone) => GoneAway
  }

  /** A serving rung's rows, with the tail filled in where the hybrid ran. */
  function DirectAnswer(run: Executor.FamilyRun, fill: Fill, family: string): Outcome
    requires run.Served?
  {
    match fill
    case FillEscaped(failure) => Escaped(failure)
    case Kept =>
      Answered(RequestResult(run.items, FromRegistry, family, Some(run.version), None, None, Ok, false))
    case Filled(items, _) =>
      Answered(RequestResult(items, FromRegistry, family, Some(run.version), None, None, Ok, true))
  }

  /** From how recovery ended and the one retry after it. */
  function BlockedAnswer(rec: AccessRecovery.Recovery, again: Executor.FamilyRun, family: string): Outcome {
    match rec
    case RecoveryRaised(failure) => Escaped(failure)
    case Returned(r) =>
      if !r.ok then Answered(Plain([], FromRecovery, family, BlockedEscalated).(strategy := r.strategy))
      else if again == Executor.RunRaised(UnauthorizedDomain) then Escaped(UnauthorizedDomain)
      else if !again.Served? then
        Answered(Plain([], FromRecovery, family, RecoveredRetryFailed).(strategy := r.strategy))
      else Answered(RequestResult(
        again.items, FromRecovery, family, Some(again.version), None, r.strategy, RecoveredAccess, false))
  }

  /** The rows extracted, the reason and the inline loop's result; or the error the loop raised. */
  function AnswerWith(
    got: Extraction, ran: Option<Driver.LoopOutcome>, origin: Origin, family: string, fine: Reason, failed: Reason): Outcome
  {
    match ran
    case Some(LoopRaised(failure)) => Escaped(failure)
    case Some(Returned(result)) => Answered(ExtractionResult(got, Some(result), origin, family, fine, failed))
    case None => Answered(ExtractionResult(got, None, origin, family, fine, failed))
  }

  function ExtractionResult(
    got: Extraction, loop: Option<Driver.LoopResult>, origin: Origin, family: string, fine: Reason, failed: Reason): RequestResult
  {
    match got
    case Extracted(items) => RequestResult(items, origin, family, None, loop, None, fine, false)
    case _ => RequestResult([], origin, family, None, loop, None, failed, false)
  }

  /** From the model's extraction and the loop it set off, if that ran inline. */
  function ModelAnswer(
    got: Extraction, loop: Option<LoopRun>, origin: Origin, family: string, fine: Reason, failed: Reason): Outcome
  {
    if got.ModelRaised? then Escaped(ProviderFailure)
    else AnswerWith(got, Ran(loop), origin, family, fine, failed)
  }

  function Ran(loop: Option<LoopRun>): Option<Driver.LoopOutcome> {
    match loop
    case None => None
    case Some(l) => Some(l.r)
  }

  function DriftAnswer(page: PageFetch, got: Extraction, loop: Option<LoopRun>, family: string): Outcome {
    match page
    case Html(_) => ModelAnswer(got, loop, FromFallback, family, DriftFallback, DriftFallbackFailed)
    case NotFetched(failure) =>
      if GivenUp(failure) then Answered(Plain([], FromFallback, family, DriftRefetchFailed)) else Escaped(failure)
  }

  /** The answer to a request for a known family. */
  function KnownAnswer(facts: Facts, family: string): Outcome {
    match RouteOf(facts.run, facts.page)
    case Refused => Escaped(UnauthorizedDomain)
    case Direct => DirectAnswer(facts.run, facts.fill, family)
    case GoneAway => Answered(Plain([], FromRegistry, family, PageGone))
    case BlockedAway => BlockedAnswer(facts.rec, facts.again, family)
    case Retried => facts.retries
    case Drifted => DriftAnswer(facts.page, facts.got, facts.loop, family)
    case Bootstrapped => Escaped(OtherError)
  }

  /** The answer to a request for an unknown family. */
  function NewFamilyAnswer(
    schemaRef: Option<string>, page: PageFetch, got: Extraction, loop: Option<LoopRun>, family: string): Outcome
  {
    if schemaRef.None? then Escaped(MissingSchema)
    else match page
      case Html(_) => ModelAnswer(got, loop, FromBootstrap, family, NewFamily, NewFamilyFallbackFailed)
      case NotFetched(failure) =>
        if GivenUp(failure) then Answered(Plain([], FromBootstrap, family, BootstrapFetchFailed)) else Escaped(failure)
  }

  /** For a request with a known family or a schema, the documentation lets only the policy stop out. */
  predicate Undocumented(o: Outcome) {
    o.Escaped? && o.failure != UnauthorizedDomain
  }

  /** The loop raised something else. */
  predicate RaisedOddly(loop: Option<LoopRun>) {
    loop.Some? && loop.value.r.LoopRaised? && loop.value.r.failure != UnauthorizedDomain
  }
}
