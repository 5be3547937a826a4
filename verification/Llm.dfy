// The language model as a counted oracle (crawloop/llm.py): any sequence of answers,
// one per call, where an answer may also be a provider error.
module Llm {
  import opened Wrappers

  datatype Completion = Answer(text: string) | ProviderError

  class Completer {
    const answers: nat -> Completion
    var calls: nat

    constructor (answers: nat -> Completion)
      ensures this.answers == answers && calls == 0
    {
      this.answers := answers;
      calls := 0;
    }

    /** One completion: the next answer, and the count moves by exactly one. */
    method Complete() returns (r: Completion)
      modifies this
      ensures calls == old(calls) + 1 && r == answers(old(calls))
    {
      r := answers(calls);
      calls := calls + 1;
    }
  }

  /** `escalation_model`: the stronger model to retry with, if any. */
  function EscalationModel(model: string): Option<string> {
    if model == "openai/gpt-4o-mini" then Some("openai/gpt-4o")
    else if model == "anthropic/claude-haiku-4-5" then Some("anthropic/claude-fable-5")
    else None
  }
}
