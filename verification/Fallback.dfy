// Direct extraction by the model (crawloop/fallback.py): the oracle of the loop and the
// engine's immediate answer, with a bounded repair budget.
module Fallback {
  import opened Wrappers
  import opened Values
  import opened Validator
  import opened Validation
  import opened Llm

  datatype Extraction = Extracted(items: seq<Record>) | ExtractionFailed | ModelRaised

  type ItemParser = string -> Option<seq<Record>>

  /** The answer parses into rows that validate. */
  predicate Usable(answer: Completion, parse: ItemParser, sc: Schema) {
    answer.Answer? && parse(answer.text).Some? && Accepted(parse(answer.text).value, sc)
  }

  /** The extraction `tries` answers from number `from` on give, and the number of the next one. */
  function FirstUsable(answers: nat -> Completion, from: nat, tries: nat, parse: ItemParser, sc: Schema): (Extraction, nat)
    decreases tries
  {
    if tries == 0 then (ExtractionFailed, from)
    else if answers(from).ProviderError? then (ModelRaised, from + 1)
    else if Usable(answers(from), parse, sc) then (Extracted(parse(answers(from).text).value), from + 1)
    else FirstUsable(answers, from + 1, tries - 1, parse, sc)
  }

  /** The rows come from the first usable answer, which is the last one asked for; a provider
      error ends the attempts, and giving up takes the whole budget. */
  lemma {:induction false} FirstUsableIsFirst(
    answers: nat -> Completion, from: nat, tries: nat, parse: ItemParser, sc: Schema)
    ensures var (r, next) := FirstUsable(answers, from, tries, parse, sc);
      && from <= next <= from + tries && (tries > 0 ==> from < next)
      && (forall k :: from <= k < next - 1 ==> answers(k).Answer? && !Usable(answers(k), parse, sc))
      && (r.ExtractionFailed? ==> next == from + tries)
      && (r.Extracted? <==> next > from && Usable(answers(next - 1), parse, sc))
      && (r.Extracted? ==> parse(answers(next - 1).text) == Some(r.items))
      && (r.ModelRaised? <==> next > from && answers(next - 1).ProviderError?)
    decreases tries
  {
    if tries > 0 && answers(from).Answer? && !Usable(answers(from), parse, sc) {
      FirstUsableIsFirst(answers, from + 1, tries - 1, parse, sc);
    }
  }

  /** `direct_extract`: one attempt and at most `maxRepairs` repairs. */
  method DirectExtract(c: Completer, sc: Schema, parse: ItemParser, maxRepairs: nat) returns (r: Extraction)
    modifies c
    ensures (r, c.calls) == FirstUsable(c.answers, old(c.calls), 1 + maxRepairs, parse, sc)
    ensures old(c.calls) < c.calls <= old(c.calls) + 1 + maxRepairs
  {
    ghost var start := c.calls;
    for attempt := 0 to maxRepairs + 1
      invariant c.calls == start + attempt
      invariant FirstUsable(c.answers, start, 1 + maxRepairs, parse, sc)
        == FirstUsable(c.answers, c.calls, 1 + maxRepairs - attempt, parse, sc)
    {
      var raw := c.Complete();
      if raw.ProviderError? {
        return ModelRaised;
      }
      var items := parse(raw.text);
      if items.Some? {
        var report := Validate(items.value, sc, None, MIN_FILL, MIN_COUNT_RATIO);
        if report.ok {
          return Extracted(items.value);
        }
      }
    }
    r := ExtractionFailed;
  }
}
