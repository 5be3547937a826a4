# Crawloop: when is a generated crawler good enough to run unattended?

Crawloop lets a model write extraction code and then runs that code without it. This project
models the chain of decisions in between and proves what the chain guarantees. The four parts
compose:

* **Promotion.** Rows are aligned, compared field by field, reduced to a worst row and held
  against 0.98; fixtures are held against 1.0. In whole fields: a pass is exactly "every row
  pair misses at most F/50 of F fields, every fixture agrees on all". So with at most 49 fields
  a promoted winner leaves nothing residual, no registry that promotions, activations and
  rollbacks can reach has a residual set, and a request served from the ladder makes no model
  call. From 50 fields on a concrete candidate breaks each of these.
* **Synthesis.** Value-path discovery is sound, complete, least and independent of key order;
  the emitted reader reproduces what was discovered; the interpreter emitted for a field map
  computes what the reference interpreter computes, on malformed input too.
* **State machines.** The version ladder under any run of its operations, the walk down it,
  the two-tier regeneration loop as a function of the pages sampled and the answers given, and
  the scheduling of background loops under every interleaving.
* **Search and access.** The sample search is exact breadth-first search within its budget;
  under every interleaving of coroutines each GET goes out right after its own URL passed the
  allowlist and its host's limiter, and GETs to one host keep their distance; recovery walks its
  ladder in order, for whole rounds; a request's answer is a function of what it met, and which
  errors leave it is settled by the configuration, the network's redirects and the model's answers.

## How it is modelled

One module per source file, plus `Values`, `PyText`, `Sorting` and `Averages` for the Python
they rely on, `Ladder`, `LoopCourse`, `Answers` and `Failures` for specifications shared by
several files, `Positions` for first occurrences in lists, and `RowOrder`, `OwnFixtures`,
`ArchivedRungs`, `ValuePathPromotion`, `SpecMeaning`, `TierEnds`, `GuardedGets`, `GetSpacing`,
`GetOutcomes`, `LetThrough`, `RecoveryEnds`, `FetchContext`, `AnsweredRows` and `EscapeWitnesses` for
results that span them or stand on their own. What the source
computes with expressions is a function; what it does in loops or by updating objects is a
method, proved equal to a specification function or to a full description of the new state. The
laws are lemmas about those functions.

* Floats are reals, and carry the text `str` gives them. NaN and infinities are not values.
* A model is an arbitrary sequence of answers, one per call, some of them provider errors. The
  network and a crawled site are arbitrary answers that may differ at each moment; the engine's own
  page fetches and recovery draw on one network, through one client. In the sample search fetching is a function of the URL.
* Code this project cannot see is a function parameter: the sandbox run, the parsers of model
  answers, the candidate emitters, routing, link extraction, URL joining and hosts, browser
  rendering, the registry's source gate, parsing a float and printing one.
* Exceptions are constructors of result types. A `requires` is used only where the source's
  callers guarantee it (distinct schema fields, a non-negative budget, a known family).

## Where the code and its documentation differ

The model follows the code.

* A flag is said to be compared by exact identity (crawloop/validator.py:203), but `==` makes
  `True` equal 1. `FieldEqualIsReading` states the exact relation, and `StableEquivalence` exactly
  which chains of agreements compose.
* `read_path` says it never raises (crawloop/loop/jsonpath.py:87-110). `ReaderRaisesExactly` says
  when it does on one document, and `SafeOnEveryDocument` which paths are safe on all of them.
* The volatile comparison divides by its first argument only; `VolatileSymmetry` says exactly when
  the two directions agree.
* A null leaf matches the oracle text "None", and the emitted reader then omits the field
  (`NullMatchesNoneText`); `ReproducesTexts` states exactly when it comes back.
* Alignment is said to line up logical rows whatever their order. `OrderShowsExactly`: no oracle
  sees the order exactly when rows that share a key cannot be told apart by any comparison.
* An archived version is said not to be tried at runtime (crawloop/migrations.sql:20).
  `ArchivedServes` is a run in which it serves; `ArchivedTriedOnce` says when one walk tries one,
  and `ArchivedNeverTried` that only a family without archived rows never does.
* A request is said to let only the policy stop and a missing schema through
  (crawloop/engine.py:198-201, and for a failed re-fetch crawloop/engine.py:257-259).
  `RedirectCycleEscapes` and `UnbuildableRungEscapes` are requests that let something else through.
  `Request` states exactly when one does, from the state it starts in: a host without a usable
  fast strategy, a rung that cannot be built or that runs into the redirect limit while recovering,
  the provider's error, or the last tier of an inline loop; on the retried and the gone way never.
* Golden fixtures are replayed at the sandbox's own URL. A promoted source stays promotable against
  the fixtures its promotion leaves exactly when it replays its samples there on every field
  (`OwnFixturesExactly`); for a source that ignores the URL, exactly when it was promoted with a mean
  of 1 (`OwnFixturesNeedPerfection`). Up to 49 fields that is always so (`StaysPromotable`), from 50
  on not (`FiftyFieldsCanFail`), and a source that reads the URL can fail with one
  (`FailsItsOwnFixture`).
* Discovery's numeric tolerance is described as relative (crawloop/loop/jsonpath.py:173-176); below 1
  it is absolute, and wider than the gate's (`SmallNumbersMiss`). `DiscoveryWins` says exactly which
  discoveries are promoted.

## Model

| member | source | states |
|---|---|---|
| `PyText.ParseMoneyIgnoresCleaning` | crawloop/contract.py:23-39 | collapsing and stripping white space never changes the amount read from a text |
| `PyText.CleanTextIgnoresStripping` | crawloop/contract.py:35-39 | stripping a text before collapsing its white space changes nothing |
| `PyText.BlankSeparates` | crawloop/contract.py:20-32 | a number never runs across white space: the first number of a text is that of its first part, else that of the rest |
| `PyText.ParseMoneyIntText` | crawloop/contract.py:23-32 | the printed form of every integer reads back as that integer |
| `PyText.PointShifts` | crawloop/contract.py:20-32 | a point with nothing behind it changes nothing, and moving it past a digit multiplies the amount by ten |
| `PyText.MinusNegates` | crawloop/contract.py:20-32 | a minus right before the digits negates the amount, a plus changes nothing |
| `PyText.PrefixIgnored` | crawloop/contract.py:20-32 | a character before a number that is no digit and no sign changes nothing |
| `PyText.CommasIgnored` | crawloop/contract.py:23-32 | a comma anywhere changes nothing |
| `PyText.IntTextInjective` | crawloop/loop/jsonpath.py:233-241 | different integers print differently, so list indices keep their identity in the sort key |
| `Values.PyEqIsCanonical` | crawloop/validator.py:230 | `==` on nested documents is equality of a canonical form (dicts as maps, numbers by value) |
| `FieldEquality.FieldEqualIsReading` | crawloop/validator.py:197-230 | stable field equality holds exactly when both sides have the same canonical reading, or a flag meets the number equal to it |
| `FieldEquality.StableEquivalence` | crawloop/validator.py:197-230 | it is reflexive and symmetric, and two agreements through a middle value compose exactly when neither is a flag meeting its number, or else the outer values are equal numbers (through a flag: equal amounts) |
| `FieldEquality.FlagsBreakTransitivity` | crawloop/validator.py:217-218 | a chain that does not compose: True agrees with 1 and 1 with "1", but True does not agree with "1" |
| `FieldEquality.VolatileBound` | crawloop/validator.py:220-225 | two volatile amounts agree exactly when they differ by at most epsilon times the larger of the first amount and epsilon |
| `FieldEquality.VolatileSymmetry` | crawloop/validator.py:220-225 | the two directions of a volatile comparison agree exactly when the values are not both amounts, or the move is within the smaller amount's tolerance or beyond the larger one's |
| `FieldEquality.VolatileAsymmetric` | crawloop/validator.py:224-225 | some pair agrees one way round and not the other |
| `FieldEquality.InterchangeableAgree` | crawloop/validator.py:197-230 | values with the same reading that meet the same flags agree with the same values, stable or volatile |
| `FieldEquality.Apart` | crawloop/validator.py:197-230 | any other two values are told apart by some value, stable or volatile |
| `FieldEquality.MissingAgreesOnlyWithMissing` | crawloop/validator.py:214-215 | a missing value agrees with a missing value and nothing else, stable or volatile |
| `Sorting.SortForgetsOrder` | crawloop/validator.py:258-260 | sorting two permutations of the same rows gives the same list when ties are only between equal rows |
| `Sorting.StrLeExact` | crawloop/validator.py:258-260 | texts are ordered by the first character in which they differ, a text before its extensions |
| `Averages.MeanIsOne` | crawloop/loop/gauntlet.py:98-106 | a mean of terms at most 1 reaches 1 exactly when each term is 1 |
| `Averages.MinIsLeast` | crawloop/loop/gauntlet.py:193-201 | the worst score is one of the scores and clears the bar exactly when every score does |
| `Averages.MeanOfFractions` | crawloop/validator.py:366-388 | the mean of row ratios with one denominator is the ratio of the totals |
| `Validator.PairAgreement` | crawloop/validator.py:267-283 | counts the agreeing fields of a pair and the fields compared |
| `Validator.BarInFields` | crawloop/validator.py:366-388 | a pair of F fields scores at least 0.98 exactly when it differs on at most F/50 fields, and 1 exactly when it differs on none |
| `Validator.AgreementDetail` | crawloop/validator.py:346-388 | the loop reports the mean and the least of the aligned pair scores, with the empty cases as written |
| `Validator.ItemsAgreement` | crawloop/validator.py:286-320 | the loop reports agreeing comparisons over all comparisons |
| `Validator.MeanIsPooled` | crawloop/validator.py:304-320 | the per-row mean of one view is the pooled ratio of the other, for all inputs |
| `Validator.DetailForgetsOrder` | crawloop/validator.py:246-264 | permuting either list changes neither view when rows with the same key are the same row |
| `Validator.DeclaredKeysDecide` | crawloop/validator.py:45-48 | permuting either list changes neither view when the url decides the row, whatever else the rows hold; without a url field when the name does, then the title, then the text |
| `Validator.PairsArePositions` | crawloop/validator.py:246-264 | row i meets row i, in the order of that key's text, or in the order given when none of the four is declared; a row beyond the shorter list meets an empty one |
| `Validator.TiesShowOrder` | crawloop/validator.py:258-260 | two different rows with one key: reordering one list halves the worst score |
| `RowOrder.SortGathers` | crawloop/validator.py:258-260 | the stable sort depends on the keys only: rows with the same keys position by position are rearranged alike |
| `RowOrder.OrderUnseen` | crawloop/validator.py:246-264 | where rows that share a key are interchangeable, no oracle sees a permutation of the extracted rows |
| `RowOrder.OrderSeen` | crawloop/validator.py:246-264 | two rows that share a key and can be told apart in a schema field: some oracle gives another mean once they are exchanged |
| `RowOrder.OrderShowsExactly` | crawloop/validator.py:346-388 | so order is invisible against every oracle exactly when rows that share a key (all rows, without a key) are interchangeable, volatile fields included |
| `Validator.MinItemInFields` | crawloop/validator.py:378-388 | for lists of equal length, the worst row clears 0.98 exactly when every pair misses at most F/50 fields, and the mean reaches 1 exactly when none misses any |
| `Validator.RowsCorrespond` | crawloop/validator.py:246-264 | pairwise agreement of equal-length lists is a bijection between their row positions |
| `Validation.FillRates` | crawloop/validator.py:82-94 | for each field, the share of rows in which it is not null |
| `Validation.FilledExactly` | crawloop/validator.py:82-94 | the rows counted as filled are those whose value is not null |
| `Validation.Validate` | crawloop/validator.py:97-165 | passes exactly the acceptable extractions, otherwise names the first failing gate in the order empty, fill, schema, count, with all failures and rates attached |
| `Gauntlet.RunSamples` | crawloop/loop/gauntlet.py:164-174 | schema flag, detail and crash mark of every sample, in order; a crash is a hard fail |
| `Gauntlet.RunFixtures` | crawloop/loop/gauntlet.py:176-188 | the same for golden fixtures, replayed at the sandbox's own URL |
| `Gauntlet.ScoreCandidate` | crawloop/loop/gauntlet.py:109-221 | the two loops and the aggregates give the candidate's score |
| `Gauntlet.PassMeansPromotable` | crawloop/loop/gauntlet.py:190-204 | a candidate passes exactly when there is a sample, it runs everywhere, every sample's rows validate and match the oracle's up to F/50 fields each, and every fixture's rows match on all fields |
| `Gauntlet.SampleRowsCorrespond` | crawloop/loop/gauntlet.py:190-204 | on every sample of a pass, a bijection of rows in which each pair differs on at most F/50 fields |
| `Gauntlet.FixtureRowsAgree` | crawloop/loop/gauntlet.py:176-204 | on every fixture of a pass, a bijection of rows that agree on every field, for any F |
| `Gauntlet.PassIsPerfect` | crawloop/loop/gauntlet.py:190-204 | with at most 49 fields a passing candidate's reported mean is exactly 1 |
| `Gauntlet.JudgeCandidates` | crawloop/loop/gauntlet.py:224-252 | scores every candidate and picks the best passing one |
| `Gauntlet.WinnerIsFirstBest` | crawloop/loop/gauntlet.py:248-252 | there is a winner exactly when some score passes; it is the first among the highest |
| `Gauntlet.FirstPassingWins` | crawloop/loop/gauntlet.py:248-252 | with at most 49 fields the winner is simply the first promotable candidate |
| `OwnFixtures.OwnFixturesExactly` | crawloop/loop/promote.py:61-82 | a promotable source stays promotable against the fixtures its promotion leaves (those saved, and any of those before) exactly when, run at the sandbox's URL, it gives every sample's oracle on all fields; for any number of fields |
| `OwnFixtures.OwnFixturesNeedPerfection` | crawloop/loop/gauntlet.py:176-204 | for a source that ignores the URL that is exactly when the mean it was promoted with is 1 |
| `OwnFixtures.StaysPromotable` | crawloop/loop/promote.py:61-82 | so with at most 49 fields a source that ignores the URL always stays promotable |
| `OwnFixtures.FiftyFieldsCanFail` | crawloop/loop/gauntlet.py:176-204 | for every field count from 50 on, a concrete promotable source that ignores the URL fails the fixture saved from its own sample |
| `OwnFixtures.FailsItsOwnFixture` | crawloop/loop/gauntlet.py:177-188 | a concrete source that looks at the URL is promotable, and is not against the fixture saved from its own sample |
| `Llm.Completer.Complete` | crawloop/llm.py:71-79 | one call, one answer: the count moves by one and the answer is the next |
| `Hybrid.ComputeResidualFields` | crawloop/hybrid.py:82-126 | the loop collects the residual fields in schema order and sorts them |
| `Hybrid.ResidualFieldsExact` | crawloop/hybrid.py:109-126 | the list is sorted and holds, once each, exactly the fields some oracle row fills and the crawler misses on every page where the oracle fills them |
| `Hybrid.MissingIsBlank` | crawloop/hybrid.py:118-126 | an output that is missing counts as an empty one |
| `Hybrid.ComputeWinnerResidual` | crawloop/loop/driver.py:146-174 | re-runs the winner on each sample, a crash giving no rows, and computes the residual fields of the outputs |
| `Hybrid.ResidualBound` | crawloop/hybrid.py:106-126 | after a pass over F fields the residual set has at most F/50 fields per oracle row |
| `Hybrid.ResidualEmpty` | crawloop/hybrid.py:106-126 | so with at most 49 fields it is empty |
| `Hybrid.EdgeIsSharp` | crawloop/hybrid.py:106-126 | for every F from 50 on, a concrete candidate passes and leaves a residual field |
| `Hybrid.FillResidual` | crawloop/hybrid.py:205-272 | no call for an empty set, else one; an error or an answer that does not parse gives nothing; otherwise exactly the usable residual fields of that answer, coerced |
| `Hybrid.TailIsUsable` | crawloop/hybrid.py:251-272 | a residual field survives exactly when the answer gives it a value that is not null, not blank text and coerces, and then as coerced |
| `Hybrid.MergeRecord` | crawloop/hybrid.py:280-292 | the loop over the tail, in whatever key order, computes the merged record |
| `Hybrid.MergeKeepsDeterministic` | crawloop/hybrid.py:280-292 | every present value is kept and only gaps take the tail's |
| `JsonPath.Read` | crawloop/loop/jsonpath.py:87-110 | the step loop computes the recursive reading, misses and type errors included |
| `JsonPath.LeavesSound` | crawloop/loop/jsonpath.py:67-84 | every enumerated leaf lies in the document at its path |
| `JsonPath.LeavesComplete` | crawloop/loop/jsonpath.py:67-84 | every scalar position of the document is enumerated |
| `JsonPath.LeavesExact` | crawloop/loop/jsonpath.py:67-84 | (path, value) is enumerated exactly when the value is the scalar at the path |
| `JsonPath.LeavesDistinct` | crawloop/loop/jsonpath.py:67-84 | no path is enumerated twice |
| `JsonPath.ReadInvertsLeaves` | crawloop/loop/jsonpath.py:67-110 | a non-null scalar reads back at a path exactly when it is the leaf enumerated there |
| `JsonPath.ReaderCanRaise` | crawloop/loop/jsonpath.py:87-110 | a list as a step on a dict raises |
| `JsonPath.ReaderRaisesExactly` | crawloop/loop/jsonpath.py:87-110 | on one document reading raises exactly when some prefix of the path reads a dict and the next step is a list or dict |
| `JsonPath.SafeOnEveryDocument` | crawloop/loop/jsonpath.py:87-110 | a path is safe on every document exactly when no list or dict step follows only keys and positions |
| `Discovery.SortKeyInjective` | crawloop/loop/jsonpath.py:233-241 | two leaf paths of one document with the same sort key are the same path |
| `Discovery.PathScalesExact` | crawloop/loop/jsonpath.py:215-230 | the per-sample dict holds exactly that sample's matches, with their scales |
| `Discovery.ConsistentPaths` | crawloop/loop/jsonpath.py:295-330 | seeding with the first sample and intersecting the rest, early exit included, tracks exactly the pairs that match every sample |
| `Discovery.LeastPath` | crawloop/loop/jsonpath.py:295-330 | the least consistent path by sort key, whatever order the dict is walked in |
| `Discovery.BestIsChoice` | crawloop/loop/jsonpath.py:295-330 | the least path with its preferred scale is the choice discovery promises |
| `Discovery.DiscoverPaths` | crawloop/loop/jsonpath.py:244-330 | a field is returned exactly when it is non-null in every oracle, not skipped and matches somewhere in every sample; with the least such path, at scale 1 when that fits |
| `Discovery.DiscoveredFirst` | crawloop/loop/jsonpath.py:233-241 | the path of a field is shorter than every other path that matches in all samples, or as long and, at the first step whose texts differ, before it |
| `Discovery.ShallowPriceWins` | crawloop/loop/jsonpath.py:233-241 | a price found at the top of a page and further down: every discovery records the one at the top, with scale 1 or, when the oracle's is ten thousand times as large, 10000 |
| `ValuePathCrawler.Crawl` | crawloop/loop/jsonpath.py:364-419 | the emitted body builds exactly the record of discovered fields whose read is not null |
| `ValuePathCrawler.DiscoverAndCrawl` | crawloop/loop/driver.py:274-301 | discovery on the training pages and then the emitted reads on any page: nothing when nothing was discovered, otherwise the record, and no path found this way makes the reader raise |
| `ValuePathCrawler.ReproducesNumbers` | crawloop/loop/jsonpath.py:383-400 | on every training sample a numeric field comes back as a number within the match tolerance of its oracle, as an int exactly when it is whole |
| `ValuePathCrawler.ReproducesTexts` | crawloop/loop/jsonpath.py:364-380 | a text field's reading equals its oracle after stripping, and is omitted exactly when the page holds a null there, which only the text "None" allows |
| `ValuePathCrawler.NullMatchesNoneText` | crawloop/loop/jsonpath.py:200-212 | the exception is real: every discovery on a concrete page reads null for the oracle text "None" |
| `ValuePathCrawler.ChoiceUnique` | crawloop/loop/jsonpath.py:233-241 | path and scale of a field are unique, across documents that differ in key order |
| `ValuePathCrawler.OrderIndependent` | crawloop/loop/jsonpath.py:244-330 | the whole result does not depend on the order of object keys |
| `ValuePathPromotion.TextMatchAgrees` | crawloop/loop/jsonpath.py:200-212 | two texts that discovery matches agree at the gate exactly when the page holds no null, the oracle no container, a flag faces a flag, and a decimal prints as its amount |
| `ValuePathPromotion.LargeNumbersTaken` | crawloop/loop/jsonpath.py:173-176 | a number of at least 1, and at least the oracle's, that discovery matches is within the gate's tolerance |
| `ValuePathPromotion.SmallNumbersMiss` | crawloop/loop/jsonpath.py:179-197 | a number below 1 that discovery matches and the gate refuses |
| `ValuePathPromotion.DiscoveryPromotable` | crawloop/loop/gauntlet.py:190-204 | for detail pages, at most 49 fields and no fixtures yet, the candidate of a discovery is promotable exactly when each page's record validates and each schema field shows in it: undiscovered and missing in the oracle, a number within the gate's tolerance, or a text the gate takes |
| `ValuePathPromotion.DiscoveryWins` | crawloop/loop/driver.py:506-516 | and exactly then the loop promotes it in round 1, ahead of whatever the model wrote, unless a call of that round raises |
| `PathMap.ApplyMap` | crawloop/loop/pathmap.py:101-116 | the first contained key's code, else null, and an error for a non-dict mapping |
| `PathMap.EarliestKeyDecides` | crawloop/loop/pathmap.py:107-116 | the code returned belongs to the earliest key the text contains |
| `PathMap.ApplyConcat` | crawloop/loop/pathmap.py:119-134 | the non-empty stripped pieces joined, null when there is none, and the cases that raise |
| `PathMap.ApplyList` | crawloop/loop/pathmap.py:137-157 | the array at the first path, projected, and the cases that raise |
| `PathMap.ApplyFieldSpec` | crawloop/loop/pathmap.py:160-200 | the value a spec denotes, every exception being a miss |
| `PathMap.ApplyFieldmap` | crawloop/loop/pathmap.py:203-215 | the record a field map denotes |
| `PathMap.EmittedApply` | crawloop/loop/pathmap.py:288-349 | the inlined interpreter computes the same value, for every document and every spec, malformed ones included |
| `PathMap.EmittedCrawl` | crawloop/loop/pathmap.py:356-371 | the emitted crawler computes the same record |
| `PathMap.RecordIsPointwise` | crawloop/loop/pathmap.py:203-215 | each field of the record depends on its own spec only |
| `PathMap.IdentityTransformReads` | crawloop/loop/pathmap.py:183-187 | the transform "none" returns what the path reads |
| `SpecMeaning.NumberTransforms` | crawloop/loop/pathmap.py:188-196 | where the path reads a number, "x10000" gives the integer nearest to ten thousand times it (the even one of two), "int" the integer part towards zero, "float" the number |
| `SpecMeaning.ScalarMisses` | crawloop/loop/pathmap.py:182-197 | "none" gives the value read; another name, a null and a value that is no number are misses |
| `SpecMeaning.UnitPriceScales` | crawloop/loop/pathmap.py:188-190 | a unit price of 1298 under "x10000" is 12980000 |
| `SpecMeaning.MapMeans` | crawloop/loop/pathmap.py:101-116 | the code of the earliest key that occurs in the text, nothing when none does |
| `SpecMeaning.ConcatMeans` | crawloop/loop/pathmap.py:119-134 | the non-empty stripped texts of the parts that read, in part order, each followed by the separator and the next; nothing when there are none |
| `SpecMeaning.RaisedPartMisses` | crawloop/loop/pathmap.py:198-200 | a part whose reading raises makes the whole a miss |
| `SpecMeaning.ListMeans` | crawloop/loop/pathmap.py:137-157 | the array at the first path, as it is without a field, otherwise exactly the field's values of the dict elements that have it, in order; a value that is no array is a miss |
| `Sampler.HarvestLinks` | crawloop/loop/sampler.py:43-63 | the loop collects the page's links |
| `Sampler.LinkExact` | crawloop/loop/sampler.py:43-63 | a link is harvested, once, exactly when some href joins to it, it is not empty and its host is the page's |
| `Sampler.LinksInOrder` | crawloop/loop/sampler.py:43-63 | links stand in the order of the first href that joins to each |
| `Sampler.WalkStaysOnHost` | crawloop/loop/sampler.py:43-63 | every page reachable from the seeds is on a seed's host |
| `Sampler.TryFetch` | crawloop/loop/sampler.py:88-104 | nothing for a URL already tried; otherwise one attempt: the page if it answered, nothing for a typed access failure, and any other error ends the search |
| `Sampler.AttemptRanked` | crawloop/loop/sampler.py:104-126 | attempts keep breadth-first order: by the page a page was found on, and of one rank by position among the seeds or that page's links |
| `Sampler.WalkCollected` | crawloop/loop/sampler.py:102-126 | once every collected page is expanded, the end of every walk from a seed is collected |
| `Sampler.ClosedSearchIsExact` | crawloop/loop/sampler.py:102-126 | then exactly the reachable pages are collected |
| `Sampler.SearchFrontier` | crawloop/loop/sampler.py:102-126 | the growing-frontier loop ends, within budget, with every page expanded unless the budget stopped it |
| `Sampler.NoneSkipped` | crawloop/loop/sampler.py:104-126 | no known URL in front of a tried one (of lower rank, or earlier among the seeds or the links of the same page) is left untried, also when the budget ends the search |
| `Sampler.CollectSamples` | crawloop/loop/sampler.py:66-126 | raises exactly when a URL it tried raises something other than a typed access failure; distinct pages on seed hosts, in breadth-first order, exactly those that answered among the URLs tried, each tried once; what was tried is exactly what comes first in that order; within both limits; short of both, exactly the reachable pages |
| `Ladder.StepKeeps` | crawloop/registry.py:278-373 | each operation keeps versions numbered 1..k, successes within runs, at most one active, one active once there is one, and other families untouched |
| `Ladder.RunKeeps` | crawloop/registry.py:278-373 | so does every run of operations |
| `Ladder.ActivateKeeps` | crawloop/registry.py:284-309 | activation leaves exactly the chosen version active, or changes nothing for an unknown one |
| `Ladder.RollbackSpendsTop` | crawloop/registry.py:347-373 | a rollback activates the highest fallback and removes it, alone, from the fallbacks |
| `Ladder.RollbacksDescend` | crawloop/registry.py:347-373 | consecutive rollbacks activate strictly decreasing numbers and succeed exactly as often as there were fallbacks |
| `Ladder.LadderShape` | crawloop/registry.py:311-328 | the ladder lists every row of the family once, archived ones too: the active first, then by descending number |
| `Registry.Registry.UpsertFamily` | crawloop/registry.py:154-172 | the row is replaced but keeps its status |
| `Registry.Registry.AddVersion` | crawloop/registry.py:227-276 | a refused source changes nothing; otherwise one fallback row, numbered old max + 1 |
| `Registry.Registry.SetActive` | crawloop/registry.py:284-309 | the two updates, or nothing for an unknown version |
| `Registry.Registry.Rollback` | crawloop/registry.py:347-373 | the highest fallback becomes active and the active one archived, or nothing without a fallback |
| `Registry.Registry.RecordRun` | crawloop/registry.py:330-345 | exactly the named version gains a run, and a success when it served |
| `Registry.Registry.PromoteSource` | crawloop/loop/promote.py:85-143 | add, activate, audit: the whole new state, or no change when the gate refuses the source |
| `Registry.PromotionAppends` | crawloop/loop/promote.py:128-129 | on a good ladder a promotion appends one version, numbered one past the old count, which alone is active |
| `Registry.PromotionIsServed` | crawloop/registry.py:490-510 | the residual set served afterwards is the one the promotion recorded |
| `Executor.RunVersion` | crawloop/executor.py:123-152 | follows next links up to the page cap, concatenating items; a crash ends it |
| `Executor.SelfLinkRunsToTheCap` | crawloop/executor.py:123-152 | a page that links to itself is fetched exactly as often as the cap allows |
| `Executor.ItemsInFetchOrder` | crawloop/executor.py:144-152 | an extraction is the rows of the pages that came, each at the next link of the one before, joined in fetch order; it ends at the cap, at a page without a next one, or with the crash of the page after them |
| `Executor.VerdictsAreWalk` | crawloop/executor.py:219-243 | the verdicts are rejections up to the first rung that serves or raises, or of the whole ladder; what serves was accepted |
| `Executor.RunFamily` | crawloop/executor.py:183-243 | the outcome is that of the first rung, in ladder order, that does not reject; counters, history and snapshot exactly as that walk implies |
| `Executor.RungCredit` | crawloop/executor.py:219-243 | each earlier rung gains one failed run, the winner one successful run, later rungs and a raising one nothing |
| `Executor.RecordedElsewhere` | crawloop/executor.py:219-243 | rows of other families are untouched |
| `Executor.RowHasRung` | crawloop/registry.py:311-328 | every row of the family has its own rung |
| `ArchivedRungs.RungIsTried` | crawloop/executor.py:219-243 | rung j is tried exactly when every earlier rung rejects, and then says what it says at that moment |
| `ArchivedRungs.ArchivedRungIsRow` | crawloop/registry.py:311-328 | the ladder has an archived rung exactly when the family has an archived row |
| `ArchivedRungs.ArchivedTriedOnce` | crawloop/executor.py:219-243 | a walk tries an archived version exactly when every rung before some archived one rejects |
| `ArchivedRungs.ArchivedNeverTried` | crawloop/migrations.sql:17-20 | no walk on any site tries an archived version exactly when the family has none |
| `ArchivedRungs.ArchivedServes` | crawloop/registry.py:311-373 | add, add, activate, roll back, in any family: on a concrete site the rolled-back version is reached and serves |
| `Executor.WalkSuccesses` | crawloop/executor.py:173-180 | a walk adds exactly one success when it serves and none otherwise |
| `Executor.SnapshotCadence` | crawloop/executor.py:173-243 | over any history of walks and other registry operations, snapshots are written once per multiple of the cadence the success total passes |
| `Executor.FreshFamilyCadence` | crawloop/executor.py:173-243 | counted from a fresh family, exactly successes / cadence times, rounded down |
| `Fallback.FirstUsableIsFirst` | crawloop/fallback.py:134-152 | the rows come from the first answer that parses and validates, which is the last one asked for; a provider error ends the attempts; giving up uses the whole budget |
| `Fallback.DirectExtract` | crawloop/fallback.py:96-152 | the repair loop gives that result, with that many calls |
| `LoopCourse.OraclesAreAccepted` | crawloop/loop/driver.py:445-455 | usable samples are a sub-list of the sampled pages in order, each oracle validates, and calls stay within attempt plus repairs per page |
| `LoopCourse.OraclesArePaired` | crawloop/loop/driver.py:446-455 | each sample's oracle is the rows its own page's attempts gave, a page is dropped exactly when its own attempts gave none, and asking stops exactly at the first page whose attempts raise |
| `LoopCourse.WinnerIsJudged` | crawloop/loop/driver.py:499-544 | a tier's winner is the judge's choice among some round's candidates, in a round within the budget |
| `LoopCourse.TierWinnerIsJudged` | crawloop/loop/driver.py:446-539 | a tier's winner passed on enough sampled pages, exactly those whose own attempts gave rows, each against its own rows, which the schema accepts |
| `LoopCourse.DeterministicWins` | crawloop/loop/driver.py:506-517 | with at most 49 fields a deterministic candidate that reproduces the oracles makes the tier end in round 1 with a deterministic winner, ahead of the model's code |
| `TierEnds.TierEndsExactly` | crawloop/loop/driver.py:457-539 | with at most 49 fields a tier is exhausted exactly when no round offers a promotable source and no call raises; it is won in round r by the first promotable of what that round offers (the value-path and the field-map source first in round 1, then the code among its answers, in call order) exactly when every earlier round loses; it raises exactly when a call does in a round before which all lose |
| `Driver.AskOracle` | crawloop/loop/driver.py:447-455 | the samples, oracles and calls of the oracle step |
| `Driver.GenerateCandidates` | crawloop/loop/codegen.py:103-146 | the gate-passing code of k answers in call order, or an error when a call raises |
| `Driver.PathMapCandidate` | crawloop/loop/driver.py:304-355 | at most one call, and every error means no candidate |
| `Driver.Escalate` | crawloop/loop/driver.py:193-224 | one audit note, the family's status, its row created if needed, nothing else |
| `Driver.PlayRounds` | crawloop/loop/driver.py:499-539 | the round loop ends at the first round that has a winner or raises |
| `Driver.RunLoopOnce` | crawloop/loop/driver.py:401-545 | one tier: its outcome, calls, audit, versions and families are those of the course its pages and answers determine |
| `Driver.RunLoop` | crawloop/loop/driver.py:358-398 | one tier, or two with nothing in between exactly when the first failed for another reason than samples and a stronger model exists; at most twice one tier's calls |
| `Driver.RaisesExactly` | crawloop/loop/driver.py:387-398 | a run raises exactly when its last tier does (in sampling, in a model call, or at the registry's gate), and with that error |
| `Driver.LosingLeavesLadder` | crawloop/loop/driver.py:387-398 | a run that does not win changes no version and writes only escalation notes |
| `Driver.WinAppendsOne` | crawloop/loop/driver.py:387-398 | a run that wins appended exactly one version, old max + 1, the sole active one, named by the newest audit entry, whose source passed the bar and whose residual set is the one now served; it was judged on sampled pages, each against the rows of its own page's attempts |
| `Driver.ReachableIsClean` | crawloop/loop/driver.py:523-533 | no promotion at the 0.98 bar over at most 49 fields ever records a residual field |
| `Driver.ReachableHasNoResidual` | crawloop/registry.py:490-510 | in every registry reached by such promotions, escalations, activations, rollbacks and recorded runs, every family's residual set is empty |
| `Driver.FiftyFieldsCanLeaveAResidual` | crawloop/loop/driver.py:523-533 | with 50 fields allowed a single promotion leaves one: 49 is the exact limit |
| `Driver.WinIsAllowed` | crawloop/loop/driver.py:517-537 | every win of a tier is such a promotion |
| `Driver.RunKeepsClean` | crawloop/loop/driver.py:517-537 | over schemas of at most 49 fields at the 0.98 bar no whole run, however it ends, records a residual field |
| `Driver.CleanMeansNoResidual` | crawloop/registry.py:490-510 | without one on record no family has a residual set, whatever its versions |
| `RateLimiter.RunKeeps` | crawloop/access.py:213-224 | in every interleaving, cancellations included, the lock is exclusive, sleepers sleep past the interval and the recorded time is the latest grant's |
| `RateLimiter.GrantsSpaced` | crawloop/access.py:213-224 | so grants of one host are at least 1 / max_rps apart |
| `RateLimiter.WindowBound` | crawloop/access.py:186-224 | any window of length T holds at most floor(T * max_rps) + 1 grants |
| `RateLimiter.StepsAreLocal` | crawloop/access.py:290-301 | a step for one host changes nothing another host's limiter holds |
| `GuardedGets.RunKeeps` | crawloop/access.py:303-325 | many coroutines in one client: at every moment each is in the limiter exactly while its `get` awaits it, for the host of the URL it just checked |
| `GuardedGets.EverySendIsGuarded` | crawloop/access.py:312-319 | in every interleaving each coroutine sends only right after its own check of that URL and its own grant for its host |
| `GuardedGets.AdjacencyIsPerTask` | crawloop/access.py:312-319 | in the client's whole log another coroutine's check can come between |
| `GetSpacing.SendsAreGrants` | crawloop/access.py:313-319 | GETs to a host happen at the times of its grants, one for one |
| `GetSpacing.SendsSpaced` | crawloop/access.py:173-224 | GETs to one host are at least 1 / max_rps apart, over all coroutines, redirects and retries |
| `GetSpacing.SendWindow` | crawloop/access.py:173-224 | any window of length T sees at most floor(T * max_rps) + 1 GETs to a host |
| `GetOutcomes.EachGetsItsOwn` | crawloop/access.py:303-325 | a coroutine that is done got what following redirects on its own answers gives, the policy stop and the redirect limit included |
| `Access.GuardedHop` | crawloop/access.py:313-319 | for a client used by one coroutine at a time: check, grant, send keeps the log one in which every GET follows its own check and grant |
| `Access.GuardedClient.Hop` | crawloop/access.py:313-319 | an off-list URL is never sent; any other is, once, guarded |
| `Access.GuardedClient.Get` | crawloop/access.py:303-325 | the redirect loop gives what following the network's answers gives, in at most six guarded hops |
| `Access.FollowEnds` | crawloop/access.py:303-325 | at most six GETs, all six when the redirect limit ends it, and only that error or the policy stop goes through |
| `Access.RedirectCycle` | crawloop/access.py:309-325 | a page that redirects to itself ends in the redirect-limit error after exactly the allowed hops |
| `Access.BuildStrategy` | crawloop/access.py:561-597 | a strategy's name is always its configured kind |
| `Access.RetriesEnd` | crawloop/access.py:444-454 | a final outcome is not retried, and what comes back is what the last fetch gave |
| `Access.PlainFetch` | crawloop/access.py:389-395 | maps the response or a transport error; policy and redirect-limit errors pass through |
| `Access.FirstAnswerDecides` | crawloop/access.py:343-364 | what an answer that does not redirect means: a success is the page, 429 a rate block, 401 and 403 a login or challenge, anything else a failure with its status |
| `Access.BackoffFetch` | crawloop/access.py:444-454 | up to three plain fetches, as long as the outcome is transient |
| `Access.Fetch` | crawloop/access.py:561-597 | each strategy's outcome, with its bound on GETs |
| `AccessRecovery.LadderExists` | crawloop/loop/access_recovery.py:94-104 | a ladder is built exactly when every rung can be |
| `AccessRecovery.LadderOfDomain` | crawloop/loop/access_recovery.py:83-104 | names are distinct, the saved strategy is first, and the rest are exactly the configured kinds |
| `AccessRecovery.LadderInOrder` | crawloop/loop/access_recovery.py:83-104 | rungs stand in the order in which their kinds first occur, the saved one counted first |
| `AccessRecovery.BuildLadder` | crawloop/loop/access_recovery.py:61-104 | the loop builds that ladder, each kind under its first parameters |
| `AccessRecovery.PassCostBound` | crawloop/access.py:444-454 | one pass sends at most 6 GETs per rung and 12 more for backoff |
| `AccessRecovery.WalkLadder` | crawloop/loop/access_recovery.py:141-159 | rungs in order until one gets through or raises, an unavailable one skipped; the rungs it tried are recorded and are those of the pass |
| `AccessRecovery.PassTriesInOrder` | crawloop/loop/access_recovery.py:141-159 | a pass tries exactly the rungs up to the one that ends it, or all of them, in order |
| `AccessRecovery.SearchTriesInOrder` | crawloop/loop/access_recovery.py:140-162 | success in round r at rung j means r - 1 full passes and then the rungs up to j were tried; finding nothing means every round ran in full |
| `AccessRecovery.WalkRounds` | crawloop/loop/access_recovery.py:140-159 | full passes until one gets through, each within its cost; the rungs it tried are recorded |
| `AccessRecovery.SearchCost` | crawloop/loop/access_recovery.py:140-159 | for a ladder of distinct names, all rounds together cost at most 6 * rounds * (rungs + 2) GETs |
| `AccessRecovery.RecoverAccess` | crawloop/loop/access_recovery.py:107-162 | off-list is refused before anything; otherwise the answer and the recorded rungs are the search's: success in round r at rung j tried r - 1 full passes and the rungs up to j; a success stores only the winner's name, a failure only the status, an escaping error nothing; at most 6 * rounds * (rungs + 2) GETs, all guarded |
| `LetThrough.FollowPropagates` | crawloop/access.py:303-325 | following redirects raises the limit error exactly when every allowed hop is allowlisted and redirects, the policy stop exactly when they lead off the allowlist within the allowed hops, and nothing else |
| `LetThrough.LetsThroughExactly` | crawloop/access.py:389-454 | a strategy lets a failure through exactly when its plain fetch does, for backoff some try that is reached within its budget; the browser and the captcha boundary never |
| `RecoveryEnds.Climb.PassEnds` | crawloop/loop/access_recovery.py:141-159 | a pass stops, or gets through, at a rung exactly when that rung does at its own moment and all before it pass the question on; it finds nothing exactly when all of them do |
| `RecoveryEnds.Climb.SearchEnds` | crawloop/loop/access_recovery.py:140-159 | the same over rounds: a search ends at rung j of round r exactly when that rung stops or gets through, no earlier round found anything, and the rungs before it in the round pass the question on |
| `RecoveryEnds.Climb.SearchFindsNothing` | crawloop/loop/access_recovery.py:140-162 | and it finds nothing exactly when no rung of any round does |
| `RecoveryEnds.RecoveryRaises` | crawloop/loop/access_recovery.py:129-159 | what recovery raises, both ways: the policy stop off the allowlist; a build error exactly when a configured or saved rung cannot be built; otherwise exactly what a rung lets through that is tried within the rounds |
| `FetchContext.FetchPage` | crawloop/access.py:667-717 | the engine's page fetch: one fetch of the saved strategy, or of the first rung or a browser, with its outcome as HTML or a typed failure and its bound on GETs |
| `FetchContext.PageFails` | crawloop/access.py:667-717 | it is stopped by policy exactly when the URL, or one that redirects lead to in a try that is made, is off the allowlist; any error but that, a block or a fetch error depends on the host's configuration alone |
| `FetchContext.RenderedHosts` | crawloop/access.py:680-684 | a host that needs rendering and has no browser as first rung is fetched by a browser, the stealth one if configured, and nothing is sent |
| `FetchContext.PlainPage` | crawloop/access.py:685-717 | on a host with a plain first rung one answer decides the page: the page, a rate block, or a fetch error with its status |
| `FetchContext.RecoveredIsNext` | crawloop/access.py:676-697 | after a recovery the host's page fetches run the very strategy that got through, with the same parameters |
| `AccessRecovery.CycleRaises` | crawloop/access.py:325 | with a plain fetch as first rung, a page that redirects to itself makes recovery raise the redirect-limit error |
| `Engine.FirstSeenExact` | crawloop/engine.py:578-586 | the seeds are the recent and current URLs, each once |
| `Engine.FirstSeenInOrder` | crawloop/engine.py:578-586 | and in the order in which they first occur |
| `Engine.RecentExact` | crawloop/engine.py:571-577 | the recent URLs are those of the family's newest history rows, newest first; a row is left out only for want of room, and is then older |
| `Engine.LoopSeeds` | crawloop/engine.py:571-586 | in first-seen order, the current URL always among them |
| `Engine.WalkKeepsActive` | crawloop/executor.py:219-243 | running the ladder never moves the active version, so the residual set read afterwards is the one from before |
| `Engine.Engine.CleanServesFree` | crawloop/engine.py:265-269 | while no promotion on record left a residual field, nothing is residual for any family |
| `Engine.Engine.ReachedServesFree` | crawloop/engine.py:265-269 | so it is in every registry reached over schemas of at most 49 fields |
| `Engine.Engine.RunFamily` | crawloop/engine.py:518-533 | the ladder walk's outcome, counters and history row, with the residual set unchanged |
| `Engine.Engine.MaybeHybridFill` | crawloop/engine.py:238-296 | from the page the client fetches now and the answer that comes next: kept rows, rows with that answer's tail merged into each and the audit entry, or the page's error; at most one call, and no call or GET without residual fields |
| `Engine.Engine.RunLoopOnce` | crawloop/engine.py:588-614 | a run of the loop on record, with exactly its effect on versions and audit, and the families table after it and the marks around it; over narrow schemas the trail stays clean |
| `Engine.Engine.StatusAfterLoop` | crawloop/engine.py:588-614 | the family ends healthy exactly when the loop promoted, escalated when it returned without, regenerating or escalated when it raised; other families are untouched |
| `Engine.Engine.TriggerLoop` | crawloop/engine.py:535-569 | inline: a run on record with its effects, seeded by the deduplicated recent URLs; otherwise scheduled once unless one is in flight, and nothing else changes |
| `Engine.Engine.HealAndAnswer` | crawloop/engine.py:371-378 | the extracted rows with the loop's result, or the error the loop raised |
| `Engine.Engine.ServeDrift` | crawloop/engine.py:322-378 | a block met on re-fetching is answered by recovery, a fetch error is reported without a loop, another error leaves; a page is answered from the model and triggers the loop, unless the provider or the loop raises |
| `Engine.Engine.ServeBlocked` | crawloop/engine.py:380-430 | the answer follows from the recovery the ladder, the network and the saved strategy determine and from one retry, without a model call; only after a success do run counters move |
| `Engine.Engine.ServeTransient` | crawloop/engine.py:432-461 | the first retry that serves, within the cap, without a model call; a policy stop escapes |
| `Engine.Engine.RetriesEscape` | crawloop/engine.py:443-461 | an error leaves the retries exactly when one within the cap is stopped by policy before any serves, and it is that stop |
| `Engine.Engine.HandleFailure` | crawloop/engine.py:298-320 | after a failed walk the route, the answer, the calls and the loop follow from what the request meets |
| `Engine.Engine.ServeKnownFamily` | crawloop/engine.py:212-320 | the answer, the calls and the loop follow, on every route, from the ladder walk, the page, recovery, the retries and the model; none of the calls on the direct route while the trail is clean; and an undocumented error leaves exactly when the state it starts in says so |
| `Engine.Engine.Bootstrap` | crawloop/engine.py:465-514 | no schema is the usage error; a failed fetch or a provider error registers nothing; otherwise the model answers, the family is registered and the loop is triggered, whose error leaves if it raises inline |
| `Engine.Engine.Request` | crawloop/engine.py:192-208 | off-list is refused before any fetch, call or write; otherwise the whole answer follows from what the request meets, and an undocumented error leaves exactly under the stated condition on the starting state, the network and the model's answers; no model call on the gone, blocked and transient ways, at most one on the direct way and none while the trail is clean, at most two beyond the loop on drift and bootstrap; the engine's own GETs are bounded by one page fetch and one recovery; over narrow schemas a clean trail stays clean |
| `Engine.Engine.LetsOutExactly` | crawloop/engine.py:192-201 | an error other than the policy stop leaves a known family's request exactly when: served, the hybrid has something to fill and the host no usable fast strategy; blocked, a rung cannot be built or a tried one runs into the redirect limit; drifted, the same after a blocked page, or no usable fast strategy, or a page and the provider or the loop failing; otherwise never |
| `Engine.Engine.NewLetsOutExactly` | crawloop/engine.py:465-514 | and an unknown family's exactly when there is no schema, no usable fast strategy, or a page comes and the provider or the loop fails |
| `AnsweredRows.ModelRows` | crawloop/engine.py:361-378 | an answer from the model holds the rows of the first usable of its two answers, and none exactly when neither is usable, with the reason that says so and what the loop returned; on drift and for a new family alike |
| `AnsweredRows.ServedRows` | crawloop/engine.py:223-296 | a served answer holds the rung's rows with every value they had, and in their gaps at most the usable residual values of one model answer |
| `AnsweredRows.RecoveredRows` | crawloop/engine.py:393-430 | after a recovery the rows are the retry's, under the strategy that got through, and none if the retry serves none |
| `AnsweredRows.RetriesRows` | crawloop/engine.py:443-461 | the retries answer with the rows of the first that serves within the cap before one is stopped, and give up exactly when none does |
| `AnsweredRows.ServedIsAccepted` | crawloop/executor.py:205-243 | what a walk serves, one of the family's versions extracted and its schema accepts |
| `AnsweredRows.RowsExactly` | crawloop/engine.py:212-461 | an answered request for a known family has rows exactly when the walk, the walk after a recovery, a retry or one of the model's two answers gave some |
| `EscapeWitnesses.RedirectCycleEscapes` | crawloop/access.py:325 | a request whose page is blocked and then redirects to itself ends in a fetch error |
| `EscapeWitnesses.UnbuildableRungEscapes` | crawloop/access.py:591-594 | a request whose page is blocked on a host with a plain rung and a token rung without a header ends in a build error |
| `Healing.RunKeeps` | crawloop/engine.py:557-569 | in every interleaving flags, referenced tasks and unfinished tasks stay consistent |
| `Healing.OneLoopPerFamily` | crawloop/engine.py:557-569 | at most one unfinished loop per family, whose flag is up and whose task is referenced |
| `Healing.HealsAgain` | crawloop/engine.py:557-569 | until the callback has run a trigger is a no-op; after it the next one schedules again |

## Left out

- Engine.Engine.RunLoopOnce: background loops are scheduled but do not run inside a request; their interleaving is in `Healing`, and what one loop does is in `Driver`.
- Engine.Engine.Bootstrap: the schema default, the derived family name and pattern are parameters.
- Hybrid.FillResidual: projecting the schema for the prompt is taken not to raise, so the call is always made when there is something to fill.
- Sampler.CollectSamples: a page's answer is a function of its URL, so a page that would answer only later is not modelled.
- ValuePathCrawler.Crawl: the crawler is given the parsed document; that the first marked script tag is also the first that parses is assumed.
- RateLimiter.GrantsSpaced: assumes a sleep of d lets at least d pass on the clock that is read.
- GetSpacing.SendsSpaced: the end of `acquire` and the start of the GET are one step at one time, since no await lies between them; what the transport adds after that is not modelled.
- LoopCourse.DeterministicWins: which source the value-path emitter returns is a parameter; for one that crawls as emitted, `ValuePathPromotion.DiscoveryWins` says when it is promoted.
- PyText.ParseMoneyIgnoresCleaning: digits are the ASCII ones (white space is all of Unicode's), because the values of other decimal digits are not modelled.
- Driver.GenerateCandidates: prompts, and with them the failure report and the previous source they quote, only influence what the model answers, and answers are arbitrary.
- Driver.RunLoop: errors of the registry's files (a missing active source) are not modelled; fixtures are passed in as a list.
- Executor.RunFamily: what a crawler fetches while it runs is the crawled site's answers, apart from the client's network; so is what the loop samples.
- Engine.Engine.Request: the bound on GETs is for the engine's own fetch and recovery, not for crawlers and loops.
- OwnFixtures.OwnFixturesExactly: reading a fixture file back is taken to give the records written to it.
- ValuePathPromotion.DiscoveryWins: assumes the gate reads the numeric fields stored as discovery compared them (a float's text parses back to it).
- Rendered fetches on a crawler's request and saved sessions: each only wraps the same client or the browser.
- HTML parsing, script-tag expressions, trimming, prompts and the text of emitted modules: parsed documents and candidate sources are inputs.
- The reproduction ratio that lets a proposed field map through, and the advisory history warnings: the first is inside the path-map parameter, the second never decides anything.
- Sandbox limits, environment scrubbing and the AST gate's rules: a run gives items or fails, a gate is a predicate.
- SQLite, crawler files, hashes and timestamps: tables are maps and sequences; a version that cannot be loaded is a crawl that crashes.
- NaN, infinities, overflow of a float, and escapes of unprintable characters when containers are printed.
- Command line, demo and schema discovery.
