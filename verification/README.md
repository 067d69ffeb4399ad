# VCSE verification model

A Dafny model of the deterministic cores of VCSE, the symbolic reasoning engine, with proofs of what
those cores promise. `dafny verify dfyconfig.toml` checks the whole project. One module models one
component; loops and updated objects are methods and classes, each proved against a function of its
inputs or of its old state, and the main results are lemmas about those functions.

- **Placeholder templates** (`Placeholders`, `Templates`, `DslValidator`): the validator's grammar,
  rendering by one whole-string replacement per field, and when that equals a simultaneous substitution.
- **Agent execution** (`Agent`): steps, plans, failure, checkpoint and resume as a state machine.
- **Symbolic retrieval** (`Tokenizer`, `SymbolicIndex`, `Retrieval`, `RetrievalLaws`, `ScoringLaws`):
  inverted index, BM25, top-k selection and the result cache, against a brute-force scan, and what a score is.
- **Pack compression** (`Canonicalizer`, `Interning`, `PackCompression`): canonical claims, interning,
  encoding, the integrity check and id-level lookup.
- **Bounded arithmetic** (`MathGuard`, `MathTool`): the guard over expression trees, the evaluator behind it,
  and the laws that fix every operator.
- **Verified generation** (`ArtifactEvaluation`, `GenerationPipeline`, `GenerationLaws`,
  `SpecificationLaws`): candidates, evaluation, repair, ranking.
- **Inference, conflicts, compilation** (`Inference`, `Conflicts`, `Identity`, `KnowledgeCompiler`).
- `Text`, `Json`, `Sorting` and `StringSets` hold what the components share.

Tools, logarithms, fractional powers, Python's `str` of a value, the memory contradiction check, the
inverse map and the functional property of a relation are parameters: the results hold for all of them.

## Where the code and its promises differ

The model follows the code. Where an expected property fails, a lemma gives the exact condition or a
concrete input.

- Field names are stripped when a template is validated but not when it is rendered, so the placeholder
  of a padded name is never filled (`PaddedFieldNameStaysOpen`).
- Resuming after the last step leaves the status `RUNNING` (`ResumeEqualsRunIff`); the status after a
  resume describes that run only (`FinalStatusIff`); an invalid step after a successful one makes a
  run report `COMPLETED` (`CompletedEarlyIff`), and no resume gets past it (`ResumeProgressIff`).
- Rebuilding an artifact of a repeated id keeps its old postings (`ExactPostingsIff`).
- A pack that skipped a claim fails its own integrity check (`AcceptsOwnPackIff`).
- Canonicalising is idempotent, and independent of insertion order, only while normalised qualifier keys
  do not collide (`IdempotentIff`, `OrderIrrelevantIff`).
- `follows` and `has_part` canonicalise to `precedes` and `part_of` without exchanging subject and object, so
  a claim and its converse become the same canonical triple (`CanonicalFields`, `SameCanonicalIff`).
- The depth limit on nested powers and the static evaluation of bases never decide anything
  (`NoNestedPowers`, `EvaluatorIrrelevant`).
- A specification that asks for a default is never verified (`DefaultNeverVerified`). Two repair attempts
  always end at the first template or the first with another id (`RepairLands`, `LandingIs`), also at one
  whose required fields the specification lacks (`UnreadyWinsIff`, `UnreadyTemplateCanWin`).
- A `|` inside a field lets an added claim hide an inference (`PipeBreaksMonotonicity`); the answers that
  can be lost this way are exactly those of `AnswersKeptIff`.
- The compiler's duplicate entity count is always zero (`DuplicateEntityCount`).

## Model

| member | source | states |
|---|---|---|
| Placeholders.ValidateText | src/vcse/dsl/validator.py:129-146 | The string case of the placeholder check: appends one brace-count error, or one format error when some brace lies outside every match; never both, and nothing else changes in the shared log |
| Placeholders.ValidatePlaceholders | src/vcse/dsl/validator.py:120-146 | The walk over dictionaries and lists appends the errors of every string value, in order, and none for dictionary keys |
| Placeholders.AcceptsExactlyTemplateTexts | src/vcse/dsl/validator.py:129-146 | A string is accepted if and only if it is a concatenation of brace-free literals and `{identifier}` placeholders |
| Placeholders.SegmentsOfUnparse | src/vcse/dsl/validator.py:136-146 | The placeholder grammar is unambiguous: reading a written sequence of segments gives it back |
| Placeholders.CollectsExactlyTheHoles | src/vcse/dsl/validator.py:149-162 | On a string, collection returns exactly its placeholder names, accepted or not |
| Placeholders.ErrorLog.Require | src/vcse/dsl/validator.py:64-83 | A failed check appends exactly one error; a passed one leaves the list alone |
| Placeholders.CollectedIff | src/vcse/dsl/validator.py:149-162 | The names collected from a whole payload are exactly the placeholders of its string values, through dictionaries and lists; dictionary keys contribute none |
| Placeholders.PayloadErrorsIff | src/vcse/dsl/validator.py:120-146 | The errors of a whole payload are one for each string value outside the grammar, about braces when their counts differ and about format otherwise, and no others |
| DslValidator.ValidateGenerationTemplate | src/vcse/dsl/validator.py:61-94 | The error list after all checks on a generation template is the old list followed by each failed check's error, in the order the checks are made |
| DslValidator.AcceptedIff | src/vcse/dsl/validator.py:61-94 | A generation template is accepted if and only if its type, trimmed and lower-cased, is plan, policy, structured_document, config or simple_code, no field name is blank, body and constraints have their shape, no string value is outside the grammar, and every placeholder is a stripped field name |
| DslValidator.AcceptedTemplateRenders | src/vcse/dsl/validator.py:84-94 | An accepted template, given a `{`-free text for at least each of its fields, renders as one simultaneous substitution, with no `{` left if and only if every placeholder is one of the given fields; unpadded names suffice |
| DslValidator.PaddedFieldNameStaysOpen | src/vcse/dsl/validator.py:84-90 | A concrete accepted template whose field name is padded with spaces keeps its placeholder after rendering |
| Templates.RenderString | src/vcse/generation/templates.py:139-143 | The loop of one `str.replace` per field computes the chain of replacements, and on accepted texts the simultaneous substitution, whose stretches `PlaceholderStretch` and `LiteralRenders` fix |
| Templates.FieldTextIs | src/vcse/generation/templates.py:146-149 | A scalar's text is its own; a list's text is the texts of its items, all and in order, separated by single newlines |
| Templates.ListTextSplits | src/vcse/generation/templates.py:146-149 | Splitting a list's text at newlines gives back exactly its items, in order, when none holds a newline |
| Templates.PlaceholderStretch | src/vcse/generation/templates.py:139-149 | In the rendered text, a placeholder's stretch, between the renderings of what stands before and after it, is its own field's text, and the placeholder itself when there is no such field |
| Templates.LiteralRenders | src/vcse/generation/templates.py:139-143 | A stretch without braces renders as itself |
| Templates.ReplaceIsFill | src/vcse/generation/templates.py:139-143 | One whole-string replacement fills exactly the placeholders of that name, and touches no inserted text |
| Templates.ChainFromSegments | src/vcse/generation/templates.py:139-143 | The chain of replacements equals one simultaneous substitution as soon as no field text but the last holds a `{` |
| Templates.ChainIsSubstitution | src/vcse/generation/templates.py:139-143 | On every accepted text, with brace-free keys and `{`-free field texts, the chain equals the simultaneous substitution |
| Templates.FieldOrderIrrelevant | src/vcse/generation/templates.py:139-143 | Rendering does not depend on the insertion order of the fields |
| Templates.FullyRenderedIff | src/vcse/generation/templates.py:139-143 | The rendered text holds no `{` if and only if every placeholder has a field |
| Templates.RenderBodyIsSubstitution | src/vcse/generation/templates.py:120-127 | The same through the recursion over dictionaries and lists, for a whole accepted body |
| Templates.SafeTextIff | src/vcse/generation/templates.py:139-149 | A field text leaves every accepted template's chain equal to the simultaneous substitution, whatever is rendered after it, if and only if it holds no `{` |
| Agent.ExecuteStep | src/vcse/agent/executor.py:38-172 | One step: rejected when invalid; otherwise marked failed if and only if its tool raised, its id, kind, tool and inputs kept. A completed tool step records the tool's own output, a failed one exactly the exception text under `error`, a query step its inputs, verify and branch steps the bare status; the state gains that entry and the completed id, and nothing else of it changes but status and step count |
| Agent.RunLoop | src/vcse/agent/executor.py:194-216 | The step loop stops after the first failed or rejected step, with the steps executed and the state reached |
| Agent.ExecutePlan | src/vcse/agent/executor.py:175-243 | The updated plan is truncated where the run stopped; the final status is set only when some step is recorded |
| Agent.UpdatedPlan | src/vcse/agent/executor.py:194-243 | The plan a run returns holds the executed steps, each with what its own tool returned or raised, then at most the unchanged invalid step that stopped the run |
| Agent.ResumeTask | src/vcse/agent/executor.py:308-383 | Skips recorded ids, runs the rest, reports the status of this run only; nothing changes when nothing remains |
| Agent.ResumeEqualsRunIff | src/vcse/agent/executor.py:175-383 | From any state that records the first k successful steps, resuming on the original plan gives the uninterrupted run's state, later failure included, if and only if the plan is empty, or a step remains and (k > 0 or the first step is valid) |
| Agent.CheckpointReached | src/vcse/agent/executor.py:194-216 | The state after running the first k steps, all successful, records exactly those steps, their outcomes and status RUNNING |
| Agent.StopAndResumeIff | src/vcse/agent/executor.py:175-383 | The same equivalence for an actual run stopped after its first k successful steps, with no assumption on the checkpoint |
| Agent.ResumedPlan | src/vcse/agent/executor.py:367-381 | The resumed plan equals the uninterrupted one except that the skipped steps stay as they were in the original plan |
| Agent.SessionInvariant | src/vcse/agent/state.py:40-73 | After a run and any number of resumes on the original plan: completed steps are a duplicate-free prefix of the ids, `current_step` counts them, and each one's entry holds what the tools returned or raised for that step, stated without the executor's own functions |
| Agent.ResumeProgressIff | src/vcse/agent/executor.py:308-358 | A resume with steps remaining makes strict progress if and only if the next step is valid, and never loses a completed step |
| Agent.ExhaustedIff | src/vcse/agent/executor.py:308-383 | Over valid steps the plan is exhausted after r resumes if and only if at most r steps before the last one fail; n - 1 resumes always suffice |
| Agent.FinalStatusIff | src/vcse/agent/executor.py:362-383 | Over valid steps a session reports COMPLETED if and only if it is exhausted and the plan's last step succeeds, whatever failed before |
| Agent.EachStepRunsOnce | src/vcse/agent/executor.py:326-358 | The steps executed over all runs of a session are, in order, the completed steps: none runs twice |
| Agent.CompletedEarlyIff | src/vcse/agent/executor.py:200-235 | A first run reports COMPLETED with steps left over if and only if an invalid step, not itself marked failed, follows a non-empty successful prefix |
| Tokenizer.NormalizeIdempotent | src/vcse/index/tokenizer.py:11-30 | Normalising twice is normalising once, and tokenising the normal form gives the tokens of the text |
| Tokenizer.TokensAre | src/vcse/index/tokenizer.py:11-30 | The tokens of a text are exactly the maximal runs of letters, digits and underscores of its lower-cased form, in order |
| Text.RunsOfRun | src/vcse/index/tokenizer.py:18-30 | A non-empty text of token characters only is a single token, itself |
| Text.RunsApart | src/vcse/index/tokenizer.py:18-30 | Where a separator stands between two texts, the tokens are those of the first followed by those of the second |
| SymbolicIndex.Index.Build | src/vcse/index/index.py:44-75 | The built index holds the last feature of each id, the posting lists of all features, their lengths as document frequencies, and the average length |
| SymbolicIndex.Index.AddPostings | src/vcse/index/index.py:62-63 | The inner loop adds the artifact to the posting set of each of its tokens and changes no other |
| SymbolicIndex.Index.SetPacks | src/vcse/index/index.py:77-78 | The pack table has an entry for exactly the ids given, and each entry is the last pack given with that id: sorting by id is stable |
| SymbolicIndex.PackMapLaws | src/vcse/index/index.py:77-78 | Building the table from the packs sorted by id keeps the last given pack of every id and no other |
| SymbolicIndex.Length | src/vcse/index/index.py:22-24 | The length of an artifact is the sum of its token counts |
| SymbolicIndex.ExactPostingsIff | src/vcse/index/index.py:44-73 | Posting lists name exactly the artifacts that have the token if and only if no feature of a repeated id has a token its last feature lacks; distinct ids suffice |
| SymbolicIndex.FrequencyCounts | src/vcse/index/index.py:66-73 | A document frequency counts artifacts: positive and never more than there are, repeated ids or not |
| SymbolicIndex.AveragePositive | src/vcse/index/index.py:74-75 | The average length is positive as soon as some artifact has a counted token |
| SymbolicIndex.AverageIs | src/vcse/index/index.py:74-75 | The average length times the number of distinct ids is the total length of all features |
| SymbolicIndex.TotalLengthIs | src/vcse/index/index.py:47-61 | The total length counts every feature's tokens, features of a repeated id included |
| SymbolicIndex.LatestIsLast | src/vcse/index/index.py:49-60 | The artifact kept for an id is the last feature given with it |
| Retrieval.Score | src/vcse/index/bm25.py:16-31 | The scoring loop sums the BM25 terms of the query tokens the artifact has; what a term is, and how it moves, the rows of `ScoringLaws` say |
| ScoringLaws.TokenScoreIs | src/vcse/index/bm25.py:23-30 | The score s of one matched token satisfies s (tf avg + 0.3 avg + 0.9 length) = 2.2 w tf avg, where its weight w is ln(x) for the x with x (2 df + 1) = 2 (N + 1); it is positive and less than 2.2 w |
| ScoringLaws.RarerScoresMore | src/vcse/index/bm25.py:26-30 | Of two tokens an artifact has equally often, the one in fewer documents scores strictly more |
| ScoringLaws.MoreOftenScoresMore | src/vcse/index/bm25.py:28-30 | Of two artifacts of one length, the one that has the token more often scores strictly more |
| ScoringLaws.ShorterScoresMore | src/vcse/index/bm25.py:28-30 | Of two artifacts that have the token equally often, the shorter scores strictly more |
| ScoringLaws.QueryIsSum | src/vcse/index/bm25.py:22-31 | The score of a query is the sum of its parts' scores, each token as often as it is asked for |
| ScoringLaws.AbsentScoresNothing | src/vcse/index/bm25.py:23-26 | A token the artifact lacks adds nothing |
| ScoringLaws.CompositeIs | src/vcse/index/scoring.py:45-66 | On a non-empty query the composite is the kind's weight times the sum of BM25, 0.4 of the share of the distinct query tokens the artifact has, 0.2 of the share of the normalised ones, 0.25 for a shared relation hint, and the inverse of the priority, at least one |
| ScoringLaws.KindWeights | src/vcse/index/scoring.py:18-28 | The weight of every kind: 1.2 for synonyms and parser patterns, 1.1 for generation templates and proposer rules, 0.8 for verifier stubs, 1.0 for all others |
| RetrievalLaws.Bm25PositiveIff | src/vcse/index/bm25.py:16-31 | A BM25 score is never negative, and positive if and only if the artifact has a query token, for every strictly increasing logarithm with ln 1 = 0 |
| Retrieval.CandidateIds | src/vcse/index/retrieval.py:150-156 | The candidates are the union of the query tokens' posting lists |
| RetrievalLaws.CandidatesIff | src/vcse/index/retrieval.py:150-156 | The candidates are exactly the artifacts with a positive BM25 score |
| RetrievalLaws.NoCandidateDropped | src/vcse/index/scoring.py:45-66 | Every composite score on a non-empty query is positive, so the `score > 0` filter drops no candidate |
| Retrieval.ScoreAll | src/vcse/index/retrieval.py:115-127 | Scores the candidates in id order and keeps the positive ones |
| Retrieval.Compute | src/vcse/index/retrieval.py:102-146 | The computation behind a cache miss, with its empty-candidates exit |
| RetrievalLaws.RetrieveIsBruteForce | src/vcse/index/retrieval.py:102-146 | The ids returned are the first top_k of the scan of all artifacts ordered by descending score, then id |
| RetrievalLaws.TopKIsBest | src/vcse/index/retrieval.py:129-131 | On a built index the returned ids are the first of a list that holds every candidate exactly once, best first, up to the configured limit, a negative limit counting from the end |
| ScoringLaws.HigherFirst | src/vcse/index/retrieval.py:115-131 | Of two artifacts, one with a query token and the strictly higher composite is returned before the other, whatever the limit |
| ScoringLaws.RarerFirst | src/vcse/index/retrieval.py:102-146 | Of two artifacts alike but for one token each, both asked for equally often, the one whose token is in fewer artifacts is returned before the other, whatever the limit, the hints and the logarithm |
| ScoringLaws.ResultIs | src/vcse/index/retrieval.py:102-146 | Beside the ids: the first five are listed with their own composite scores, every candidate is counted, every artifact not returned counts as filtered out, and packs are selected only when there is a candidate |
| ScoringLaws.SelectPacksIs | src/vcse/index/pack_selector.py:17-43 | The selected packs are the first top_k of those that share a token or a hint, by descending score, then id; a score is one per distinct shared token, two per shared relation, a quarter per artifact type up to four, and the inverse of the priority |
| RetrievalLaws.BuiltSearchable | src/vcse/index/index.py:44-75 | Every built index can be searched: its posting lists name only artifacts it holds, repeated ids or not |
| Retrieval.KeyDetermines | src/vcse/index/retrieval.py:87-95 | Two queries with the same cache key have the same uncached result |
| Retrieval.Retriever.Retrieve | src/vcse/index/retrieval.py:77-148 | Whatever was asked before, on an unchanged index the answer is the uncached one, and the cache gains that entry only |
| Canonicalizer.CanonicalizeClaim | src/vcse/compression/canonicalizer.py:64-116 | The canonical form of a claim, or which check refuses it; what the form keeps of the raw fields, `CanonicalFields` and `QualifiersAre` say |
| Canonicalizer.CanonicalizesIff | src/vcse/compression/canonicalizer.py:64-95 | A claim has a canonical form if and only if its three fields are present and not blank: the checks after normalising never fire |
| Canonicalizer.RefusedFor | src/vcse/compression/canonicalizer.py:79-95 | A claim is refused for the first of subject, relation and object that has no word, and for nothing else |
| Canonicalizer.CanonicalFields | src/vcse/compression/canonicalizer.py:75-95 | Canonical subject and object have exactly the lower-cased words of their own raw fields, one space apart; the relation is the name of its alias class, or its own trimmed lower-cased text |
| Canonicalizer.SameCanonicalIff | src/vcse/compression/canonicalizer.py:12-95 | Field by field, two claims have the same canonical subject, object or relation if and only if their own lower-cased texts have the same words, the relations being the same text or in one alias class, the classes written out |
| Canonicalizer.QualifiersAre | src/vcse/compression/canonicalizer.py:97-109 | The canonical qualifiers are the raw items with a word in their key, the words of the lower-cased key with the words of the value, sorted by key and in insertion order within a key |
| Canonicalizer.IdempotentIff | src/vcse/compression/canonicalizer.py:53-116 | Canonicalising the dictionary of a canonical claim gives the claim back if and only if its qualifier keys are distinct |
| Canonicalizer.OrderIrrelevantIff | src/vcse/compression/canonicalizer.py:97-109 | The canonical qualifiers do not depend on insertion order if and only if entries that agree on the normalised key agree on the normalised value |
| Interning.Interner.Intern | src/vcse/compression/interner.py:25-37 | A known string keeps its id, a new one gets the next; both tables stay mutually inverse with dense ids |
| Interning.Interner.Resolve | src/vcse/compression/interner.py:39-46 | Resolving inverts interning: an id has a string exactly when it is below the number of names, and that string's id is it; any other id is the error |
| Interning.FromDict | src/vcse/compression/interner.py:64-74 | Loads both tables from the stored form, reading keys as `int` does (whitespace, sign, underscores) and refusing any other |
| Interning.ParseOfDecimal | src/vcse/compression/interner.py:57-74 | Reading a written decimal key gives the id back |
| Interning.StoredRoundTrip | src/vcse/compression/interner.py:57-74 | Saving with decimal-string keys and loading again gives both tables back |
| PackCompression.EncodeClaim | src/vcse/compression/dictionary.py:73-90 | Interns the strings of the claim in order and returns their ids; earlier ids do not move |
| PackCompression.DecodeClaim | src/vcse/compression/dictionary.py:51-70 | Resolves every id of a claim, or fails on the first unknown one |
| PackCompression.RowRoundTrip | src/vcse/compression/dictionary.py:93-112 | Writing an encoded claim as a row and reading it back gives it again |
| PackCompression.OptimizePack | src/vcse/compression/pack_optimizer.py:92-121 | The pack holds one row per canonicalisable claim and the intern table of their strings; skipped claims leave none |
| PackCompression.EncodePass | src/vcse/compression/pack_optimizer.py:115-121 | The encoding pass adds no ids to the table the first pass built, and skips the indices left over |
| PackCompression.CompressionRoundTrip | src/vcse/compression/pack_optimizer.py:92-121 | Row j, decoded through the stored and reloaded table, is the j-th canonicalisable claim's canonical form |
| PackCompression.DecompressPack | src/vcse/compression/decompressor.py:14-58 | Accepts a pack if and only if every row decodes and every original has a row that agrees with its own canonical form |
| PackCompression.AcceptsOwnPackIff | src/vcse/compression/decompressor.py:14-58 | A pack made by the optimiser passes its own integrity check if and only if every original claim has a canonical form |
| PackCompression.IterClaims | src/vcse/compression/runtime_index.py:31-47 | The triples of the rows, in order |
| PackCompression.Lookup | src/vcse/compression/runtime_index.py:49-85 | On any loaded tables, the triples whose ids equal those of the given filters, none when a filter is unknown; on tables that agree, the same triples in the same order as comparing strings over `iter_claims`, for every combination of filters |
| PackCompression.IndexOfPackLists | src/vcse/compression/runtime_index.py:31-85 | The index of an optimised pack is consistent and lists the triples of the canonicalised original claims, so a lookup is that selection over them |
| PackCompression.IndexOfPackTexts | src/vcse/compression/runtime_index.py:31-85 | A lookup in the index of a pack is the selection over the raw claims' own words, field by field, in order |
| MathGuard.Guard.Walk | src/vcse/agent/tools.py:102-162 | The walk with its shared counters, its early rejections and the reason each gives, including the static evaluation of a base before it is refused |
| MathGuard.AcceptedIff | src/vcse/agent/tools.py:102-162 | Whatever static evaluator it uses, the walk accepts a tree if and only if it has at most 64 nodes and 32 binary operations, only supported nodes and numeric constants, and only powers between bounded signed constants |
| MathGuard.NoNestedPowers | src/vcse/agent/tools.py:126-149 | No accepted tree has a power below a power: the nesting limit never decides |
| MathGuard.EvaluatorIrrelevant | src/vcse/agent/tools.py:65-99 | Replacing the static evaluator of bases by any other changes no acceptance and no count, only which of three ways a refusal blames the base |
| MathGuard.OpenBaseRefused | src/vcse/agent/tools.py:137-143 | A tree with a power anywhere whose base is no signed constant is refused, whatever the base evaluates to |
| MathGuard.PowersDefined | src/vcse/agent/tools.py:144-150 | Every power, anywhere in an accepted tree, has a defined value |
| MathGuard.EvaluatesIff | src/vcse/agent/tools.py:165-197 | An accepted tree evaluates without error if and only if it neither divides by zero nor uses an operator the evaluator lacks |
| MathGuard.ResultBounded | src/vcse/agent/tools.py:21-26 | An accepted tree of integer literals of magnitude at most M, without division, modulo or fractional exponents, has a value of magnitude at most max(M, 10^72)^33 |
| MathTool.SolveMath | src/vcse/agent/tools.py:331-336 | Guard, then evaluate: a result if and only if the tree is acceptable and free of faults; on trees of integer literals without division it is the number that integer fractions give |
| MathTool.MeaningIs | src/vcse/agent/tools.py:165-197 | On accepted trees of integer literals with sums, differences, products, signs and powers, the evaluator agrees with an independent calculation in integer fractions |
| MathTool.SumLaws | src/vcse/agent/tools.py:182-185 | A sum less its right operand is the left one, and a difference plus its right operand is too |
| MathTool.ProductLaws | src/vcse/agent/tools.py:186-187 | A product is zero for zero, the operand for one, distributes over sums, commutes, and changes sign with an operand |
| MathTool.DivisionLaws | src/vcse/agent/tools.py:188-193 | Nothing divides by zero; a quotient times its divisor is the dividend; floor quotient and remainder are the integer q and the m between zero and the divisor, on the divisor's side, with l = r q + m |
| MathTool.PowerLaws | src/vcse/agent/tools.py:194-195 | A power is one for exponent zero, one more factor for one more, the reciprocal for the opposite exponent; a negative base has no fractional power |
| MathTool.SignLaws | src/vcse/agent/tools.py:166-178 | A literal is its own value, a minus sign negates and a plus sign keeps |
| ArtifactEvaluation.EvaluateConstraints | src/vcse/generation/constraints.py:10-39 | The satisfied and the violated constraints, each in order; a kind other than the three known ones is a violation |
| ArtifactEvaluation.CheckFields | src/vcse/generation/evaluator.py:45-49 | One violation for each required field that is empty or not in use |
| ArtifactEvaluation.CheckCriteria | src/vcse/generation/evaluator.py:51-59 | Each non-blank success criterion is recorded as met or violated, ignoring case |
| ArtifactEvaluation.CheckType | src/vcse/generation/evaluator.py:95-128 | The violations of the artifact type: missing plan parts, missing config keys, missing sections, no Python function, content that is no object |
| ArtifactEvaluation.EvaluateArtifact | src/vcse/generation/evaluator.py:23-92 | Status, reasons, satisfied and violated items of an evaluation, with its early exits in order |
| ArtifactEvaluation.VerifiedIff | src/vcse/generation/evaluator.py:23-92 | VERIFIED_ARTIFACT if and only if the artifact awaits no clarification, has provenance and meets everything: all template and specification constraints, required fields, non-blank criteria, no contradiction, its type's shape, no requested tests; it then has no violations |
| SpecificationLaws.VerifiedMeans | src/vcse/generation/evaluator.py:23-92 | When the evaluator verifies, written out in the artifact's own items: every constraint granted, every required field with a value and used, every criterion a stretch of the lower-cased text, no contradiction, the shape of the type, no tests asked for |
| SpecificationLaws.ViolationsAre | src/vcse/generation/evaluator.py:42-92 | What is reported is exactly one violation for each demand not met, naming it, and then either the contradiction or what the shape lacks |
| SpecificationLaws.CountsAre | src/vcse/generation/evaluator.py:42-92 | What the ranking counts: one satisfied note for each constraint granted and each criterion found, repeats included, and one violation for each demand not met, one more for a contradiction |
| ArtifactEvaluation.FailedIff | src/vcse/generation/evaluator.py:35-86 | FAILED_ARTIFACT if and only if provenance is missing, or something is not met though nothing contradicts memory and no tests are requested; CONTRADICTORY_ARTIFACT exactly when a contradiction is found |
| GenerationPipeline.GenerateCandidates | src/vcse/generation/candidate.py:14-59 | One fresh candidate per template in (priority, id) order: the rendered body, or a request for clarification naming the missing fields |
| SpecificationLaws.CandidateIff | src/vcse/generation/candidate.py:21-58 | A candidate is put down for clarification if and only if a field its template requires has no item in the specification; otherwise its content is the template's own body rendered on the specification's fields |
| SpecificationLaws.FieldValuesAre | src/vcse/generation/templates.py:139-149 | The renderer is given every field under its own name, a text as itself, a list by its items in order, anything else by its text |
| GenerationPipeline.FillArtifact | src/vcse/generation/repair.py:34-38 | Fills every default whose field is absent, null or empty; reports a change if and only if there was one |
| SpecificationLaws.DefaultsAre | src/vcse/generation/repair.py:29-33 | The default of a key is the one its last constraint gives, and keys have a default only that way |
| SpecificationLaws.FillIs | src/vcse/generation/repair.py:34-38 | Filling gives exactly the fields that are absent, null or empty their default, and leaves every other field as it was |
| GenerationPipeline.RepairArtifact | src/vcse/generation/repair.py:17-57 | A copy repaired by at most the given number of attempts, each filling defaults or else switching template; the original is untouched |
| GenerationPipeline.ProcessAll | src/vcse/generation/pipeline.py:82-98 | Each candidate is evaluated, and when that fails repaired and evaluated again; earlier candidates do not affect later ones |
| GenerationPipeline.RunPipeline | src/vcse/generation/pipeline.py:47-123 | The whole pipeline: specification errors, missing values, template selection, candidate loop, ranking and report |
| SpecificationLaws.CompleteIff | src/vcse/generation/spec.py:32-59 | A specification is complete if and only if its type and mode are among those written out, its goal and every criterion are not blank, and every required field has a value |
| SpecificationLaws.SpecErrors | src/vcse/generation/spec.py:32-59 | Which code refuses a specification, and that the missing names are those of the fields that are null or blank |
| GenerationLaws.SelectIff | src/vcse/generation/pipeline.py:125-179 | Selection keeps exactly the templates of the artifact type that are allowed and selected by the index, ordered by (priority, id) |
| SpecificationLaws.SelectedOrder | src/vcse/generation/pipeline.py:125-138 | Selected templates come by ascending priority, then ascending id |
| GenerationLaws.DefaultNeverVerified | src/vcse/generation/repair.py:28-38 | Whoever asks for a default never gets a verified artifact: the evaluator counts the constraint that sets it as a violation |
| GenerationLaws.RepairRenders | src/vcse/generation/repair.py:26-57 | Without defaults, a repaired artifact still is a considered template's rendering, with that template's id and constraints |
| GenerationLaws.RepairLands | src/vcse/generation/repair.py:40-53 | Without default constraints, the two attempts amount to one switch to the landing template, or to nothing when every template has the same id |
| GenerationLaws.LandingIs | src/vcse/generation/repair.py:40-53 | The landing template is the first one when repair starts at its id, and otherwise the first with another id than that, however many templates there are |
| GenerationLaws.BestOfOutcomes | src/vcse/generation/pipeline.py:100-123 | The reported artifact is one of the outcomes, ranks before or level with every other, and is verified if and only if some outcome is; ranking loses and adds none |
| SpecificationLaws.RankIs | src/vcse/generation/pipeline.py:182-197 | The rank: verified, contradictory, inconclusive, clarification, failed; among equals fewer violations, then more satisfied, then more provenance, then the smaller template id |
| GenerationLaws.WinnerLaws | src/vcse/generation/pipeline.py:82-123 | A verified result has no violations, meets the whole specification, and its content is the body of a considered template, with its id, rendered on its own fields |
| GenerationLaws.PipelineVerifiedIff | src/vcse/generation/pipeline.py:82-123 | The result is VERIFIED_ARTIFACT if and only if some complete candidate's own rendering is acceptable, or it fails and the rendering of the template its repair lands on is acceptable; shared ids included |
| GenerationLaws.UnreadyWinsIff | src/vcse/generation/repair.py:40-53 | With distinct ids, candidate k ends verified under a template whose fields are missing if and only if it comes after the second template, is complete and fails, and the second template lacks fields but renders acceptably |
| GenerationLaws.UnreadyTemplateCanWin | src/vcse/generation/repair.py:40-53 | A concrete specification and three templates: whatever the text of the content, as long as it holds the criterion, which Python's does, and memory does not contradict the fields, the template put down for clarification is verified with its placeholder still open |
| GenerationLaws.OpenText | src/vcse/generation/evaluator.py:55-56 | The text Python gives for that content and those fields holds the criterion |
| Inference.InferInverse | src/vcse/inference/inverse.py:25-49 | The inverses of the claims whose keys are neither explicit nor produced already, in order |
| Inference.InversesAre | src/vcse/inference/inverse.py:25-49 | Each inferred inverse is an explicit claim with subject and object exchanged under the relation's inverse, carrying that claim's key; none is explicit or repeated, and every inverse is there or known, up to its key |
| Inference.InferTransitive | src/vcse/inference/transitive.py:24-59 | The indexed nested loops compute the two-hop claims with new keys, in order |
| Inference.JoinIsBruteForce | src/vcse/inference/transitive.py:32-59 | The keys inferred are those of all two-claim chains less the explicit ones; none repeats, and each claim carries the keys of two explicit witnesses |
| Inference.HopsAre | src/vcse/inference/transitive.py:32-59 | In the claims' own fields: each inferred claim places the first claim's subject in the second one's region, from a country claim and a part_of or located_in_region claim of that country, with both keys as witnesses; none is explicit or repeated, and every such conclusion is there or known, up to its key |
| Inference.JoinIsBruteForceOnTriples | src/vcse/inference/transitive.py:32-59 | With pipe-free fields the same holds of the claims themselves |
| Inference.SecondRoundEmptyIff | src/vcse/inference/transitive.py:24-59 | Feeding the output back infers nothing when no country object is itself a located_in_country subject ignoring case, whatever the fields; and, without pipes in subjects and objects, if and only if three explicit claims lead nowhere that two do not |
| Inference.Classify | src/vcse/benchmark_inference_classification.py:20-39 | The first of explicit, inverse, transitive that answers the target, ignoring case |
| Inference.ClassificationIff | src/vcse/benchmark_inference_classification.py:20-39 | When the target holds no pipe, or no subject or object of the claims does, the classification is the declarative one, for every inverse map: an explicit hit, else an inverse of a claim, else a chain of two, although suppression compares keys with case |
| Inference.ResolutionMonotone | src/vcse/benchmark_inference_classification.py:20-39 | Adding claims never turns an answer into unknown, for every inverse map, when the target holds no pipe, or no subject or object of the claims does |
| Inference.AnswersKeptIff | src/vcse/semantic/relation_ontology.py:14-17 | With the ontology's inverses, no claims added to any others take the answer to a target away if and only if it holds no pipe or its relation, ignoring case, is neither capital_of nor located_in_region |
| Inference.PipeBreaksMonotonicity | src/vcse/inference/inverse.py:25-49 | A concrete pair of claims over the ontology's inverses: the inverse answer turns into unknown when the second is added |
| Inference.KeyInjective | src/vcse/inference/transitive.py:19-21 | A key determines the claim as soon as one of two claims holds no pipe, or neither has one in subject or object |
| Conflicts.DetectGlobalConflicts | src/vcse/conflict/detector.py:54-124 | Grouping, sorting and pairwise comparison compute the conflict list |
| Conflicts.OneConflictPerPair | src/vcse/conflict/detector.py:54-124 | Exactly one conflict for each unordered pair of distinct objects that claims with the same stripped subject and functional relation assert, and no other |
| Conflicts.ConflictCites | src/vcse/conflict/detector.py:86-123 | Each conflict quotes the text and source of the least claim for each of its objects, and lists exactly the packs and sources involved, sorted without repeats |
| Conflicts.ReportInOrder | src/vcse/conflict/detector.py:72-123 | Conflicts are reported by subject, then relation, then first and second object |
| Conflicts.NoConflictIff | src/vcse/conflict/detector.py:54-124 | No conflict if and only if the functional claims form a partial function |
| Conflicts.OrderIrrelevant | src/vcse/conflict/detector.py:64-124 | The output list is the same for every permutation of the claims when (object, pack_id, claim_id) determines the source within a group |
| Identity.NormalizeEntityLaws | src/vcse/identity/normalizer.py:12-18 | Normalising an entity name is idempotent, and a normal name holds no `\|` |
| Identity.NormalizeEntityIs | src/vcse/identity/normalizer.py:12-18 | The normal form is the parts of the name joined by single underscores: the stretches of lower-cased word characters between spaces and underscores, other characters dropped |
| Identity.SameEntityIff | src/vcse/identity/normalizer.py:12-18 | Two names normalise to the same entity if and only if they have the same parts |
| Identity.AliasRegistry.Add | src/vcse/identity/alias_registry.py:14-17 | Records any entity: both tables keep describing exactly the entities added, the last id of each name and the texts of each id |
| Identity.AliasRegistry.GetCanonical | src/vcse/identity/alias_registry.py:19-23 | Among entities built from their texts, every recorded alias of an id resolves back to that id, and nothing resolves to an id it does not normalise to |
| Identity.AliasRegistry.DuplicateEntityCount | src/vcse/compiler/engine.py:146 | The duplicate entity count is zero for every registry of entities built from their texts, as the compiler's are |
| KnowledgeCompiler.Compilation.EmitValue | src/vcse/compiler/engine.py:75-130 | One expanded value: skipped when it normalises to nothing, otherwise recorded as an alias and emitted or counted as a duplicate, with its provenance row |
| KnowledgeCompiler.FactsIff | src/vcse/compiler/engine.py:49-75 | The facts compiled are exactly those some record states: its entity field is the subject, a mapped field holds the object, alone or as a list item, the relation is the one mapped, and both ends normalise to something |
| KnowledgeCompiler.SubjectsIff | src/vcse/compiler/engine.py:53-71 | The subjects registered are exactly the entity-field texts that normalise to something |
| KnowledgeCompiler.FirstFactsLaws | src/vcse/compiler/engine.py:88-113 | Keeping the first fact of each key leaves distinct keys, each the first of its key, and loses no key |
| KnowledgeCompiler.KeyInjective | src/vcse/compiler/engine.py:313-314 | Two claim keys are equal if and only if normalised subject, relation and normalised object are, even when the relation holds `\|` |
| KnowledgeCompiler.AliasesNamed | src/vcse/compiler/engine.py:63-87 | Every text a run records normalises to something, so looking it up finds its id |
| KnowledgeCompiler.CompilePack | src/vcse/compiler/engine.py:42-143 | Emitted claims plus duplicates are all facts; keys are distinct; every fact's key is emitted; each claim holds the subject, relation, object, normal forms, ids and key of the first fact of its key, provenance row i says where that fact was found, and the registry knows exactly the subjects and objects compiled |

## Left out

- Command line, HTTP routes, reports, benchmark timing and performance counters: input, output and plumbing.
- Files, JSON text, memory mapping and SQLite: packs are sequences and maps in memory, so the refusal to map an empty encoded file is not modelled; of serialisation only the decimal keys of the intern table are.
- Floating point: scores, lengths and expression values are exact reals, so rounding to eight places, overflow and the finiteness checks are not modelled.
- MathGuard.EvaluatesIff: a power with a fractional exponent is an arbitrary real function of a non-negative base, because its exact value is not expressible.
- MathTool.SolveMath: starts from the syntax tree; the character filter, the length limit and parsing are not modelled.
- Text is ASCII: Unicode case, whitespace and word characters are not modelled; regular expressions are written as explicit scans.
- RetrievalLaws.NoCandidateDropped: the score is compared with zero before rounding, because scores are exact reals.
- DslValidator.ValidateGenerationTemplate: field lists are lists of texts, and the payload's values are walked in a fixed key order, so other shapes of those fields are not modelled.
- GenerationLaws.RepairLands: repair in the presence of default constraints is modelled and proved never to verify (`DefaultNeverVerified`), but where its attempts end is not described.
- Agent.ExecuteStep: ledger logging, whose exceptions the code swallows, and the `Result` object that the state update ignores are not modelled; a tool is a deterministic function that returns or raises.
- Agent.ResumeTask: the task object passed through unchanged, and `run_task` around it, are not modelled.
- Retrieval.Retriever.Retrieve: the cache is not invalidated when the index is rebuilt under it, so results are for an unchanged index.
- SymbolicIndex.Index.Build: domain tags and frame types are copied and never read, and are not modelled; feature extraction from bundles is not either.
- PackCompression.OptimizePack: provenance compression, the graph index and the metrics are not modelled; provenance is paired by index, which is misaligned once a claim is skipped.
- PackCompression.EncodeClaim: models the encoder of canonical claims; `encode_claim`, which canonicalises first, is the composition of the two.
- Canonicalizer.CanonicalizeClaim: claims that are not dictionaries, and qualifiers of other types than text, are not modelled.
- GenerationPipeline.RunPipeline: the ranked artifacts are returned as values, so aliasing with the candidate objects is not modelled; the ids the template index selects are a parameter, since retrieval is modelled on its own; statistics are left out.
- ArtifactEvaluation.EvaluateArtifact: the text of content and fields that success criteria are sought in is an arbitrary function of both.
- KnowledgeCompiler.CompilePack: benchmark rows, the fixed evidence fields of a claim and the written pack are not modelled; the record id is given, row number or not, and records are dictionaries.
- Conflicts.DetectGlobalConflicts: the per-pack `detect` is a simpler form of the same comparison and is left out.
- World-state memory, search, verifiers, policy, trust, ledger, hashing, signing, bundle distribution and ingestion: separate subsystems, not part of this model.
