# Verified model of the log-to-incident pipeline

The program takes log events in, detects anomalies in their rates and signatures, groups anomalies of a
service into incidents, triages an incident once with four calls of a language model, and alerts on
every channel with a rate limit. Around this stand a service topology (who is affected by a failure), a
generator of cascading failures, a text normaliser, a prompt sanitiser, a runbook retriever and a risk
score. This project models that logic in Dafny and proves what holds of it for every input, every graph
and every run.

`dafny verify dfyconfig.toml` verifies everything.

## How it is organised

- **Text.** `Regex` gives regular expressions a language and a backtracking matcher and proves that they
  agree. `Substitution` is the leftmost, non-overlapping replacement built on it, with the facts about
  borders that the other files need, and `Greedy` shows that the engine takes the longest match wherever the
  next character decides. `Normalizer` and `Sanitizer` instantiate it with the patterns of the program.
  `Shapes` writes out what the seven patterns of the normaliser match, `Tokens` and `Masking` what becomes of
  such tokens inside messages, `Words` what becomes of white space, and `Redaction` what sanitising does.
  `Prompts` assembles the four prompts from sanitised text, `PromptLines` reads them line by line. `Breaks`
  follows markers across a line break, `DataBlocks` says when the data of a prompt holds no marker at all.
- **Graphs.** `Graph` defines the blast radius as reachability over dependents. `Topology` holds the
  engine as a class with the worklist algorithm, `FailureLayers` the breadth-first layering.
- **Numbers.** `Reals` proves the Cauchy-Schwarz inequality over lists of reals. `Detectors`,
  `Bucketing` and `Retrieval` use it. Square roots are avoided by comparing squares on the non-negative
  side: a detector's score is kept as the pair of deviation and variance, and retrieval ranks by squared
  similarities, which is proved to be the order of the similarities themselves. `Verdicts` says exactly when
  the detectors give a signal, in multiples of the standard deviation.
- **State.** `Records` has the rows of the tables. `Detection`, `Triage` and `Pipeline` give each step as a
  function on the tables, and `Session` is the imperative code: one database session whose methods change
  the tables in place and are proved equal to those functions. Rows that a step adds become visible to
  queries only after its commit (backend/app/db/session.py:26): duplicate and rate-limit checks are asked
  of the tables as they stood before the step.
- **Runs.** `Invariants` and `Runs` prove what every interleaving of ingestion, processing and status
  changes keeps. `Cases` shows that the pipeline on the shared tables refines one pipeline per service,
  `SessionWindows` that online correlation computes the session windows, `Independence` that the model's
  answers steer nothing but the reports, and `Risk` how the score moves. `Findings` tells what a run finds,
  `Reports` what a report says, `Outcomes` what a run does to the tables, and `Scores` what the score is, each
  in terms of the rows of the tables and without the functions of the pipeline. `Bursts` builds runs from empty
  tables that reach the situations which the invariants exclude by a condition, `Realised` events for every
  series of counts.
- **Interruptions.** A call of the model can raise an exception that no agent handles. `Interruptions` says
  when a triage completes and what later runs make of an interrupted one, `InterruptedRuns` carries the
  results about runs over to runs with interruptions, and `InterruptedPasses` says when the order of the
  services matters to a pass that an interruption ends.

Unicode enters as a record of tables: which characters are digits, word characters, white space or match
a letter without regard to case. `Sane` states what is assumed of them (digits and ASCII letters are
word characters, the punctuation of the patterns and white space are not), and `AsciiIsSane` shows that
the assumptions can be met. `Plain` adds, where line breaks matter, that a line break is white space and that
the letters T, P and R are not taken for s, i and e (`AsciiIsPlain`).

## Where a promise is false

- The executive-summary prompt inserts the model's actions as given (`ExecutivePromptOnce`, an
  equivalence, and the concrete `ExecutivePromptLeak`).
- Sanitising a runbook's title and content separately does not keep markers out of the remediation prompt:
  "###" and "system" pass unchanged and form a marker over the line break between them (`RunbookLeak`). The
  data block is marker-free exactly if no runbook's two fields join so (`RemediationUnmarkedIff`). The other
  three blocks are marker-free exactly if the event levels, or the actions, are (`ClassificationUnmarkedIff`,
  `RootCauseUnmarkedIff`, `ExecutiveUnmarkedIff`).
- A date or a clock between delimiters is not always masked on its own, because a blank is a delimiter and
  also stands inside timestamps. A date is exactly if it does not begin a timestamp (`DateIsMaskedIff`), a
  clock exactly if no date stands before it (`ClockIsMaskedIff`). All other tokens always are (`TokenIsMasked`).
- A threshold below the square root of n - 1 lets a z-score signal stay below an earlier bucket count
  (`RunMaximaThreshold`, an equivalence over all runs; `LowThreshold` gives the series and `SeriesIsRealised`
  the events). The defaults 3.0 and 10 meet it exactly.
- The alerts of every run are spaced by the rate limit exactly when no channel name occurs twice
  (`SpacingNeedsDistinctChannels`), because the check does not see the alerts of the same call.
- A status change can leave a service with two live incidents, exactly when it is not to RESOLVED and
  another incident of the service is live (`PatchKeepsOneLive`). Every valid configuration has a run that
  gets there by reopening a resolved incident (`ReopeningBreaksOneLive`).
- `root_service` can return a service that another candidate affects. It never does so, whatever the
  candidates, exactly on graphs without a misleading pair: two services with the same blast radius, of
  which the alphabetically first is in it (`RootsUpstreamIff`). Acyclic graphs have no such pair;
  `CycleMisleadsRoot` is a graph that has one.
- backend/app/triage/triage_service.py:3-5 says that agents never raise, but
  backend/app/triage/base_agent.py:46 catches four kinds of failure only. A triage completes exactly when the
  client gives an answer or a handled failure to each of the four prompts that its answers lead to
  (`TriageCompletesIff`). An interrupted run leaves its incident without report and alerts
  (`InterruptionHappens` gives one for every valid configuration), and running the service again at the same
  time does not repair it (`InterruptionIsNotRepaired`). A later run does exactly if it finds something,
  correlation picks this incident, and nothing raises (`ReportedIff`); then it also alerts every channel
  (`ReportedIsAlerted`). It need not come to that: once the correlation window has passed, the next findings
  open another incident, and the interrupted one stays untriaged for good (`NextRunMayAbandon`,
  `AbandonedForGood`).
- An interruption ends the pass over the services, and backend/app/api/routes/events.py:37-43 passes a set
  and swallows the exception. So the order decides which services are processed at all (`OrdersDiffer`). Two
  orders leave every service alike exactly if they reach the same ones among those with findings
  (`OrdersAgreeIff`).

## Model

| member | source | states |
|---|---|---|
| Regex.EndsAreAccepted | backend/app/ingestion/normalizer.py:13-24 | The backtracking matcher ends at j exactly if the text from i to j is in the language of the pattern. |
| Regex.RunLengthMaximal | backend/app/ingestion/normalizer.py:23-24 | A greedy repetition takes the longest stretch of its class that its limit allows. |
| Regex.FirstMatch | backend/app/ingestion/normalizer.py:59 | The engine reports a match at a position exactly if there is one, word boundaries included. |
| Regex.AsciiIsSane | backend/app/ingestion/normalizer.py:13-24 | The assumptions on the character tables hold of ASCII. |
| Substitution.SubKeepsFree | backend/app/ingestion/normalizer.py:58-59 | A pass removes every match of its own pattern and creates no match of a pattern that was absent, also across the edges of its placeholders. |
| Substitution.SubOfFree | backend/app/ingestion/normalizer.py:59 | A pass without a match changes nothing. |
| Substitution.GlueFree | backend/app/ingestion/normalizer.py:59 | Match-free texts around an inert placeholder stay match-free together. |
| Substitution.EndsPrefix | backend/app/ingestion/normalizer.py:59 | Cutting the text keeps the order of the matches that remain: the engine prefers the same ones. |
| Substitution.EndsSuffix | backend/app/ingestion/normalizer.py:59 | Dropping a prefix only shifts the matches and keeps their order. |
| Substitution.SubSplit | backend/app/ingestion/normalizer.py:59 | A pass treats the two sides of a border independently when no match straddles it. |
| Normalizer.GenerateSignature | backend/app/ingestion/normalizer.py:55-60 | The loop over the seven patterns, the collapse and the strip compute the signature that the lemmas below are about. |
| Normalizer.PassesFree | backend/app/ingestion/normalizer.py:26-35 | After n passes none of the first n patterns matches anywhere: later passes never bring one back. |
| Normalizer.TimestampHasNumber | backend/app/ingestion/normalizer.py:16-18 | The only pattern that matches across a blank contains a plain number before it. |
| Normalizer.SignatureIsPatternFree | backend/app/ingestion/normalizer.py:55-60 | None of the seven patterns matches anywhere in a signature. |
| Normalizer.SignatureIsCollapsed | backend/app/ingestion/normalizer.py:60 | A signature has single blanks inside and no white space at its ends. |
| Normalizer.SignatureFixpoint | backend/app/ingestion/normalizer.py:55-60 | A string is its own signature if and only if it is pattern-free, collapsed and stripped. |
| Normalizer.SignatureIdempotent | backend/app/ingestion/normalizer.py:55-60 | The signature of a signature is that signature, for every message. |
| Greedy.EndsDescend | backend/app/ingestion/normalizer.py:13-24 | Where the next character decides whether a match goes on, the engine tries longer matches before shorter ones: repetitions and optional groups are greedy. |
| Greedy.FirstIsLongest | backend/app/ingestion/normalizer.py:59 | The reported match is the longest at its position. |
| Greedy.SubReplaces | backend/app/ingestion/normalizer.py:59 | A pass is the one text in which the leftmost match, the longest at its place, is replaced and so on behind it: the language alone determines it. |
| Shapes.TokenLanguage | backend/app/ingestion/normalizer.py:13-23 | The seven patterns match exactly the timestamps, dates, clocks, UUIDs, addresses, hexadecimal literals and numbers as they are written out character by character. |
| Tokens.PassReplaces | backend/app/ingestion/normalizer.py:27-35 | Each of the seven passes is such a leftmost longest replacement of its tokens by its placeholder. |
| Tokens.TokenHasNoEarlier | backend/app/ingestion/normalizer.py:26-35 | No token holds a match of an earlier pattern, so the order of the patterns leaves it whole. |
| Tokens.PassesAround | backend/app/ingestion/normalizer.py:57-59 | Around a token over whose ends no timestamp reaches, the passes work on the two sides alone and replace the token as a whole. |
| Masking.TokenIsMasked | backend/app/ingestion/normalizer.py:57-59 | A delimited token, dates and clocks excepted, becomes the placeholder of its kind, and its sides become what they become alone. |
| Masking.TimestampIsMasked | backend/app/ingestion/normalizer.py:16-18 | Date, T or blank, clock with or without fraction, with or without zone: one <TIMESTAMP>. |
| Masking.UuidIsMasked | backend/app/ingestion/normalizer.py:13-15 | Hexadecimal groups of 8, 4, 4, 4 and 12 with dashes: <UUID>. |
| Masking.AddressIsMasked | backend/app/ingestion/normalizer.py:21 | Four groups of one to three digits with dots: <IP>. |
| Masking.HexIsMasked | backend/app/ingestion/normalizer.py:22 | 0x or 0X and hexadecimal digits: <HEX>. |
| Masking.NumberIsMasked | backend/app/ingestion/normalizer.py:23 | Digits, with or without a decimal fraction: one <NUM>. |
| Masking.DateIsMaskedIff | backend/app/ingestion/normalizer.py:19 | A delimited date becomes a <TIMESTAMP> of its own if and only if no timestamp begins with it. |
| Masking.ClockIsMaskedIff | backend/app/ingestion/normalizer.py:20 | A delimited clock becomes a <TIMESTAMP> of its own if and only if no date stands before it. |
| Masking.SignatureLocality | backend/app/ingestion/normalizer.py:3-5 | Which token of a kind stands at a place does not show in the signature. |
| Masking.SameTemplateSameSignature | backend/app/ingestion/normalizer.py:3-5 | Messages that differ only in any number of delimited tokens, kind by kind, have the same signature. |
| Words.SignatureIsJoinedWords | backend/app/ingestion/normalizer.py:60 | A signature is the words that the passes leave, joined by single blanks. |
| Redaction.MarkerLanguage | backend/app/triage/sanitize.py:6-9 | The pattern matches exactly the five markers as they are written, in any case and with any white space where it is allowed. |
| Redaction.SanitizeMeans | backend/app/triage/sanitize.py:13-17 | Control characters are dropped by code point, markers replaced from left to right, and the first 1000 characters kept. |
| Redaction.HarmlessPasses | backend/app/triage/sanitize.py:13-17 | A text of at most 1000 characters without markers and without code points 0-8, 11, 12 and 14-31 passes unchanged. |
| Sanitizer.SanitizedIsHarmless | backend/app/triage/sanitize.py:13-17 | Sanitised text has no control character and no injection marker, and is at most 1000 long. |
| Sanitizer.SanitizeFixpoint | backend/app/triage/sanitize.py:13-17 | A text passes unchanged if and only if it has these three properties. |
| Sanitizer.SanitizeIdempotent | backend/app/triage/sanitize.py:13-17 | Sanitising twice is sanitising once. |
| Prompts.DelimiterIsMarker | backend/app/triage/sanitize.py:6-9 | The closing delimiter of the templates is one of the markers that are redacted. |
| Prompts.SanitizedClean | backend/app/triage/sanitize.py:13-17 | Sanitised text never contains the closing delimiter. |
| Prompts.FramedOnce | backend/app/triage/prompts.py:16-21 | A template holds the delimiter exactly once if and only if its data does not hold it. |
| Prompts.ClassificationPromptOnce | backend/app/triage/agents/classification_agent.py:14-20 | A classification prompt holds the delimiter exactly once, if and only if no event level brings it in. |
| Prompts.RootCausePromptOnce | backend/app/triage/agents/root_cause_agent.py:14-25 | The same for a root-cause prompt and every category. |
| Prompts.RemediationPromptOnce | backend/app/triage/agents/remediation_agent.py:28-51 | A remediation prompt holds the delimiter exactly once, whatever the incident, the cause and the runbooks say. |
| Prompts.ExecutivePromptOnce | backend/app/triage/agents/executive_summary_agent.py:22-27 | An executive-summary prompt holds the delimiter exactly once if and only if no recommended action contains it. |
| PromptLines.ClassificationLines | backend/app/triage/prompts.py:8-22 | The classification prompt line by line, with one line per event. |
| PromptLines.RootCauseLines | backend/app/triage/prompts.py:24-38 | The root-cause prompt line by line. |
| PromptLines.RemediationLines | backend/app/triage/prompts.py:40-54 | The remediation prompt line by line, with title and first 800 characters of each runbook. |
| PromptLines.ExecutiveLines | backend/app/triage/prompts.py:56-70 | The executive-summary prompt line by line, with one line per action. |
| PromptLines.SummaryReads | backend/app/triage/triage_service.py:92-102 | The summary names service, severity, number of anomalies and their signatures in order. |
| PromptLines.QueryReads | backend/app/triage/triage_service.py:56-59 | Runbooks are looked up by category, cause and signatures. |
| Breaks.LinesFreeIff | backend/app/triage/sanitize.py:6-9 | Two marker-free lines are marker-free together exactly if the first does not end as a marker begins and the second goes on with its rest. |
| Breaks.RunbookFreeIff | backend/app/triage/agents/remediation_agent.py:48-51 | A rendered runbook is marker-free exactly if its sanitised title and content do not join so. |
| DataBlocks.DataOfPrompts | backend/app/triage/prompts.py:8-70 | The four blocks below are what the templates hold between their delimiters. |
| DataBlocks.ClassificationUnmarkedIff | backend/app/triage/agents/classification_agent.py:14-20 | The data of a classification prompt holds no marker, if and only if no event level does. |
| DataBlocks.RootCauseUnmarkedIff | backend/app/triage/agents/root_cause_agent.py:14-25 | The same for the data of a root-cause prompt and every category. |
| DataBlocks.RemediationUnmarkedIff | backend/app/triage/agents/remediation_agent.py:28-51 | The data of a remediation prompt holds no marker, if and only if no runbook's title and content join. |
| DataBlocks.ExecutiveUnmarkedIff | backend/app/triage/agents/executive_summary_agent.py:22-27 | The data of an executive-summary prompt holds no marker, if and only if no recommended action does. |
| DataBlocks.RunbookLeak | backend/app/triage/agents/remediation_agent.py:44-51 | A runbook whose two fields pass sanitising unchanged and bring a marker into the prompt. |
| DataBlocks.AsciiIsPlain | backend/app/triage/sanitize.py:6-9 | The further assumptions on the character tables hold of ASCII. |
| Prompts.ExecutivePromptLeak | backend/app/triage/agents/executive_summary_agent.py:26 | The action consisting of the delimiter makes the prompt hold it more than once. |
| Graph.BlastIsAffected | backend/app/topology/topology_engine.py:32-43 | A service is in the blast radius exactly if a chain of at least one dependency leads from it to the failing one. |
| Graph.BlastByClosure | backend/app/topology/topology_engine.py:35-43 | A set of affected services that holds all direct dependents and is closed under dependents is the blast radius. |
| Graph.ImpactIsLeastClosed | backend/app/api/routes/topology.py:33-40 | The impacted set is the least one that contains the failing services and is closed under dependents. |
| Topology.TopologyEngine.constructor | backend/app/topology/topology_engine.py:13-21 | The engine knows every mentioned service and the exact inverse of the dependency map. |
| Topology.TopologyEngine.CollectNodes | backend/app/topology/topology_engine.py:15-17 | The nodes are the keys and everything some service depends on. |
| Topology.TopologyEngine.Inverse | backend/app/topology/topology_engine.py:18-21 | Every node is mapped to exactly the services that depend on it. |
| Topology.TopologyEngine.BlastRadius | backend/app/topology/topology_engine.py:32-43 | The worklist terminates on every graph with exactly the affected services; an unknown service affects none. |
| Topology.TopologyEngine.RootService | backend/app/topology/topology_engine.py:45-49 | None exactly if no candidate is known; otherwise a known candidate of widest blast radius, the alphabetically first of equals. |
| Topology.UpstreamOfRoot | backend/app/topology/topology_engine.py:45-49 | On every graph, a candidate that affects the returned one has the same blast radius, and the returned one lies on a cycle. |
| Topology.RootsUpstreamIff | backend/app/topology/topology_engine.py:45-49 | For every list of candidates no other known candidate affects the returned one, if and only if the graph has no misleading pair. |
| Topology.RootIsMostUpstream | backend/app/topology/topology_engine.py:45-49 | On an acyclic graph no known candidate affects the returned one. |
| Topology.CycleMisleadsRoot | backend/app/topology/topology_engine.py:45-49 | A cyclic graph with a misleading pair, on which the returned service is affected by another candidate that it does not affect. |
| Topology.ImpactedServices | backend/app/api/routes/topology.py:33-40 | The loop collects exactly the services with unresolved incidents and all they affect; incidents without a service are skipped. |
| FailureLayers.Reverse | scripts/synth/scenarios/dependency_failure.py:72-77 | Every service is listed alphabetically, once, under each of its dependencies and nowhere else. |
| FailureLayers.Expand | scripts/synth/scenarios/dependency_failure.py:85-90 | The next frontier is every dependent of the frontier not seen before, each once. |
| FailureLayers.FailureLayers | scripts/synth/scenarios/dependency_failure.py:80-94 | Layer d is, alphabetically, the services whose shortest chain to the root has d hops; after the last layer there are none. |
| FailureLayers.NothingBeyond | scripts/synth/scenarios/dependency_failure.py:84-93 | An empty distance ends the search: no service is farther away. |
| FailureLayers.LayersAreBlastRadius | scripts/synth/scenarios/dependency_failure.py:80-94 | The layers without the root are the blast radius without the root, on cyclic graphs too: both implementations agree. |
| FailureLayers.LayersDisjoint | scripts/synth/scenarios/dependency_failure.py:88-90 | No service is in two layers. |
| FailureLayers.CascadeFollowsDependencies | scripts/synth/scenarios/dependency_failure.py:56-58 | A service that may fail depends on one in the layer above that could fail a full layer delay earlier. |
| Reals.CauchySchwarz | backend/app/rag/embedder.py:32-35 | The square of a dot product is at most the product of the squared norms. |
| Detectors.Samuelson | backend/app/detection/strategies/error_rate_z_score.py:23-24 | No baseline value is more than the square root of n - 1 population deviations from the mean. |
| Detectors.BeyondSamuelson | backend/app/detection/strategies/error_rate_z_score.py:27-28 | A value that many deviations above the mean is at least every baseline value, and above it if the threshold is strictly larger. |
| Detectors.EwmaDetect | backend/app/detection/strategies/error_rate_ewma.py:20-33 | The smoothing loop and the comparison compute the specified signal, for too short and for constant baselines too. |
| Detectors.SmoothedIsWeighted | backend/app/detection/strategies/error_rate_ewma.py:27-29 | The loop equals the closed-form weighted sum of its samples. |
| Detectors.WeightsAreConvex | backend/app/detection/strategies/error_rate_ewma.py:27-29 | For alpha between 0 and 1 the weights are non-negative and add up to 1. |
| Detectors.SmoothedWithinBaseline | backend/app/detection/strategies/error_rate_ewma.py:27-29 | The smoothed value stays within any bounds of the baseline. |
| Verdicts.VarianceOfSquares | backend/app/detection/strategies/error_rate_z_score.py:23-24 | The variance is the mean of the squares less the square of the mean. |
| Verdicts.ZScoreVerdict | backend/app/detection/strategies/error_rate_z_score.py:19-30 | With d the standard deviation, a signal is given if and only if there are enough samples and the value is at least the threshold times d above the mean. |
| Verdicts.EwmaVerdict | backend/app/detection/strategies/error_rate_ewma.py:20-33 | The same above the weighted sum of the samples. |
| Verdicts.NewestWeighsMost | backend/app/detection/strategies/error_rate_ewma.py:27-29 | The newest sample weighs alpha, an older one 1 - alpha times the next. |
| Verdicts.SignatureVerdict | backend/app/detection/strategies/signature_frequency.py:24-30 | A burst is signalled if and only if the count reaches the floor and the multiple of the mean. |
| Verdicts.SteadyIsQuiet | backend/app/detection/strategies/error_rate_ewma.py:24-26 | A baseline that does not vary gives no signal of either rate detector. |
| Verdicts.SignalsTell | backend/app/detection/strategies/signature_frequency.py:24-30 | A signal carries the value, what it was compared with, and by how many deviations or times it exceeds that. |
| Verdicts.UnitsDoNotMatter | backend/app/detection/strategies/error_rate_ewma.py:20-33 | Scaling baseline and value by one positive factor changes no verdict of the rate detectors. |
| Detectors.EwmaSignalIsAbove | backend/app/detection/strategies/error_rate_ewma.py:30-32 | For a positive threshold a signal lies above the smoothed value and above some sample. |
| Detectors.SignatureBurst | backend/app/detection/strategies/signature_frequency.py:24-30 | A burst reaches the floor, and its score the multiplier when there is a mean to compare with. |
| Bucketing.Bucketize | backend/app/detection/detection_service.py:95-111 | The loop over the cells computes, for each bucket, the number of timestamps that fall into it. |
| Bucketing.SeriesConserves | backend/app/detection/detection_service.py:99-110 | The buckets add up to the number of timestamps newer than the left edge, future ones included. |
| Bucketing.SeriesPermuted | backend/app/detection/detection_service.py:95-111 | The series does not depend on the order in which the events are read. |
| Bucketing.SeriesSlides | backend/app/detection/detection_service.py:99-110 | One bucket later the series of past events has moved by one, and the last bucket is empty. |
| Retrieval.Embed | backend/app/rag/embedder.py:28-31 | The loop counts, per bucket, the tokens that hash into it. |
| Retrieval.EmbeddingPermuted | backend/app/rag/embedder.py:28-35 | The embedding depends only on the multiset of tokens. |
| Retrieval.SimilarityIsRoot | backend/app/rag/retriever.py:37 | The dot product of two normalised embeddings is the non-negative root of the squared similarity. |
| Retrieval.CosineInUnit | backend/app/rag/retriever.py:37 | Similarities of texts lie between 0 and 1. |
| Retrieval.CosineOfSelf | backend/app/rag/embedder.py:32-35 | A text with tokens has similarity 1 to itself, the empty text similarity 0. |
| Retrieval.RetrievalIsOptimal | backend/app/rag/retriever.py:35-43 | The result is the first k of all runbooks that meet the threshold, and none left out belongs before one returned. |
| Retrieval.RetrievalBySimilarity | backend/app/rag/retriever.py:35-43 | Returned runbooks meet the threshold by similarity, stand by falling similarity and then slug, and precede every one that meets it and is left out. |
| Retrieval.NoTies | backend/app/rag/retriever.py:39 | Entries that precede each other agree in slug and similarity. |
| Retrieval.RetrievalIsDetermined | backend/app/rag/retriever.py:35-43 | With distinct slugs the first k qualifying runbooks in order are one list only, the one returned. |
| Sorting.SortSorts | backend/app/rag/retriever.py:39 | Sorting by a total preorder is an ordered permutation. |
| Sorting.StringLeMeans | backend/app/rag/retriever.py:39 | Texts compare by their first difference, a beginning before its continuation. |
| Sorting.DedupInOrder | backend/app/pipeline/pipeline_service.py:58 | Keeps every service once, in order of first mention. |
| Detection.FoundShape | backend/app/detection/detection_service.py:63-79 | One run finds no key twice and no stored key again, and only anomalies of its service and window. |
| Detection.FoundDepends | backend/app/detection/detection_service.py:52-93 | What a run finds depends only on the service's own events and the service's own stored keys. |
| Detection.FoundAgain | backend/app/detection/detection_service.py:88-93 | Once its findings are stored, the same run finds nothing. |
| Detection.FoundPermuted | backend/app/repositories/event_repository.py:44 | A run finds the same anomalies in the same order, in whatever order the event rows are read. |
| Detection.QueryIsEnough | backend/app/detection/detection_service.py:56-57 | The queried events give the same series of errors, and of every signature, as all events of the service. |
| Detection.SeriesByKeyAddUp | backend/app/detection/detection_service.py:70-73 | The series of the signatures found in the events add up, bucket by bucket, to the series of all of them. |
| Detection.RateSpikeIsMaximum | backend/app/detection/detection_service.py:54-68 | With a threshold that is high enough for the sample count, a rate spike is no smaller than any bucket of its window, and larger if the threshold is strictly higher. |
| Detection.LowThreshold | backend/app/detection/strategies/error_rate_z_score.py:19-30 | For every lower threshold a series of counts that is signalled although an earlier bucket was higher. |
| Detection.MaximaThreshold | backend/app/detection/strategies/error_rate_z_score.py:19-30 | Over all series of counts a run can pass, every signal is a maximum if and only if there is one baseline bucket or the threshold is non-negative with square at least n - 1. |
| Findings.SlotIsBucket | backend/app/detection/detection_service.py:99-110 | The bucket of a timestamp, by its edges: open on the left, closed on the right, and the last one without end. |
| Findings.FoundIff | backend/app/detection/detection_service.py:52-93 | An anomaly is found if and only if one of the three detectors says it of the numbers of ERROR and CRITICAL rows, or of the rows of an occurring signature, in the buckets, and no anomaly with its key is stored. |
| Findings.LevelsByKind | backend/app/detection/detection_service.py:24 | ERROR and CRITICAL count alike, INFO and WARN count alike: a run finds the same. |
| Realised.SeriesIsRealised | backend/app/detection/detection_service.py:95-111 | Every series of counts is the error series of a run over some events, whichever of the two levels each error has. |
| Realised.RunMaximaThreshold | backend/app/detection/strategies/error_rate_z_score.py:19-30 | The z-score signals of all runs, over all events, are maxima of their series exactly under this condition. |
| Realised.SignalIsFound | backend/app/detection/detection_service.py:63-68 | With nothing stored a run reports the signal of its series as an anomaly. |
| Detection.DefaultSignalsAreMaxima | backend/app/core/config.py:46-47 | The default threshold and sample count make every signal a maximum. |
| Pipeline.FindOpen | backend/app/repositories/incident_repository.py:36-46 | A live incident of the service, or none exactly if none is unresolved and touched within the window. |
| Pipeline.Latest | backend/app/repositories/incident_repository.py:44 | Of the live incidents the one touched last. |
| Pipeline.DeriveSeverity | backend/app/incidents/incident_service.py:15-23 | The rank of the severity grows by one per anomaly from one to four and not beyond. |
| Session.Session.Ingest | backend/app/repositories/event_repository.py:22-24 | Appends the events and changes nothing else. |
| Session.Session.DetectRates | backend/app/detection/detection_service.py:63-68 | Runs the two rate detectors in order on the error series and keeps what is not a duplicate. |
| Session.Session.DetectBursts | backend/app/detection/detection_service.py:70-79 | Runs the burst detector once per signature, in sorted order. |
| Session.Session.AnalyzeService | backend/app/detection/detection_service.py:52-86 | Appends exactly what detection finds against the rows committed before, unlinked. |
| Session.Session.Link | backend/app/incidents/incident_service.py:79-81 | Links the new rows, and only those, to the incident. |
| Session.Session.OpenIncident | backend/app/incidents/incident_service.py:33-47 | Appends one open incident with the severity of its anomalies and links them. |
| Session.Session.AttachAnomalies | backend/app/incidents/incident_service.py:49-58 | Links the new rows and derives the severity from all anomalies linked by then, the old ones included. |
| Session.Session.Correlate | backend/app/correlation/correlation_engine.py:27-36 | Nothing happens without anomalies; otherwise the live incident touched last absorbs them, or a new one is opened. |
| Session.Session.UpdateStatus | backend/app/incidents/incident_service.py:69-77 | Changes status and times of one incident; an unknown one is an error and changes nothing. |
| Session.Session.Log | backend/app/triage/base_agent.py:32-66 | One record per call, on success and on each handled failure. |
| Session.Session.TriageIncident | backend/app/triage/triage_service.py:40-81 | The four agents in order, each seeing the answers or fallbacks of the earlier ones; four records and one report, or the records before the call that raises. |
| Session.Session.RaiseForIncident | backend/app/alerts/alert_service.py:47-70 | The loop appends one alert per channel without a recent one, judged by the rows committed before. |
| Session.Session.ProcessService | backend/app/pipeline/pipeline_service.py:44-54 | The whole step: nothing without findings; otherwise correlate, triage while untriaged, alert; an exception of the triage ends it there. |
| Session.Session.ProcessServices | backend/app/pipeline/pipeline_service.py:56-62 | Every service once, in order of first mention, up to an exception; returns the touched incidents. |
| Triage.FourCalls | backend/app/triage/triage_service.py:46-72 | A triage makes one call per agent, in the fixed order, for any answers and failures. |
| Triage.OutageReport | backend/app/triage/triage_service.py:74-80 | When all four calls failed, the report is the fixed fallback up to the runbook references. |
| Reports.TriageTells | backend/app/triage/triage_service.py:46-90 | Category, cause, actions and summary of a report are the answers to the four logged prompts, each failed call alone gives its own fallback, and the confidence is the mean of the two confidences, 0 for a failed call. |
| Reports.TriageAsks | backend/app/triage/triage_service.py:46-72 | Each prompt is about the incident and what the report says by then, and the references are the retrieved runbooks in order. |
| Reports.TopEventsTell | backend/app/triage/triage_service.py:104-108 | An anomaly is shown by its signature, or its strategy without one, with its value without fraction. |
| Reports.TriageTraced | backend/app/triage/triage_service.py:74-81 | A triage in which nothing raises writes such a report and logs its four calls. |
| Reports.RunReportsTraced | backend/app/triage/triage_service.py:74-90 | After every run each report is what one of the run's clients said to four prompts that the log holds of its incident. |
| Triage.TriageIsStateless | backend/app/triage/triage_service.py:40-90 | With a model that depends on the prompt alone, a triage does not depend on the calls made before. |
| Triage.TriagePromptsOnce | backend/app/triage/triage_service.py:46-72 | In every triage the first three logged prompts hold the delimiter exactly once, the fourth if and only if no recommended action contains it. |
| Invariants.AbsorbedConsistent | backend/app/correlation/correlation_engine.py:27-36 | Correlation keeps links, unique keys, derived severities, log and alert keys consistent. |
| Invariants.TriagedLogged | backend/app/pipeline/pipeline_service.py:51-52 | Triage keeps the log at four calls per triaged incident and none per untriaged one. |
| Text.DecimalReads | backend/app/alerts/alert_service.py:52 | Decimal text denotes its number and has no leading zero. |
| Text.IntTextReads | backend/app/triage/base_agent.py:78 | The text of an integer denotes it, with a minus sign exactly if it is negative. |
| Invariants.DedupKeyInjective | backend/app/alerts/alert_service.py:52 | A dedup key determines its incident and its channel, whatever the channel's name. |
| Invariants.RaisedSpaced | backend/app/alerts/alert_service.py:47-70 | With distinct channels a call keeps alerts of one key more than the rate limit apart and in rising order, whatever the clock says. |
| Invariants.EveryChannelAlerted | backend/app/alerts/alert_service.py:51-65 | After a call every channel has an alert for the incident no older than the rate limit. |
| Outcomes.FiredPerChannel | backend/app/alerts/alert_service.py:47-70 | A call alerts a channel as often as it is listed, and not at all if there is an alert about the incident on it within the rate limit. |
| Outcomes.BusyRun | backend/app/pipeline/pipeline_service.py:44-54 | A run with findings links them to the incident it returns, dates it, derives its severity, keeps everything else, and alerts every channel about it unless a call raises. |
| Outcomes.QuietRun | backend/app/pipeline/pipeline_service.py:46-47 | A run without findings changes nothing and returns no incident. |
| Outcomes.RunDated | backend/app/incidents/incident_service.py:33-77 | In every run an incident carries the times of the first and of the last step that touched it. |
| Invariants.AlertsPerSpan | backend/app/repositories/alert_repository.py:21-23 | In any span T a channel carries at most T / (R + 1) + 1 alerts for an incident. |
| Invariants.ProcessedConsistent | backend/app/pipeline/pipeline_service.py:44-54 | A run for a service keeps all five invariants. |
| Invariants.UpdatedConsistent | backend/app/incidents/incident_service.py:69-77 | A status change keeps all five invariants. |
| Runs.RunConsistent | backend/app/pipeline/pipeline_service.py:44-62 | After every run each anomaly is linked to an incident of its service, no two share a key, severities are derived from the linked counts, and every incident has exactly its four calls in order. |
| Runs.RunSpaced | backend/app/alerts/alert_service.py:47-70 | With distinct channels the alerts of every run are spaced, without any assumption on the clock. |
| Runs.CountsAddUp | backend/app/incidents/incident_service.py:79-81 | The anomaly counts of the incidents add up to the number of anomalies. |
| Runs.SeverityNeverFalls | backend/app/incidents/incident_service.py:49-58 | No step lowers the severity of an incident or removes one. |
| Runs.RunStamped | backend/app/incidents/incident_service.py:69-77 | In every run an incident has the status of the last change addressed to it and carries the time of the last one that resolved it. |
| Runs.RunPromptsOnce | backend/app/triage/triage_service.py:46-72 | In the log of every run each prompt of the first three agents holds the delimiter exactly once, and the fourth of an incident does if and only if no action in its report contains it. |
| Runs.ProcessedAgain | backend/app/repositories/anomaly_repository.py:22-39 | Processing a service again at the same time returns nothing and changes no table. |
| Runs.PatchKeepsOneLive | backend/app/incidents/incident_service.py:69-77 | A status change keeps services at one live incident if and only if it resolves, hits no row, or no other incident of the service is live. |
| Runs.RunOneLive | backend/app/correlation/correlation_engine.py:32-36 | In runs with such status changes and a clock that does not run backwards, no service ever has two live incidents. |
| Bursts.BurstIsFound | backend/app/detection/strategies/signature_frequency.py:24-30 | A burst of one signature after an empty window is detected under every valid configuration. |
| Bursts.SpacingNeedsDistinctChannels | backend/app/alerts/alert_service.py:51-65 | The alerts of every run are spaced by the rate limit if and only if the channel names are distinct. |
| Bursts.ReopeningBreaksOneLive | backend/app/incidents/incident_service.py:69-77 | For every valid configuration an orderly run reaches a state where reopening a resolved incident gives its service two live ones. |
| Interruptions.TriageCompletesIff | backend/app/triage/triage_service.py:40-81 | A triage writes its report if and only if the client gives an answer or a handled failure to its classification prompt and to the three prompts that these lead to. |
| Interruptions.InterruptedTriage | backend/app/triage/base_agent.py:38-56 | Otherwise it logs the calls before the first that raises, and changes nothing else. |
| Interruptions.QuietRuns | backend/app/pipeline/pipeline_service.py:44-54 | Runs whose clients answer as the model does, so that nothing raises, are the runs of the pipeline. |
| Interruptions.QuietPass | backend/app/pipeline/pipeline_service.py:56-62 | A pass in which nothing raises processes all its services and returns the touched incidents. |
| Interruptions.InterruptedRunSound | backend/app/triage/prompt_log.py:77-81 | After every run, whatever its clients raise, links, keys and severities are as without interruptions, each log is aborted triages and then a complete one exactly if there is a report, and only triaged incidents have alerts. |
| Interruptions.InterruptionHappens | backend/app/pipeline/pipeline_service.py:51-52 | For every valid configuration, a burst on empty tables while the client is down is interrupted. |
| Interruptions.InterruptionIsNotRepaired | backend/app/pipeline/pipeline_service.py:44-54 | An interrupted run leaves its incident without report and new alerts, and running the service again at the same time, with any client, changes nothing. |
| Interruptions.ReportedIff | backend/app/pipeline/pipeline_service.py:45-52 | A run gives an incident without report one if and only if it finds something, correlation picks this incident, and nothing raises. |
| Interruptions.ReportedIsAlerted | backend/app/pipeline/pipeline_service.py:51-53 | The run that reports an incident leaves an alert for it on every channel, no older than the rate limit. |
| Interruptions.AbandonedForGood | backend/app/repositories/incident_repository.py:36-46 | From any point of a run on, an incident stays as it is while no step patches it and its service is processed only when it is resolved or outside the correlation window. |
| Interruptions.NextRunMayAbandon | backend/app/correlation/correlation_engine.py:32-36 | For every valid configuration a run in which the next findings after an interruption open and triage a second incident and leave the first without report. |
| InterruptedRuns.InterruptionsAreMarginal | backend/app/pipeline/pipeline_service.py:44-54 | Whatever its clients do, a run leaves the events, anomalies, links and incidents of the same steps without interruptions; only reports, log and alerts may differ. |
| InterruptedRuns.InterruptedSeverityNeverFalls | backend/app/incidents/incident_service.py:49-58 | No step lowers the severity of an incident or removes one, interrupted or not. |
| InterruptedRuns.InterruptedRunOneLive | backend/app/correlation/correlation_engine.py:32-36 | In orderly runs no service ever has two live incidents, whatever the clients raise. |
| InterruptedRuns.InterruptedRunStamped | backend/app/incidents/incident_service.py:69-77 | Status and resolution time are those of the last change and the last resolution, whatever the clients raise. |
| InterruptedRuns.InterruptedIncidentsAreSessions | backend/app/correlation/correlation_engine.py:27-36 | The incidents of an undisturbed service are exactly the sessions of its batches, whatever the clients raise. |
| InterruptedRuns.InterruptedRunSpaced | backend/app/alerts/alert_service.py:47-70 | With distinct channels the alerts of every run are spaced, whatever the clients raise. |
| InterruptedRuns.InterruptedRunPromptsOnce | backend/app/triage/triage_service.py:46-72 | In the log of every run, aborted triages included, each prompt of the first three agents holds the delimiter exactly once, and the last call of a triaged incident does if and only if no action in its report contains it. |
| InterruptedRuns.InterruptedCalmNeverRaises | backend/app/risk/risk_score_service.py:50-70 | From any point of any run on, steps that neither ingest nor resolve never raise the score, whatever the clients raise. |
| InterruptedPasses.PassCases | backend/app/pipeline/pipeline_service.py:56-62 | A pass ends early exactly if some service would be interrupted on the tables before it, processes the services up to the first such one as each would be alone, and leaves the others. |
| InterruptedPasses.OrdersAgreeIff | backend/app/api/routes/events.py:37-43 | Two orders of the same services leave every service alike if and only if they reach the same ones among those with findings. |
| InterruptedPasses.QuietOrdersAgree | backend/app/api/routes/events.py:37-43 | If none of the services would be interrupted, all orders agree. |
| InterruptedPasses.OrdersDiffer | backend/app/api/routes/events.py:37-43 | For every valid configuration, two services with bursts while the client is down fare differently in the two orders. |
| Cases.SameTarget | backend/app/repositories/incident_repository.py:36-46 | Which incident absorbs depends on the incidents of the service alone. |
| Cases.SameKeys | backend/app/repositories/anomaly_repository.py:22-39 | The stored keys of a service are those of the anomalies of its own incidents. |
| Cases.RecentIsExistsSince | backend/app/repositories/alert_repository.py:21-23 | The check by dedup key over all alerts is a check of the channel within the incident's own alerts. |
| Cases.ProcessRefines | backend/app/pipeline/pipeline_service.py:44-54 | Processing a service on the shared tables is processing its own case file with its own events, and no other case file changes. |
| Cases.ProcessUntilRefines | backend/app/pipeline/pipeline_service.py:44-54 | The same when some call of the triage raises. |
| Cases.ProcessedAllCases | backend/app/pipeline/pipeline_service.py:56-62 | What a run over several services does to one of them depends on that service alone. |
| Cases.OrderDoesNotMatter | backend/app/api/routes/events.py:37-41 | Any two orders of the same services leave every service with the same incidents, anomalies, alerts and calls up to row ids. |
| SessionWindows.SessionsAreMaximal | backend/app/correlation/correlation_engine.py:3-4 | The offline sessions partition the batches into groups with gaps within the window, cut exactly at longer gaps. |
| SessionWindows.SessionsAppend | backend/app/correlation/correlation_engine.py:27-36 | One more batch extends the last session or starts a new one. |
| SessionWindows.TargetIsLastSession | backend/app/repositories/incident_repository.py:36-46 | If the incidents are the sessions, the query finds the last one exactly if the batch is within the window of it. |
| SessionWindows.GrownIsExtended | backend/app/incidents/incident_service.py:33-58 | Correlating one more batch keeps the incidents equal to the sessions, with severity, times and anomalies. |
| SessionWindows.IncidentsAreSessions | backend/app/correlation/correlation_engine.py:27-36 | In every run that leaves the statuses of a service alone and does not date its processing backwards, its incidents are exactly the sessions of its batches, whatever other services and the model do. |
| Independence.ProcessedStripped | backend/app/pipeline/pipeline_service.py:44-54 | A run for a service, seen without reports and log, is the run without triage. |
| Independence.ModelDoesNotSteer | backend/app/pipeline/pipeline_service.py:44-62 | Two runs of the same steps with different models, templates or runbooks store the same anomalies, links and alerts, and incidents that differ in their reports only. |
| Independence.OrderMattersToReportsOnly | backend/app/api/routes/events.py:37-41 | With any model, two orders of the same services leave every service with the same incidents, anomalies and alerts up to row ids and reports. |
| Risk.Score | backend/app/risk/risk_score_service.py:50-70 | The score lies between 0 and 100. |
| Risk.ErrorPenalty | backend/app/risk/risk_score_service.py:53-59 | Lies between 0 and 40 and is 0 exactly without recent errors. |
| Risk.AlertPenalty | backend/app/risk/risk_score_service.py:61-62 | Lies between 0 and 30 and is 0 exactly without alerts. |
| Risk.IncidentPenalty | backend/app/risk/risk_score_service.py:64-68 | Lies between 0 and 50. |
| Scores.ScoreMeans | backend/app/risk/risk_score_service.py:50-70 | The score is 100 less the three penalties, and not below 0. |
| Scores.ErrorPenaltyMeans | backend/app/risk/risk_score_service.py:53-59 | With k errors among n events of the window the penalty is 80 k / n, and 40 from half of them on. |
| Scores.AlertPenaltyMeans | backend/app/risk/risk_score_service.py:61-62 | Five for every incident ever alerted about, at most 30. |
| Scores.IncidentPenaltyMeans | backend/app/risk/risk_score_service.py:64-68 | 2, 6, 12 and 20 for each unresolved incident by severity, at most 50. |
| Scores.OldEventsDoNotMatter | backend/app/repositories/event_repository.py:45-49 | Tables that differ only in events older than the window have the same score. |
| Scores.ScoreByKind | backend/app/risk/risk_score_service.py:53-59 | ERROR and CRITICAL count alike, INFO and WARN count alike: the score is the same. |
| Scores.ErrorsAlone | backend/app/risk/risk_score_service.py:50-70 | The value of the score with recent events alone. |
| Scores.AlertsAlone | backend/app/risk/risk_score_service.py:50-70 | The value with alerted incidents alone. |
| Scores.OneUnresolved | backend/app/risk/risk_score_service.py:50-70 | One unresolved incident and nothing else leaves 98, 94, 88 or 80. |
| Risk.FullScore | backend/app/risk/risk_score_service.py:50-70 | The score is 100 if and only if there is no recent error, no alert and no unresolved incident. |
| Risk.ZeroScoreNeedsTwo | backend/app/risk/risk_score_service.py:17-26 | The score reaches 0 only while two incidents are unresolved. |
| Risk.ProcessedLowersScore | backend/app/repositories/alert_repository.py:28-30 | A run for a service never raises the score, at whatever time it is read. |
| Risk.PatchScore | backend/app/repositories/incident_repository.py:28-34 | A status change raises the score only by resolving, lowers it only by reopening, and otherwise leaves it. |
| Risk.CalmNeverRaises | backend/app/risk/risk_score_service.py:50-70 | From any point of any run on, steps that neither ingest nor resolve never raise the score. |

## Left out

- FastAPI routes, middleware, Pydantic validation and SQLAlchemy mechanics: library behaviour. Only the table contents and the query predicates are kept, with one session at a time.
- Exceptions other than those of the language model (database, alert channels, log file): they abort a step too, at places the model does not follow.
- The network client and the quality of the model's answers: the model, and which of its calls raise, is any function of the call number and the prompt.
- Durations and the Markdown copy of the prompt log: not part of this model. A log record is its incident, agent, prompt and outcome.
- The wording of the templates above the data block: any list of lines without an opening angle bracket, as the actual lines are.
- md5, tokenisation and YAML parsing: the hash is any function into the dimensions, tokens and runbooks are given.
- Floating-point rounding and `round(..., 2)`: scores, confidences and the risk score are exact reals before rounding. Detector scores are kept as deviation and variance.
- The limit of 100 000 events per query: fewer matching events are assumed. The query returns the newest rows first and the model the oldest first, which makes no difference by `FoundPermuted`.
- Time zones: times are whole ticks, naive timestamps are taken as converted.
- Row ids: a row's identity is its position, counted from 0.
- The order among incidents with equal touch times, which the query leaves open: the model takes the oldest row.
- Settings outside their use: bucket width and sample count are positive (the source divides by the one and reads the first element of a baseline of the other), correlation window and rate limit are not negative.
- Matches of the empty string in substitutions: none of the patterns has one.
- Alert payloads, channel sending and alert status: no property depends on them.
- `_band`, `normalize_level`, the read-only listing routes and `services`, `edges`, `depends_on` of the engine: look-ups with easy properties.
- Random event generation in the synthetic scenarios: only the layers and their timing guard are modelled.
- RunOneLive: excludes status changes that revive an incident beside a live one, because the source allows them; `PatchKeepsOneLive` gives the exact condition.
- OrderDoesNotMatter: assumes that the model's answer depends on the prompt alone; `OrderMattersToReportsOnly` covers everything but reports and log without that assumption.
- ClockIsMaskedIff: a clock behind a date that itself follows one of - : . + directly is left open: the date may have become part of an earlier timestamp.
- SameTemplateSameSignature: leaves out dates and clocks on their own, which `DateIsMaskedIff` and `ClockIsMaskedIff` settle one by one.
- OrdersAgreeIff: assumes that the client's answers and exceptions depend on the prompt alone.
- Frontend, SDK, command-line tools and deployment: user interface and packaging.
