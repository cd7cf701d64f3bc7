# fubo-flags: what the decision path guarantees

A Dafny model of the whole path by which a feature flag gets its value: the writes the admin API accepts, their
way through the data plane's cache to SDK streams, evaluation of a flag for a context, and the arithmetic of
percentage rollouts. `dafny verify dfyconfig.toml` checks it.

## How the parts fit

- **Evaluator.** `Evaluator` follows the Go code: the methods keep its loops, early returns and the shared
  `visiting` map, and are proved equal to functions. An evaluation ends as `Done`, as `Panic` (index out of
  range) or as `Stuck`: the recursion through segments has no bound in the code, so every function takes a
  `depth`, the number of segments that may be open at once, and `Stuck` or `None` means that was not enough.
  `Prerequisites`, `PrerequisiteRing`, `FirstHit`, `Segments` and `Locality` prove what these functions mean,
  `Operators` and `Rendering` what comparing and printing values means, over the raw attributes of a context.
- **Rollouts.** `Binary64` defines rounding to nearest, ties to even (section 4.3.1 of IEEE 754-2019) on reals.
  `Bucketing` models the Go and the Python implementation on it, and exact arithmetic beside them;
  `BucketAgreement`, `PickAgreement` and `RolloutShares` relate the three. SHA-1 (section 6.1 of FIPS 180-4) is a
  parameter: any function from strings to 60-bit numbers.
- **Propagation.** `Schemas` and `ControlPlane` model validation and the writes, `JsonBoundary` the JSON between
  Python and Go, `Versions` what a sum of row versions says about a table's past, `RulesetStore` decoding, assembly
  and the cache. `Propagation` is a system of steps in which writes, any number of loaders and streams interleave
  freely; a loader's two queries are separate steps, and `Queries` and `Passes` tie them to the assembly of rows and to a whole load. `Streams`,
  `Tracking`, `Interleavings`, `Runs` and `Overlap` follow it to the SDKs; `Unreadable` says what becomes of loads when
  a stored row cannot be decoded, `Requests` when requests are accepted and how they are refused, `ServedShares` what
  that gives cached rollouts, `SelfMatch` what becomes of evaluation when a segment matches itself, `LostUpdates`
  what becomes of versions when two PUTs of one row overlap.

Assumptions about propagation: a request is one transaction (control-plane/app/db.py:24-36); a query sees one
snapshot; the only writes are those of the API, so no row is ever deleted or archived; and two PUTs of one row do not
overlap, since the handlers read a version and write it back plus one without locking the row
(control-plane/app/api/flags.py:138-151). `LostUpdates` gives this assumption up. A query may return only part of its rows: the loops in data-plane/internal/store/store.go:57-63, 102-137 and 151-167 never ask why `Next` ended.
What "the database holds" means its rows as Go decodes them, numbers of clauses and variations rounded to float64.

## Where the code does not do what it says

- "missing or cyclic prereq fails closed" (sdk/go/flageval/eval.go:31). A flag that fails still answers its off
  variation, and a prerequisite may ask for exactly that (`PrerequisiteRing.CycleCanPass`); nothing rejects such a
  config. The claim holds wherever no prerequisite on the way to the missing flag or around the cycle asks for an off
  variation (`Prerequisites.CyclesFailClosed`), and for rings of single prerequisites the exact condition is
  `PrerequisiteRing.RingFailsClosedIff`.
- "Must stay byte-for-byte identical" (sdk/go/flageval/bucket.go:13). Go rounds the hash prefix and then divides by
  2^60, because its divisor rounds to that; Python rounds the quotient once. The buckets differ exactly at ties that
  round down (`BucketAgreement.BucketsEqualIff`), and `PickAgreement.SixtyFortyDisagreement` is a prefix on which the
  two serve different entries of a 60/40 rollout.
- "a float in [0, 1)" (sdk/go/flageval/bucket.go:12, DESIGN.md:277). The last 64 prefixes give 1
  (`BucketAgreement.BucketBelowOneIff`), and the float sum of the weights need not reach 1 either, so the catch-all can
  serve a last entry of weight 0: exactly where the bucket is not below the float sum of the other weights
  (`RolloutShares.ZeroWeightServedIff`).
- "One row per (flag, environment)" (control-plane/app/models/flag.py:41). A flag that was there before an environment
  has no row in it and never gets one, so it cannot be configured there (`Requests.EarlierFlagsStayOut`).
- "monotonic per-(flag, env) `version`" (DESIGN.md:311). Two PUTs of one row that overlap write the same version, or a
  lower one (`LostUpdates.PutRaisesVersionIff`), and can leave a row that is neither of the two configs and that no load
  brings into the cache, exactly under the condition of `LostUpdates.UpdateHiddenIff`.
- "These Pydantic models are also the validation layer for the targeting JSONB shapes" (control-plane/app/schemas/flag.py:3-4).
  They put no upper bound on the variation of a prerequisite and none on numbers in clause values, and the index check
  looks at neither; Go refuses integers beyond 64 bits and numbers beyond float64, and rounds other numbers
  (`Schemas.AcceptedRoundTripIff`, `Schemas.HugePrerequisiteUnreadable`). A row that Go cannot decode ends every load
  that comes to it with an error: until that row is written again, the cache keeps what it had for its environment and
  for all environments listed later (`Unreadable.UnreadableFreezes`), and a restarted data plane exits
  (data-plane/cmd/dataplane/main.go:37-40).
- "pushes a fresh copy whenever the environment's version changes" (data-plane/internal/server/server.go:70-71) keeps a
  stream in step with the cache if every query comes through in full and either loads do not overlap
  (`Tracking.StreamsTrackCache`) or only one of the two tables is written (`Interleavings.OneTableTracks`). Otherwise
  two different rulesets can have one version, and a stream can then stay behind the cache
  (`Overlap.OverlapLosesTrack`, `Overlap.CutShortLosesTrack`): with complete queries exactly when the flag tables have
  different totals (`Interleavings.TracksIff`), and until a complete load after the last write
  (`Streams.AfterWritesStop`).
- DESIGN.md:308-309 says that assembly resolves segments and validates prerequisite references. It does neither, and the
  API accepts a segment that matches itself (`SelfMatch.SelfMatchIsAccepted`). Evaluation then ends exactly for the
  contexts that the segment lists (`Segments.SelfReferenceAnsweredIff`), and six requests and one load make a cached
  flag whose evaluation ends for no context (`SelfMatch.CachedFlagIsStuck`).

## Model

| member | source | states |
|---|---|---|
| Evaluator.Evaluate | sdk/go/flageval/eval.go:5-7 | Top-level evaluation starts with nothing visited, not even the flag itself. |
| Evaluator.EvaluateVisiting | sdk/go/flageval/eval.go:9-73 | The recursion with the shared map computes the specified answer on every store, cyclic or not, and terminates; the map marks exactly the keys on the path below the root, the path is never longer than the number of flags, and a caller that gets an answer finds the map unchanged. |
| Evaluator.EvaluateOwn | sdk/go/flageval/eval.go:42-72 | The loops over targets and rules and the fallthrough give the specified own answer, index errors included. |
| Evaluator.FirstTarget | sdk/go/flageval/eval.go:43-51 | The target found is the least one that lists the context's key; none is found only if none lists it. |
| Evaluator.FirstRule | sdk/go/flageval/eval.go:54-63 | The rule found is the least one whose clauses all match and that has something to serve; the search is stuck only if some clause list is not answered. |
| Prerequisites.EvalAnswers | sdk/go/flageval/eval.go:12-21 | If every flag that prerequisites lead to has an answer of its own, evaluation ends in a variation of the flag with that variation's value, whatever is being visited; other flags of the store do not matter. |
| Prerequisites.OwnAnswers | sdk/go/flageval/eval.go:42-72 | A valid flag whose clause lists are answered has an answer of its own. |
| Prerequisites.EvalInRange | sdk/go/flageval/eval.go:12-21 | On every store, what evaluation answers is a variation of the flag with that variation's value. |
| Prerequisites.EvalNeverPanics | sdk/go/flageval/eval.go:12-21 | With valid flags no index is out of range, even where segments never answer. |
| Prerequisites.EvaluationIsMeaning | sdk/go/flageval/eval.go:28-40 | On every store, what evaluation answers equals a reading without any memory of visited flags, in which each prerequisite counts for its flag's own answer: for every flag whose prerequisites lead into no cycle of enabled flags, and for every flag that is bound to fail whatever happens on the cycle. |
| Prerequisites.PathNeverMatters | sdk/go/flageval/eval.go:29-39 | Whatever chain of prerequisites led to a flag, if it leads into no cycle its evaluation ends there as it ends at top level, on every store, index errors and missing answers included. |
| Prerequisites.PrerequisiteIsItsOwnAnswer | sdk/go/flageval/eval.go:29-39 | The same of the answers of a flag that leads into a cycle and is bound to fail. |
| Prerequisites.NoOffWantedIsSteady | sdk/go/flageval/eval.go:28-40 | Every flag is of this kind if nobody asks a flag that leads into a cycle for its off variation. |
| Prerequisites.LoopingIff | sdk/go/flageval/eval.go:28-40 | The rank condition behind "leads into a cycle" says that some chain of enabled flags comes back to a flag. |
| Prerequisites.CyclesFailClosed | sdk/go/flageval/eval.go:28-40 | An enabled flag from which prerequisites lead to a missing flag, a disabled flag or a cycle of any length answers nothing but its off variation as PREREQUISITE_FAILED, if no prerequisite along that walk asks for an off variation, whatever the rest of the store does; it does answer if the flags that its prerequisites lead to have answers. |
| Prerequisites.BlockedFails | sdk/go/flageval/eval.go:28-40 | Failure is the only answer of a flag with a prerequisite that cannot hold, for every set of flags being visited; what cannot hold is closed under flags failing together. |
| Graph.GroundedIff | sdk/go/flageval/eval.go:28-40 | The rank condition used for prerequisites and segments fails exactly when some chain of references leaves the graph or returns to a node it has passed. |
| PrerequisiteRing.RingFailsClosedIff | sdk/go/flageval/eval.go:28-40 | A ring of single prerequisites answers nothing but failure for all targets, rules, fallthroughs, contexts and segments, and whatever other flags there are, if and only if no link reachable through satisfiable links asks for the next flag's off variation. |
| PrerequisiteRing.CycleCanPass | sdk/go/flageval/eval.go:28-40 | Two flags that require each other, where the first is served its fallthrough, and answers differently as a prerequisite than on its own. |
| FirstHit.FirstHitWins | sdk/go/flageval/eval.go:23-72 | For every flag on every store, cyclic or not, and at every place in the recursion: if evaluation answers, a variation and reason are its answer if and only if the order off, prerequisites, targets, rules, fallthrough prescribes them, each stage stated with quantifiers. |
| FirstHit.FirstHitOnOwnAnswers | DESIGN.md:226-236 | At top level the same with prerequisites read as DESIGN.md does, by what their flags evaluate to on their own, for flags that lead into no cycle or are bound to fail. |
| FirstHit.MembershipTells | sdk/go/flageval/clauses.go:61-91 | In the rule stage segments may be read by any solution of their membership equations. |
| Clauses.MatchClauses | sdk/go/flageval/clauses.go:8-15 | The early-return loop answers as specified, running out of depth included. |
| Clauses.MatchClause | sdk/go/flageval/clauses.go:17-34 | Any value may satisfy the operator; negation comes last, and also applies to an absent attribute. |
| Operators.ClauseAnswers | sdk/go/flageval/clauses.go:17-34 | A clause that names no segments says whether the context carries the attribute and its value relates to some listed value as the operator means it, or the opposite if negated. |
| Operators.ComparisonsHoldIff | sdk/go/flageval/clauses.go:49-54 | `lessThan` holds if and only if the attribute is a number below some listed number, `greaterThan` the mirror image. |
| Operators.InHoldsIff | sdk/go/flageval/values.go:32-46 | `in` holds if and only if some listed value equals the attribute and it is a text, a bool or a number. |
| Operators.TextOperatorsHoldIff | sdk/go/flageval/clauses.go:40-45 | `startsWith`, `endsWith` and `contains` hold if and only if some listed value, rendered, is followed by, preceded by, or both, some text to make the rendered attribute. |
| Operators.OtherOperatorsNeverHold | sdk/go/flageval/clauses.go:55-56 | All operators that are not implemented, and unknown ones, hold for nothing. |
| Rendering.IntegerRenders | sdk/go/flageval/values.go:19-21 | An integer in int64 is rendered as its decimal numeral: a minus sign if negative, digits without leading zeros, each counting for its place. |
| Rendering.OthersRender | sdk/go/flageval/values.go:11-29 | Texts are rendered as themselves, bools by name, and what is neither text, bool nor number as nothing. |
| Rendering.NumeralUnique | sdk/go/flageval/values.go:8-10 | A number has one numeral. |
| Rendering.IntegersHashAsTexts | sdk/go/flageval/values.go:8-10 | A rollout hashes an integer, and serves it, as it does the text of that integer. |
| Clauses.AnySegmentMatch | sdk/go/flageval/clauses.go:61-69 | The loop over named segments answers as specified; unknown names are skipped. |
| Clauses.SegmentContains | sdk/go/flageval/clauses.go:71-91 | Excluded keys, then included keys, then rules decide, as specified. |
| Segments.SegmentSound | sdk/go/flageval/clauses.go:61-91 | On any store, every answer the recursion gives is the one that every solution of the quantified membership equations gives. |
| Segments.MembershipUnique | sdk/go/flageval/clauses.go:61-91 | With acyclic references these equations have exactly one solution, and depth equal to the number of segments finds it. |
| Segments.AcyclicAnswers | sdk/go/flageval/clauses.go:8-91 | With acyclic references every clause list is answered within as many open segments as there are segments. |
| Segments.GroundedAnswers | sdk/go/flageval/clauses.go:8-91 | It is enough that the segments the list names lead into no cycle. |
| Segments.AnsweredIffAcyclic | sdk/go/flageval/clauses.go:8-91 | Acyclic references are necessary too: all requests with the same references are answered in full if and only if no segment reaches itself. |
| Segments.AcyclicIff | sdk/go/flageval/clauses.go:61-91 | The rank condition on segments says that no chain of references comes back to a segment. |
| Segments.DeeperClauses | sdk/go/flageval/clauses.go:8-15 | More depth never changes an answer. |
| Segments.SelfReferenceAnsweredIff | sdk/go/flageval/clauses.go:71-91 | A segment whose only rule matches itself is answered, at any depth, exactly for the contexts it lists. |
| Segments.WiderSegments | sdk/go/flageval/clauses.go:71-91 | If no segment that can be reached has a negated segment clause, adding included keys and removing excluded keys, in any segments, never turns a member into a non-member, through any nesting. |
| Segments.WiderClauses | sdk/go/flageval/clauses.go:8-34 | The same for clause lists. |
| Locality.EvaluationLocal | sdk/go/flageval/eval.go:9-73 | Requests that agree on the flags, segments and attributes that a flag's references lead to give it the same answer. |
| Locality.AbsentAttributeLandsTogether | sdk/go/flageval/bucket.go:28-32 | All contexts that lack what a rollout buckets by get the same entry, from the hash of key and salt with an empty value. |
| Contexts.ParseContext | sdk/go/flageval/context.go:12-38 | The loops give every object member of a multi-kind context its kind, and a single-kind context's members to its kind or to "user". |
| Contexts.ParsedAttributes | sdk/go/flageval/context.go:12-38 | Which attributes a parsed context carries: those of every object member but "kind" if that says "multi", and otherwise all members but "kind" for the kind it names or for "user". |
| Contexts.KeyIff | sdk/go/flageval/context.go:49-57 | The key of a kind is the text in its attribute "key", and nothing else is. |
| Binary64.RoundNearest | sdk/go/flageval/bucket.go:19 | No binary64 number is nearer to x than the rounded x. |
| Binary64.RoundTieToEven | sdk/go/flageval/bucket.go:19 | Of two equally near binary64 numbers rounding takes the one with the even significand. |
| Binary64.FloatNearest | data-plane/internal/store/store.go:129-131 | For numbers of either sign, the converted number is a binary64 number and none is nearer. |
| Binary64.FloatMonotone | data-plane/internal/store/store.go:129-131 | Conversion keeps order across signs. |
| Binary64.RoundMonotone | sdk/go/flageval/bucket.go:19 | Rounding keeps order. |
| Binary64.RoundError | conformance/reference_bucket.py:23 | Rounding is off by at most 2^-53 up to 2 and 2^-54 up to 1. |
| Bucketing.BucketVariation | sdk/go/flageval/bucket.go:23-42 | The Go loop serves the specified entry; an empty list of weights is an index error. |
| Bucketing.PickPosition | sdk/go/flageval/bucket.go:34-41 | The loop's running float sum gives the first entry whose cumulative share is above the bucket, or else the last. |
| Bucketing.ReferenceRolloutVariation | conformance/reference_bucket.py:26-33 | The Python loop gives the first position above the bucket for its own float sums. |
| Bucketing.Pick | sdk/go/flageval/bucket.go:34-41 | The position chosen is the first whose boundary is above the bucket, or else the last one. |
| BucketAgreement.BucketsEqualIff | sdk/go/flageval/bucket.go:11-20 | The Go and Python buckets are equal if and only if the prefix is not a tie that rounds down; there they are one binary64 step apart. |
| BucketAgreement.BucketBelowOneIff | sdk/go/flageval/bucket.go:12-20 | Either bucket is below 1 exactly for all but the last 64 prefixes. |
| BucketAgreement.BucketError | conformance/reference_bucket.py:18-23 | Both buckets are within 2^-53 of n / (2^60 - 1). |
| BucketAgreement.CumError | sdk/go/flageval/bucket.go:34-36 | The float sum of the first k weights is within 1.5 * 2^-53 of the exact one for each positive weight among them. |
| PickAgreement.PicksAreExact | sdk/go/flageval/bucket.go:34-41 | With k entries, Go, Python and exact arithmetic choose the same position whenever the exact bucket is more than (k + 1) * 2^-52 from every boundary between entries. |
| PickAgreement.RolloutServesExactEntry | sdk/go/flageval/bucket.go:23-42 | Away from the boundaries the evaluator serves the entry that exact arithmetic gives the hash prefix of key, salt and value. |
| PickAgreement.PicksDifferIff | conformance/reference_bucket.py:21-33 | For all weights, Go and Python choose different positions if and only if the prefix is a tie that rounds down and some boundary between entries equals Python's bucket. |
| PickAgreement.SixtyFortyDisagreement | conformance/reference_bucket.py:21-33 | A prefix for which a 60/40 rollout gives position 0 in Go and 1 in Python. |
| RolloutShares.GoPicksAscend | sdk/go/flageval/bucket.go:34-41 | In the code's arithmetic every prefix gets a position, and a larger prefix never a smaller one: each position owns one interval of the 2^60 prefixes. |
| RolloutShares.GoShareOfEntry | sdk/go/flageval/bucket.go:15-42 | An entry of weight w gets w * (2^60 - 1) / 100000 prefixes up to 2, and for k entries up to another (k - 1) * (512 * (k + 1) + 2) that rounding moves (`RolloutShares.ShareOfEntry` is the bound without rounding). |
| ServedShares.CachedRolloutsAreWhole | control-plane/app/schemas/flag.py:46-57 | In every run the weights of every rollout of every cached flag lie between 0 and 100000 and add up to 100000. |
| ServedShares.CachedShares | sdk/go/flageval/bucket.go:15-42 | In every run every entry of every cached rollout gets its share of the hash prefixes. |
| RolloutShares.ZeroWeightServedIff | sdk/go/flageval/bucket.go:34-41 | For all weights, an entry of weight 0 is served if and only if it is last and the bucket is not below the float sum of the weights before it. |
| RolloutShares.ZeroPercentServedIff | sdk/go/flageval/bucket.go:34-41 | In a 100/0 rollout the Go code serves the second entry to exactly the last 64 prefixes. |
| RolloutShares.GoMovedAtMost | sdk/go/flageval/bucket.go:34-41 | Re-weighting moves at most the sum, over the boundaries between entries, of change * (2^60 - 1) / 100000 + 1 prefixes, and for k entries at most twice (k - 1) * (512 * (k + 1) + 2) more that rounding moves (`RolloutShares.MovedAtMost` is the bound without rounding). |
| RolloutShares.GoMovedIsCrossed | sdk/go/flageval/bucket.go:34-41 | In the code's arithmetic a prefix changes position only if the float sum at some boundary between entries moves across its bucket. |
| RolloutShares.FirstEntryKeeps | sdk/go/flageval/bucket.go:34-41 | Growing the first entry never moves anyone out of it, in float arithmetic. |
| Schemas.ValidateIndices | control-plane/app/api/flags.py:21-45 | Complains about nothing if and only if every index is in range, and only about indices that are not; prerequisites are not looked at. |
| Schemas.AcceptedIsValid | control-plane/app/schemas/flag.py:41-91 | A config that passes schema and index check satisfies what the evaluator needs of its indices. |
| Schemas.AcceptedRoundTripIff | control-plane/app/schemas/flag.py:88-91 | An accepted config can be read back by Go if and only if every prerequisite's variation is below 2^63 and clause numbers fit float64, and comes back as it was if and only if, besides, those numbers are binary64 numbers. |
| Schemas.HugePrerequisiteUnreadable | control-plane/app/api/flags.py:21-45 | A config that passes every check for every flag, and that Go cannot read. |
| ControlPlane.Database.CreateFlagInProject | control-plane/app/api/flags.py:49-88 | Status and new tables of creating a flag: one seeded row for every environment of the project, or nothing at all. |
| ControlPlane.Database.UpdateFlagConfig | control-plane/app/api/flags.py:127-165 | Status and new tables: the row is replaced and its version raised by one, or nothing changes. |
| ControlPlane.Database.UpdateSegmentConfig | control-plane/app/api/segments.py:73-105 | The same for segments, where a missing row starts at version 1. |
| Requests.PutFlagStatus | control-plane/app/schemas/flag.py:32-143 | A PUT of a config succeeds, where the row exists, if and only if every index is in range, every rule has clauses with known operators, every rule and the fallthrough serve one of variation and rollout, the weights of every rollout are between 0 and 100000 and add up to 100000, and no prerequisite asks for a negative variation; it is refused as 404 if and only if the body is in order and the row is missing. |
| Requests.PutSegmentStatus | control-plane/app/api/segments.py:73-88 | A PUT of a segment succeeds if and only if all its rules have clauses with known operators and segment and environment exist; 422 comes before 404. |
| Requests.CreateStatus | control-plane/app/api/flags.py:49-70 | Creating something is refused as 422 for a bad key or bad variations, then as 404 for a missing project, then as 409 for a key that is taken, and not otherwise. |
| Requests.NewEnvironmentIsEmpty | control-plane/app/api/projects.py:51-75 | A new environment has no flags and no other environment changes. |
| Requests.EarlierFlagsStayOut | control-plane/app/api/flags.py:138-140 | A flag without a row in an environment, as every flag that was there before the environment, never gets one by any sequence of writes: its config there cannot be set. |
| ControlPlane.WritesKeepOk | control-plane/app/api/flags.py:49-165 | Every write keeps every stored config acceptable for its flag's variations and every version positive. |
| ControlPlane.WritesAdvance | control-plane/app/api/flags.py:145-151 | For every environment a write leaves what the data plane reads of flags, and of segments, unchanged or raises its sum of versions. |
| ControlPlane.FlagTableAfterCreate | control-plane/app/api/flags.py:72-81 | A new flag appears once in each environment of its project, off and at version 1, and nowhere else. |
| ControlPlane.FlagTableAfterPut | control-plane/app/api/flags.py:145-151 | Replacing a config changes that config in that environment only. |
| ControlPlane.SegmentTableAfterPut | control-plane/app/api/segments.py:85-94 | Replacing a segment changes that segment in that environment only. |
| Versions.PartIsOlder | data-plane/internal/store/store.go:102-137 | Part of a table's rows has the table's sum of versions only if it is all of them. |
| JsonBoundary.ConfigReads | data-plane/internal/store/store.go:116-132 | What Go decodes from the columns of any config: the config with its clause numbers rounded if every integer has 64 bits and every number fits float64, and an error otherwise. |
| JsonBoundary.NumberReads | sdk/go/flageval/types.go:12-18 | A number is refused if and only if it is at least (1 - 2^-54) * 2^1024 in size; otherwise it becomes a binary64 number to which no other one, of either sign, is nearer. |
| JsonBoundary.NestedValuesRead | sdk/go/flageval/types.go:12-18 | Lists and objects are read member by member, and everything but numbers as it is. |
| JsonBoundary.ClauseValuesRead | data-plane/internal/store/store.go:116-132 | In a config that can be read every value of every clause is what reading that value gives. |
| JsonBoundary.IntegersComeBack | data-plane/internal/store/store.go:116-132 | Integers up to 2^53, of either sign, come back as they were. |
| JsonBoundary.IntegerConfigComesBack | data-plane/internal/store/store.go:116-132 | A config whose clauses hold no other numbers comes back whole if its indices fit 64 bits. |
| JsonBoundary.IntegerVariationsComeBack | data-plane/internal/store/store.go:116-132 | So do variations with such values. |
| JsonBoundary.MissingFieldsRead | sdk/go/flageval/types.go:13-62 | Missing fields leave the zero value, and options absent. |
| JsonBoundary.ConfigRoundTripIff | control-plane/app/api/flags.py:145-150 | A config comes back as it was stored if and only if Go can read it and the numbers in its clauses are binary64 numbers. |
| JsonBoundary.SegmentRulesRead | control-plane/app/api/segments.py:93 | The same of the rules of a segment. |
| JsonBoundary.VariationsRead | control-plane/app/api/flags.py:53-66 | The same of a flag's variations and their values. |
| JsonBoundary.PayloadRoundTrip | control-plane/app/schemas/flag.py:60-70 | Which of variation and rollout is set survives leaving out absent fields; integers beyond 64 bits are errors. |
| RulesetStore.Assemble | data-plane/internal/store/store.go:82-170 | Row by row decoding and assembly gives the tables' flags, segments and client-side keys, and the sum of all row versions, in any row order; it fails if and only if some row cannot be decoded. |
| RulesetStore.RowsRead | data-plane/internal/store/store.go:102-137 | Decoding the columns of a database row gives that row as modelled, or an error exactly where the row is unreadable. |
| RulesetStore.Store.LoadAll | data-plane/internal/store/store.go:48-80 | A pass installs what it assembled wherever the version differs, reports exactly those environments, succeeds if and only if every environment can be read, and stops at the first error with earlier installs in place. |
| Propagation.StepKeepsInv | data-plane/cmd/dataplane/main.go:57-106 | Every step keeps: whatever loaders hold, the cache holds and streams were sent consists of two tables that may be old and incomplete, but whose sums tell. |
| Propagation.CacheNeverAhead | data-plane/internal/store/store.go:71-77 | In every run no cached version exceeds the database's, and the two are equal if and only if the cached ruleset is what the database holds. |
| Propagation.LoadConverges | data-plane/internal/store/store.go:48-169 | A load whose two queries follow the last write leaves the cache equal to the database, installing or skipping, whatever other loaders do in between. |
| Propagation.InstallIsStoreInstall | data-plane/internal/store/store.go:71-77 | The install step of the runs is the install of the store. |
| Queries.AssemblyIsQueries | data-plane/internal/store/store.go:89-167 | What the assembly makes of any distinct, decodable rows of the two queries, which may see different states of the database, is what the two query steps of the runs make. |
| Queries.QueriesAreAssembly | data-plane/internal/store/store.go:89-167 | Every copy that the two query steps allow is what the assembly makes of some rows. |
| Queries.FlagRowsCome | data-plane/internal/store/store.go:102-137 | It is the whole table if and only if the rows are all there are. |
| Passes.PassIsRun | data-plane/internal/store/store.go:48-80 | A pass of `LoadAll`, whether or not it comes to its end, makes of the cache what the steps of one loader make of it: listing the environments, two queries and an install for each one that is read, and a return. |
| Streams.SdkStream.Send | data-plane/internal/server/server.go:91-100 | Sends the cached ruleset exactly if its version is not the last one sent. |
| Streams.TickIsSend | data-plane/internal/server/server.go:91-110 | The tick step of the runs is the `send` of the connection. |
| Streams.HandleEval | data-plane/internal/server/server.go:132-144 | The flag-state map has exactly the client-side flags, each with its own evaluation. |
| Streams.AgreementPersists | data-plane/internal/store/store.go:71-77 | Without writes, with complete queries and without outdated reads in flight the cache goes on being equal to the database. |
| Streams.TickDelivers | data-plane/internal/server/server.go:91-110 | When the cache equals the database, what a stream has received by its next tick does too, whatever it was sent before. |
| Streams.EndToEnd | data-plane/internal/server/server.go:91-144 | From then on, while queries come through in full, for every flag key and context: streamed ruleset, cached ruleset and database have the key or none has it, and evaluating each one's own flag gives one result; the map that `/eval` answers has exactly the database's client-side flags with the database's answers. |
| Streams.AfterWritesStop | data-plane/internal/store/store.go:48-169 | From a state without outdated reads in flight, through any run without writes and with complete queries in which one load of the environment completes, to a stream's next tick: the same agreement everywhere. |
| Streams.CachedRulesetsAreSafe | data-plane/internal/store/store.go:82-169 | In every run, evaluating any cached flag takes no index out of range, and every answer is a variation of the flag with that variation's value; there is an answer if the flags that its prerequisites lead to name no segment that leads into a cycle. |
| Tracking.StreamsTrackCache | data-plane/internal/server/server.go:87-110 | With one load at a time, whose queries all come through in full, after every tick the last ruleset sent is the cached one, and versions sent strictly increase. |
| Tracking.InstallsIncrease | data-plane/internal/store/store.go:71-77 | With one load at a time, whose queries all come through in full, an install that changes the cache raises the version. |
| Interleavings.ReadsAreComparable | data-plane/internal/store/store.go:82-170 | In every run with complete queries, overlapping loads included, any two tables read of an environment and still held, cached or sent are comparable: equal totals mean equal tables. |
| Interleavings.TracksIff | data-plane/internal/server/server.go:91-100 | In every such run, after its tick a stream has the cache's version, and the cache's contents if and only if the flag tables behind the two have one total. |
| Interleavings.OneTableTracks | data-plane/internal/server/server.go:91-100 | Streams track the cache through every interleaving with complete queries in which only one of an environment's two tables is written. |
| Overlap.OverlapLosesTrack | data-plane/internal/server/server.go:91-100 | From any database, two overlapping loads with complete queries, around a flag write and a segment write, can leave a stream whose last ruleset has other flags than the cache, and whose next tick sends nothing. |
| Overlap.SmallOverlap | data-plane/internal/server/server.go:91-100 | The same from the empty database, by way of six requests that make one flag and one segment, switch the flag on and fill the segment. |
| Overlap.CutShortLosesTrack | data-plane/internal/store/store.go:102-137 | With a single loader and the database as it is, queries that are cut short can do the same, from any database with two flags of one version. |
| Overlap.SmallCutShort | data-plane/internal/store/store.go:102-137 | The same from the empty database, by way of four requests that make two flags. |
| Unreadable.HugePutIsAccepted | control-plane/app/api/flags.py:142-151 | For every flag there is a PUT that succeeds and leaves a row that the data plane cannot decode. |
| Unreadable.HugeSegmentIsAccepted | control-plane/app/api/segments.py:90-94 | For every segment, too. |
| Unreadable.UnreadableFreezes | data-plane/internal/store/store.go:66-70 | In every run with complete queries in which some flag, or some segment, of an environment stays undecodable, the cache stays as it was for that environment and for every one listed after it, whatever else is written. |
| SelfMatch.SelfMatchIsAccepted | control-plane/app/api/segments.py:85-94 | For every segment there is a PUT that succeeds and makes it match itself. |
| SelfMatch.CachedFlagIsStuck | sdk/go/flageval/clauses.go:61-91 | From the empty database, six requests and one complete load leave a ruleset in the cache in which evaluating a flag ends at no depth and for no context. |
| LostUpdates.UndisturbedPut | control-plane/app/api/flags.py:138-151 | Reading a row and writing it back is the PUT of the other results if nobody writes the row in between. |
| LostUpdates.MergedStaysGood | control-plane/app/models/flag.py:53-58 | Whatever happened in between, the columns that two accepted configs leave in a row make an accepted config. |
| LostUpdates.PutRaisesVersionIff | control-plane/app/api/flags.py:151 | A PUT raises the environment's version if and only if the row's version has not grown since the PUT read it; otherwise the version stays or falls. |
| LostUpdates.UpdateHiddenIff | data-plane/internal/store/store.go:71-77 | A PUT leaves an up-to-date cache with the database's version and other flags if and only if the row's version has grown by one since the PUT read it and the two writes together decode to another config. |
| LostUpdates.LoadsSkipHidden | data-plane/internal/store/store.go:71-77 | Complete loads then skip the ruleset, as long as nothing else is written. |
| LostUpdates.SmallHiddenUpdate | control-plane/app/api/flags.py:138-151 | Two PUTs for which this happens, and which leave a row that is neither of the two configs. |

## Left out

- HTTP, SSE framing, SQL text, JSON text, connections, credentials, logging and the admin console.
- SHA-1, regular expressions and the decimal rendering of non-integral numbers are parameters; `before`, `after` and the semVer operators match nothing, as in the code.
- Binary64.Round: no bounds on the exponent, because every number that bucketing computes lies between 2^-60 and 2^61; where Go decodes JSON, overflow is an error as it is there, but numbers below 2^-1022 are rounded too finely. Attribute values are reals without NaN or infinities.
- Strings are sequences of characters, not UTF-8 bytes.
- Versions are unbounded; the columns and Go's sum are 64-bit.
- Clauses.MatchClauses: the Go stack has no bound of its own; `depth` stands for it, and an exhausted depth for a recursion that goes on.
- PrerequisiteRing.RingFailsClosedIff: the exact condition is for flags with one prerequisite each; for arbitrary graphs `Prerequisites.CyclesFailClosed` gives a sufficient one.
- Prerequisites.EvaluationIsMeaning: says nothing of a flag that leads into a cycle and is not bound to fail; `PrerequisiteRing.CycleCanPass` is one for which the equation is false.
- JsonBoundary.ConfigReads: unknown fields and Go's case-insensitive field names do not occur in what Python writes; what Postgres itself refuses to store does not come to Go.
- ControlPlane: names, descriptions, tags, owners, audit rows and timestamps, which evaluation and propagation never read. Creating projects, environments and segments is modelled as specification only.
- LostUpdates: PUTs of flag configs only; that a session writes just the columns that differ from what it read is how the ORM works, not code of the repository.
- Propagation: the concurrent steps are a transition system on values; the store's lock is the atomicity of its install step.
- Exposure events, `patch` and `delete` stream events, `/eval/stream` and Redis: a stub, or only in DESIGN.md.
