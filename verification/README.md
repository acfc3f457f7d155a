# Yente: a verified model of its protocols

Yente is a deterministic shell around an unreliable language model: it reads a
mailbox, asks a model what the mail says, keeps only claims whose quotes stand
in their sources, merges identities, scores introductions and sends mail about
them. This project models the protocols that keep that safe and proves what
each of them keeps, over every input, run or interleaving.

| file | what it models |
|---|---|
| `Identity.dfy` | the union-find over `same_as` / `not_same_as` claims, against plain graph connectivity |
| `Provider.dfy` | the observation loop: retries, graded rounds, the claim bank |
| `Harvest.dfy` | what the loop makes of what a model sends: claim lines, source ids, both gates, the fallback readers |
| `Schema.dfy`, `Observations.dfy` | the two gates every claim passes, and the graph rows it becomes |
| `Manifest.dfy` | the manifest protocol: when to stop reading, and what was cut off |
| `Mail.dfy` | the mail cursor: record, then advance, under crashes and UIDVALIDITY changes (section 2.3.1.1 of RFC 3501) |
| `Spans.dfy`, `Blocks.dfy` | grounding (normal form, divergence, verification) and Sentinel Block framing |
| `Lanes.dfy`, `Streams.dfy` | the worker pool; event-stream decoding (section 9.2 of the WHATWG HTML Standard), the loop detector and the in-flight gate |
| `Workflow.dfy`, `Outbox.dfy` | the match workflow; the outbox machine and its shared repository |
| `Matching.dfy` | introduction scoring and selection |
| `Text.dfy`, `Order.dfy` | strings and their order, shared by the rest |

Code that changes state in place is a class or a method with a loop, proved
equal to a pure function of the old state; the invariants and run theorems are
lemmas about that function. Text operations whose detail is beside the point
(NFKC, letter tables, hashing, JSON, `String`, `Number`, significant words) are
function parameters, named in the file that uses them, with every assumption on
them written as a `requires`. Times are integer milliseconds and scores integer
hundredths.

## What the code does, where its comments say more

- One line can cost everything banked. `LINE_GROUPS` is a plain object, so the line `{"claim":"constructor"}` finds an inherited value and the push after it throws (`InheritedNameBreaks`); a source id or a verdict number that `String` or `Number` cannot convert throws too. In a reply it costs every line and all retries (`FatalLineEndsTheRun`), and a reply that is only this line is a complete answer with nothing new in it (`LoneFatalLineIsAnAnswer`). In a reasoning trace it happens inside the catch block: the bank is lost, and a retryable error is not retried (`OneLineLosesTheBank`). `FailureLosesBankIff` gives the exact condition and `BankedIsAnswered` what holds over whole runs: a banked claim is answered if and only if nothing breaks.
- Stripping sentinel brackets from an error message can put a token together, and then the REPAIR note is refused, in the same place (`StrippingMakesAToken`).
- A `not_same_as` claim blocks only the direct edge: a log can refuse a pair and merge it (`RefusedPairIsMerged`), and resolving a log twice can merge what it kept apart once (`ResolveIsNotAlwaysIdempotent`). Twice equals once exactly when the resolved log is made of stars (`ResolveIsIdempotentIff`). Pair keys join ids with '|', and two keys are one exactly when the pairs are or overlap at a '|' inside an id (`PairKeysCollideIff`), so a refusal can keep apart a pair it does not name (`RefusalBlocksAnotherPair`) and a proposal can crowd out another (`CollidingPairIsDropped`).
- Normalising an address twice differs from once exactly when removing the dots of a Gmail local part uncovers leading whitespace (`NormalizeIsIdempotentIff`).
- Every graded round takes one from the failures a run survives, because the catch branch does not count rounds: in every state of every run a retryable failure ends it exactly when rounds and failures together use up the attempts (`RoundsSpendRetries`), so it is denied a retry it was due exactly when the rounds before it make up the difference (`RetryIsDeniedIff`; the smallest case is `RoundCostsARetry`). A claim the model rejected returns with the next failure if it was first seen in a reasoning trace (`RejectedComesBack`). After a loop, a graded round's results are not shown (`LoopHidesResults`).
- An `evidence_refs` element that `String` cannot convert makes `validateEnvelope` throw a TypeError, not its own error (`ValidateEnvelope`).
- Evidence recorded just before a crash gets no job, ever (`CrashOrphansMail`). A full batch that does not parse stops the listener (`PassMovesIff`), and a pass over an answer in any order loses mail exactly when it passes over a message that parses and that neither the store nor the batch covers (`PassLosesNothingIff`), for good (`PassedOverIsNeverFetched`; `DisorderLosesMail` is a box where it does). Of two mails with one hash only the first is held (`CollidingMailIsDropped`).
- A reply cut off right after its manifest is not reported as truncated (`CutAfterManifestFindsNothing`); as long as no closing brace has arrived behind the manifest, its own JSON is read as a complete answer with nothing in it (`CutManifestIsAnAnswerIff`, `CutManifestEndsTheRun`).
- Handoffs of a job are its attempts plus what saves from stale copies took back (`HandoffsAccount`), so a worker that reports a failure from a stale copy can make it exceed its limit (`StaleFailureHandsOffAgain`).
- The index on a dangling reference counts only claims that normalised (`DanglingIndex`), so a graded round, which looks it up among the raw claims (src/intelligence/provider.js:1066-1067), can show the model a different claim from the one refused (`DanglingShowsAnother`, `AnotherClaimIsShown`).
- A quote does not match where it stands exactly when it starts with a hyphen that folds there, or ends in one that folds into the letter behind it (`StandsIff`, `QuoteStandsIff`); such a quote can be refused although it is in the source word for word (`CutQuoteIsLost`). A blank quote of a blank value is held (`BlankQuoteIsHeld`).
- A blank line that ends differently from the line before it can run two events together (`MixedBlankLinesMerge`). Splitting at boundaries reads what a line-by-line reader reads exactly when, between boundaries, at most one event bears data and no line that carries data is torn (`ReadingsAgreeIff`).
- A declared role does not outrank every inferred pair (`InferredCanOutrankDeclared`; `InferredOutranksIff` says exactly which), and intake artefacts are kept out only by a positive threshold (`IntakeIsProposedIff`).

## Model

| member | source | states |
|---|---|---|
| `Identity.NormalizeIsIdempotentIff` | src/graph/identity.js:44-57 | normalising an address twice equals once exactly when dots hide no leading whitespace |
| `Identity.CanonicalizeIsIdempotentIff` | src/graph/identity.js:80-83 | the same for subject ids |
| `Identity.HalveRepresents` | src/graph/identity.js:115-122 | a path-halving write changes no root and keeps parents strictly smaller |
| `Identity.SameRootIffConnected` | src/graph/identity.js:113-166 | in any forest that represents a set of edges, two ids share a root exactly when connected |
| `Identity.RootIsLeast` | src/graph/identity.js:135-153 | the root is the least id of the component |
| `Identity.JoinRepresents` | src/graph/identity.js:144-153 | hanging the larger root under the smaller adds exactly the new edge |
| `Identity.IdentityIndex.FindRoot` | src/graph/identity.js:115-122 | `find` terminates, changes no root whatever it writes, and returns the component's least id |
| `Identity.IdentityIndex.BlockedPairs` | src/graph/identity.js:124-133 | the pairs some `not_same_as` row refuses, exactly |
| `Identity.IdentityIndex.Unblocked` | src/graph/identity.js:135-142 | the edges left to join, exactly |
| `Identity.IdentityIndex.constructor` | src/graph/identity.js:113-154 | the index built represents the unblocked `same_as` graph of the log |
| `Identity.IdentityIndex.Canonical` | src/graph/identity.js:157-157 | the least id of the component, whatever was asked before |
| `Identity.IdentityIndex.AliasesOf` | src/graph/identity.js:159-165 | exactly the component, each id once, ascending |
| `Identity.SameCanonicalIffConnected` | src/graph/identity.js:113-166 | two ids share a canonical id exactly when connected |
| `Identity.OrderAndDuplicatesAreIrrelevant` | src/graph/identity.js:113-166 | logs with the same rows give the same canonical ids |
| `Identity.BlockedPairMergesThroughThird` | src/graph/identity.js:135-153 | two ids each asserted to be the same as a third merge, whatever is refused between them |
| `Identity.RefusedPairIsMerged` | src/graph/identity.js:124-153 | a log that refuses a pair outright and merges it |
| `Identity.PairKeyNamesThePair` | src/graph/identity.js:125-125 | without '\|' in an id the key names the unordered pair |
| `Identity.PairKeysCollideIff` | src/graph/identity.js:125-125 | two pairs share a key exactly when they are one, or overlap at a '\|' inside an id |
| `Identity.RefusalBlocksAnotherPair` | src/graph/identity.js:124-142 | a log whose only refusal keeps apart a pair it does not name |
| `Identity.ResolveObservations` | src/graph/identity.js:176-183 | every row's subject becomes its canonical id, the original kept beside it |
| `Identity.ResolveIsIdempotentIff` | src/graph/identity.js:176-183 | resolving twice equals once exactly when every component of the resolved log is a star about its only subject |
| `Identity.StarsAreLeftAlone` | src/graph/identity.js:176-183 | resolving leaves a log of normal subjects alone exactly when it is made of such stars |
| `Identity.ResolveIsIdempotent` | src/graph/identity.js:176-183 | and it does so whenever rewriting revives no refused row |
| `Identity.LogsWithoutRefusalsSettle` | src/graph/identity.js:176-183 | a log without `not_same_as` rows is resolved once and for all |
| `Identity.ResolveIsNotAlwaysIdempotent` | src/graph/identity.js:176-183 | a log on which the second resolve merges what the first kept apart |
| `Provider.MergeEntries` | src/intelligence/provider.js:527-545 | one entry per key, the first to claim it, and how many were dropped |
| `Provider.MergedKeepsKeys` | src/intelligence/provider.js:527-545 | merging loses no key, repeats none and invents no entry |
| `Provider.MergedKeepsFirst` | src/intelligence/provider.js:527-545 | merging more never displaces what was there |
| `Provider.MergedFixes` | src/intelligence/provider.js:527-545 | entries that are distinct already are left as they are |
| `Provider.NothingRejected` | src/intelligence/provider.js:558-568 | a review that names no entry of the bank changes nothing |
| `Provider.UnrejectedIff` | src/intelligence/provider.js:558-568 | an entry stays exactly when its number is not rejected |
| `Harvest.EnvelopeFromLines` | src/intelligence/provider.js:316-402 | claims by group, verdicts and failed lines with their indices, as each line reads; or a throw, exactly when some line throws |
| `Harvest.LinesAccount` | src/intelligence/provider.js:316-402 | where none throws, every line is accounted for once |
| `Harvest.LineCostsItself` | src/intelligence/provider.js:316-402 | a line costs more than itself exactly when reading it throws; a failed one changes nothing else |
| `Harvest.LinesAreAnswered` | src/intelligence/provider.js:647-653 | where no line throws, a reply of lines is answered with every claim and every verdict in them |
| `Harvest.InheritedNameBreaks` | src/intelligence/provider.js:286-395 | a line whose kind is an inherited property name throws |
| `Harvest.FatalLineEndsTheRun` | src/intelligence/provider.js:614-676 | such a line in a reply is a failure without retry, or, where no brace closes behind the reply's first object, a complete answer that is only the bank |
| `Harvest.LoneFatalLineIsAnAnswer` | src/intelligence/provider.js:614-676 | a reply that is one such line in its block is read as its own bare object, and so is that answer |
| `Harvest.HarvestBreaksIff` | src/intelligence/provider.js:921-949 | a harvest throws exactly when one of its lines throws, or cites an id that is no text |
| `Harvest.FailureLosesBankIff` | src/intelligence/provider.js:1178-1259 | exactly when a failure loses the bank, by the lines and the message it brings |
| `Harvest.OneLineLosesTheBank` | src/intelligence/provider.js:1178-1186 | one breaking line of thinking loses the bank on an error that was to be retried |
| `Harvest.StrippingMakesAToken` | src/intelligence/provider.js:1196-1207 | a message whose stripped form holds a sentinel token, so that the note is refused |
| `Harvest.AnswersAreGrounded` | src/intelligence/provider.js:821-1271 | whatever is sent, every claim of the answer fits its vocabulary and quotes the source it cites, if the seeds did |
| `Harvest.AcceptedIsGrounded` | src/intelligence/provider.js:715-752 | what both gates let through is grounded in the sources and fits its vocabulary |
| `Harvest.DanglingShowsAnother` | src/intelligence/provider.js:1058-1080 | the claim shown for a dangling reference stands as many places earlier as claims before it were rejected |
| `Harvest.AnotherClaimIsShown` | src/intelligence/provider.js:1058-1080 | a reply for whose dangling claim an empty one is shown |
| `Harvest.NoGroupsIsAnEmptyAnswer` | src/intelligence/provider.js:1021-1041 | an object with no claim group is a complete, empty answer |
| `Harvest.CutManifestEndsTheRun` | src/intelligence/provider.js:570-672 | a reply cut after its manifest ends the run, holding only the bank, exactly as long as no closing brace follows |
| `Provider.Observe` | src/intelligence/provider.js:951-1271 | the loop's outcome is that of the step function run over what the model brings, throws out of the catch block included |
| `Provider.Grade` | src/intelligence/provider.js:1058-1080 | which rejects are shown, and which count as seen |
| `Provider.GradedOnce` | src/intelligence/provider.js:1058-1080 | a line is shown exactly when it was never graded before, and once |
| `Provider.Rebank` | src/intelligence/provider.js:921-949 | thinking joins behind the bank, delivered lines before it |
| `Provider.CallsAreBounded` | src/intelligence/provider.js:951-951 | no run makes more than maxAttempts + maxRounds calls |
| `Provider.ExhaustedIffNoAttempts` | src/intelligence/provider.js:951-1271 | a run comes to the throw behind the loop exactly when no attempt is configured |
| `Provider.ThrowsEmptyHanded` | src/intelligence/provider.js:1209-1259 | a throw that no breakage explains comes from a state the run reaches, with no claim banked, delivered or thought |
| `Provider.FailureKeepsBank` | src/intelligence/provider.js:1178-1259 | a failure keeps exactly the keys at hand, unless the catch block throws; when it throws, exactly |
| `Provider.StepKeepsKey` | src/intelligence/provider.js:951-1271 | a banked key is lost only to a rejection by its number or to a throw out of the catch block |
| `Provider.BankedIsAnswered` | src/intelligence/provider.js:951-1271 | over every run, a banked key never so rejected is in the answer if and only if nothing breaks the catch block |
| `Provider.AnswersAreSound` | src/intelligence/provider.js:951-1271 | a property of the seeds and of everything the world brings holds of every returned claim |
| `Provider.RoundsSpendRetries` | src/intelligence/provider.js:951-1209 | in every state a run reaches, the calls made are rounds plus failures, and a retryable failure ends the run exactly when the two of them use up the attempts |
| `Provider.RetryIsDeniedIff` | src/intelligence/provider.js:1209-1209 | such a failure is denied a retry it was due exactly when the rounds before it make up the difference |
| `Provider.RoundCostsARetry` | src/intelligence/provider.js:1209-1209 | two attempts and a round: a graded answer, then one failure, ends after two calls |
| `Provider.ThinkingComesBack` | src/intelligence/provider.js:1178-1186 | what was once thought is banked again at every later failure |
| `Provider.RejectedComesBack` | src/intelligence/provider.js:1178-1186 | even after a rejection removed it |
| `Provider.ReviewsNameWhatWasPrinted` | src/intelligence/provider.js:958-984 | line n of the prompt a step leads to prints the entry that a rejection of n removes, and no other goes |
| `Provider.LoopHidesResults` | src/intelligence/provider.js:958-984 | a round graded after a loop is followed by a wake-up, its results unshown |
| `Schema.NormalizedIsAdmissible` | src/intelligence/schema.js:160-335 | whatever JSON is sent, a claim that passes fits the closed vocabularies, has its texts and a confidence in [0, 1] |
| `Schema.RequireString` | src/intelligence/schema.js:160-169 | a text that passes is trimmed, not blank and not too long |
| `Schema.SieveAccounts` | src/intelligence/schema.js:373-386 | kept plus rejected is what came in |
| `Schema.LostIffFails` | src/intelligence/schema.js:373-386 | exactly the failing items are rejected, under their own index and code |
| `Schema.ValidateEnvelope` | src/intelligence/schema.js:355-458 | throws exactly on a wrong shape or an unconvertible evidence ref, each with its own error; otherwise the survivors of each group, every rejection, and the cited sources in order |
| `Schema.SurvivesIff` | src/intelligence/schema.js:355-420 | a claim survives exactly when it normalises and every ref is declared or provided |
| `Schema.SurvivorsReferToDeclared` | src/intelligence/schema.js:398-420 | every ref in the validated envelope is declared in it, or provided |
| `Schema.FirstGateAccounts` | src/intelligence/schema.js:355-420 | per group, raw claims equal survivors plus rejections |
| `Schema.DanglingIndex` | src/intelligence/schema.js:408-418 | a dangling claim at raw index i is reported at i less the claims rejected before it; exactly i when none were |
| `Schema.VerifyEnvelope` | src/intelligence/provider.js:715-752 | each group keeps exactly the claims its check accepts, and the rest are rejected |
| `Schema.SecondGateAccounts` | src/intelligence/provider.js:715-752 | per group, claims equal verified plus rejected |
| `Schema.VerifiedIsGrounded` | src/intelligence/provider.js:715-752 | a verified claim's quote stands in the source it cites, both normalised |
| `Observations.ObservationsFrom` | src/intelligence/queue.js:71-246 | the identity rows, then the rows of each group's claims, with refs read through the verified entities |
| `Observations.KnownIffDeclared` | src/intelligence/queue.js:80-120 | a ref means somebody exactly when a verified entity other than Yente declares it, or it is the sender |
| `Observations.BecomesARowIff` | src/intelligence/queue.js:159-246 | a claim becomes a row exactly when all its refs mean somebody and it is no intake artefact |
| `Observations.NoRowAboutNobody` | src/intelligence/queue.js:71-246 | every row returned is an entity's identity row, or the very row of a claim, about whom its refs name, at both ends if it links two |
| `Observations.SpeakersAreHeard` | src/intelligence/queue.js:159-246 | every claim whose refs all mean somebody, and that is no intake artefact, has that row in the result |
| `Observations.LinksBothEnds` | src/intelligence/queue.js:159-246 | a relationship claim has its row exactly when both its refs mean somebody |
| `Observations.IdentityRowsAreAboutSomebody` | src/intelligence/queue.js:98-157 | identity rows have a subject and an entity behind them; an alias names two different subjects |
| `Manifest.ReadManifestBlocks` | src/intelligence/manifest.js:116-169 | what is found, malformed and missing, group by group, or nothing usable |
| `Manifest.ReaderAgreesWithStop` | src/intelligence/manifest.js:96-169 | on every such prefix the reader misses nothing exactly when the stream was told to stop |
| `Manifest.FramesAreDone` | src/intelligence/manifest.js:126-134 | a prefix of an answer holds the bodies of its complete blocks, and no others |
| `Manifest.ClosingsAreDone` | src/intelligence/manifest.js:61-63 | the closings in a prefix are those of its complete blocks |
| `Manifest.DeclaredIs` | src/intelligence/manifest.js:72-83 | the declared count is known exactly once the manifest is complete |
| `Manifest.StopIffNothingMissing` | src/intelligence/manifest.js:96-169 | with a complete group block, stop holds exactly when nothing is missing, and missing counts the unfinished blocks |
| `Manifest.CutAfterManifestFindsNothing` | src/intelligence/manifest.js:158-160 | with none, no stop and nothing found, though the manifest may declare them |
| `Manifest.BareSpanIff` | src/intelligence/provider.js:661-672 | an object is the bare object of a text exactly when no brace opens before it and none closes behind |
| `Manifest.CutManifestIsAnAnswerIff` | src/intelligence/provider.js:570-676 | such a cut is read as the manifest's own JSON exactly as long as no closing brace has arrived behind it |
| `Manifest.BlocksAreReadAlone` | src/intelligence/manifest.js:126-156 | a complete block is read as its own body says, whatever the others hold |
| `Manifest.GroupsAreAGrouping` | src/intelligence/manifest.js:49-55 | the five group tags meet what the theorems ask of a list of groups |
| `Mail.Listener.FetchSince` | src/mail/imap-client.js:110-125 | the first rows above a UID, at most a batch, then put in order |
| `Mail.Listener.FetchNew` | src/mail/source.js:138-183 | the parsed messages of that batch; from the start when the epoch changed |
| `Mail.Listener.IngestMail` | src/graph/ingest.js:57-242 | one pass: each new hash recorded with a job, duplicates counted, then the cursor advanced |
| `Mail.StepKeepsInv` | src/graph/ingest.js:57-242 | every step of the world, crashes and renumbering included, keeps what is at or below the cursor recorded or unparseable |
| `Mail.EveryRun` | src/graph/ingest.js:57-242 | and so does every run |
| `Mail.EveryMailIsHeld` | src/graph/ingest.js:57-242 | from the first pass on, under a hash that tells mails apart, of what parses at or below a current cursor the very text is held that was built of it |
| `Mail.FreshIsSound` | src/graph/ingest.js:57-242 | a listener that has seen nothing meets the invariant |
| `Mail.CollidingMailIsDropped` | src/graph/ingest.js:57-242 | of two mails with one hash only the first is held, and the cursor passes both |
| `Mail.OrphansHaveNoJob` | src/graph/ingest.js:104-107 | evidence without a job is exactly what a crash cut off between the two |
| `Mail.CrashOrphansMail` | src/graph/ingest.js:104-107 | a run that ends so, and no later run gives that evidence a job |
| `Mail.PassMovesIff` | src/mail/source.js:166-179 | a pass moves the cursor, strictly forward, exactly when a message of its batch parses |
| `Mail.UndisturbedPass` | src/graph/ingest.js:57-242 | left alone, the machine's steps are one pass of the listener |
| `Mail.PassLosesNothingIff` | src/graph/ingest.js:57-242 | whatever order the server answers in, a pass loses nothing exactly when what it passes over is unparseable, recorded or in the batch by its hash |
| `Mail.PassedOverIsNeverFetched` | src/mail/imap-client.js:110-125 | what lies at or below the cursor is in no later batch of the epoch |
| `Mail.OrderLosesNothing` | src/graph/ingest.js:57-242 | a server that answers in order never makes a pass lose mail |
| `Mail.DisorderLosesMail` | src/mail/imap-client.js:110-125 | a box, answered out of order, one of whose mails is lost |
| `Spans.StandsIff` | src/extract/spans.js:44-63 | for every source u + q + v the normal form of q matches where q stands exactly when no hyphen at an end of q folds away |
| `Spans.QuoteStandsIff` | src/extract/spans.js:44-63 | the same of source and quote as NFKC leaves them |
| `Spans.HonestQuoteIsFound` | src/extract/spans.js:44-63 | every other contiguous quote stands, normalised, in its normalised source |
| `Spans.HyphenationChangesNothing` | src/extract/spans.js:51-60 | a hyphen and whitespace between two letters change nothing, whatever NFKC does to the text |
| `Spans.NormaliseIsIdempotent` | src/extract/spans.js:44-63 | normalising twice equals once on NFKC-stable text |
| `Spans.CutQuoteIsLost` | src/extract/spans.js:51-60 | a source in which a quote with a folding hyphen at its end is nowhere found |
| `Spans.DivergenceOf` | src/extract/spans.js:77-99 | the longest prefix that occurs anywhere, and the fork at its first occurrence |
| `Spans.OccurrenceIsMonotone` | src/extract/spans.js:77-85 | a prefix of what occurs, occurs |
| `Spans.LongestForksEverywhere` | src/extract/spans.js:77-99 | at every occurrence of it the source differs or ends |
| `Spans.HeldIffGrounded` | src/extract/spans.js:111-194 | a complete fact is held exactly when its source supports its quote, and the offset is where |
| `Spans.HonestQuoteIsHeld` | src/extract/spans.js:111-194 | verification refuses no such quote of sufficient length |
| `Spans.BlankQuoteIsHeld` | src/extract/spans.js:134-169 | a blank quote is held for a blank value where the source does not start with a word |
| `Spans.VerifyFacts` | src/extract/spans.js:204-217 | each fact that holds, in order, and each that does not, with its verdict |
| `Spans.KeptSplits` | src/extract/spans.js:204-217 | every fact is verified or rejected, once |
| `Spans.KeptOnMerit` | src/extract/spans.js:204-217 | on its own merits, not its neighbours' |
| `Blocks.RequireText` | src/protocol/blocks.js:117-128 | accepts exactly texts that are not blank and hold no sentinel token |
| `Blocks.ScanBlockFrames` | src/protocol/blocks.js:130-180 | the frames, or the first fault, as the scan by suffix finds them |
| `Blocks.ScanAccounts` | src/protocol/blocks.js:130-180 | an accepted artifact is exactly its blocks spelled out, only whitespace around them and no token inside |
| `Blocks.KnownIsCanonical` | src/protocol/blocks.js:8-95 | every registered tag is upper-case letters and underscores |
| `Blocks.Render` | src/protocol/blocks.js:278-292 | prints exactly the entries with a known tag, a safe argument and an acceptable content |
| `Blocks.PrintedMatches` | src/protocol/blocks.js:100-101 | a printed block is matched where it stands, as itself |
| `Blocks.ComposedScansBack` | src/protocol/blocks.js:302-309 | composing succeeds exactly when every block is printable, and scanning returns them; the self-check never refuses |
| `Blocks.SingleBlockReturns` | src/protocol/blocks.js:324-335 | a single block gives its text back trimmed; any other number is refused |
| `Blocks.NamedBlocksReturn` | src/protocol/blocks.js:346-356 | named blocks give back their arguments and texts, in order |
| `Blocks.CloseBlocks` | src/protocol/blocks.js:255-270 | the line pass puts an END before each opener that follows an open block, and at the tail |
| `Blocks.ClosedIsBalanced` | src/protocol/blocks.js:255-270 | no block is open when another opens, nor at the end |
| `Blocks.ClosedInserts` | src/protocol/blocks.js:255-270 | only END lines are added; every line keeps its place |
| `Blocks.ClosingSettles` | src/protocol/blocks.js:255-270 | it changes exactly what is not well closed, so twice is once |
| `Lanes.Pool.OnMessage` | src/runtime/lanes.js:81-100 | a reply settles its pending task, frees the lane and pumps; any other is ignored |
| `Lanes.Pool.OnExit` | src/runtime/lanes.js:106-123 | a crash fails what the lane was running, and the lane is replaced unless shutting down |
| `Lanes.Pool.Pump` | src/runtime/lanes.js:133-141 | waiting tasks go to idle lanes, oldest first, while both exist |
| `Lanes.Pool.OnDispatch` | src/runtime/lanes.js:147-157 | a new id is pending and queued, unless shutting down |
| `Lanes.Pool.OnShutdown` | src/runtime/lanes.js:159-169 | everything pending is settled and the queue emptied |
| `Lanes.InitialIsValid` | src/runtime/lanes.js:67-172 | a new pool meets the invariant |
| `Lanes.StepKeepsValid` | src/runtime/lanes.js:70-169 | pending is waiting or in flight, never both; a queue means no idle lane; no promise settles twice |
| `Lanes.EveryInterleaving` | src/runtime/lanes.js:70-169 | the same over every interleaving, tasks starting in dispatch order |
| `Lanes.UnsettledIsHeldOnce` | src/runtime/lanes.js:70-169 | an unsettled task is waiting or held by exactly one lane |
| `Lanes.ShutdownSettlesEverything` | src/runtime/lanes.js:159-169 | after a shutdown no promise is left open |
| `Streams.BoundaryIsStable` | src/llm/client.js:708-714 | text that arrives later never completes an earlier boundary |
| `Streams.DrainIsIncremental` | src/llm/client.js:679-698 | draining as text arrives takes the events that draining it all at once takes |
| `Streams.ReadServerSentEvents` | src/llm/client.js:679-706 | the payloads depend on the whole text alone, not on its chunks |
| `Streams.PayloadsReadLineByLine` | src/llm/client.js:679-714 | where blank lines end like the lines before them, the events are those of reading line by line |
| `Streams.ReadingsAgreeIff` | src/llm/client.js:679-714 | for every text, exactly when splitting at boundaries reads the events of reading line by line |
| `Streams.MixedBlankLinesMerge` | src/llm/client.js:708-714 | two lines around a mixed blank line are read as one event, wrongly exactly when both are data lines |
| `Streams.LoopDetector.Count` | src/llm/client.js:498-518 | a counted line trips exactly when it came back too often in the window |
| `Streams.LoopDetector.Feed` | src/llm/client.js:490-519 | a delta trips only on the first repeat among the phrases of the whole text |
| `Streams.CountedIncremental` | src/llm/client.js:490-500 | the counted lines of a text are those of its parts, joined |
| `Streams.Watch` | src/llm/client.js:490-519 | the verdict is that of the concatenated text, whatever the deltas |
| `Streams.InflightGate.Acquire` | src/llm/client.js:183-188 | a request runs if a slot is free and otherwise waits its turn |
| `Streams.InflightGate.Release` | src/llm/client.js:189-194 | the slot goes to whoever has waited longest; the limit is never passed |
| `Workflow.ProposedIsSound` | src/domain/workflow.js:71-116 | a new match meets the invariant |
| `Workflow.StepKeepsInv` | src/domain/workflow.js:118-263 | every transition keeps deadlines, previews and blocking decisions consistent |
| `Workflow.StepKeepsTerminal` | src/domain/workflow.js:49-54 | a terminal match never changes, and history only grows |
| `Workflow.StepReplays` | src/domain/workflow.js:55-68 | replaying history yields the match |
| `Workflow.EveryRun` | src/domain/workflow.js:71-263 | all of it over every run |
| `Workflow.IntroductionIsEarned` | src/domain/workflow.js:71-263 | introduced means both previews sent, nobody objecting, and both approving or the deadline passed |
| `Outbox.EnqueuedIsSound` | src/domain/outbox.js:122-180 | a new job is pending with no attempt made |
| `Outbox.ApplyKeepsSound` | src/domain/outbox.js:318-442 | attempts stay within the limit and equal the sends started; every change uses up fuel |
| `Outbox.RunsAreBounded` | src/domain/outbox.js:318-442 | a job changes at most 2 * maxAttempts times in any run |
| `Outbox.DueIffClaimable` | src/domain/outbox.js:445-448 | due is exactly claimable |
| `Outbox.RetryTimeIsBounded` | src/domain/outbox.js:101-442 | a job in flight is put to wait exactly when a failure or a recovery calls for it and an attempt is left, due between the report and the capped exponential after it |
| `Outbox.OutboxRepository.EnqueueJob` | src/store/repositories.js:302-317 | the first job under a key is stored; later ones return it |
| `Outbox.OutboxRepository.SaveJob` | src/store/repositories.js:319-336 | a row is overwritten unless it is SENT |
| `Outbox.SentIsForever` | src/store/repositories.js:302-336 | whatever stale copies are saved, a SENT row never changes and no key has two rows |
| `Outbox.HandoffsAccount` | src/store/repositories.js:302-336 | handoffs are the rise in attempts plus what stale saves took back, over every run |
| `Outbox.HandoffsAreBounded` | src/store/repositories.js:302-336 | so with fresh copies, handoffs per row never pass maxAttempts |
| `Outbox.StaleFailureHandsOffAgain` | src/store/repositories.js:319-336 | with stale failure reports they do: three handoffs of a job limited to two attempts |
| `Matching.ScorePair` | src/graph/matching.js:92-224 | the score and reasons of a pair, or none, or an intake refusal |
| `Matching.ReasonsSum` | src/graph/matching.js:110-204 | what the reasons add up to, arm by arm |
| `Matching.AboveBareIffShared` | src/graph/matching.js:206-222 | a pair scores above the bare complement exactly when it shares something specific |
| `Matching.BestIsBest` | src/graph/matching.js:464-479 | no fitting proposal of a candidate beats the one that speaks |
| `Matching.ProposeFromRoles` | src/graph/matching.js:342-428 | every proposal of the declared arm, in order |
| `Matching.ProposalAnswers` | src/graph/matching.js:449-506 | every proposal of the graded arm, in order |
| `Matching.PairIntents` | src/graph/matching.js:541-573 | every inferred proposal at or above the threshold, in order |
| `Matching.ProposeIntroductions` | src/graph/matching.js:508-591 | the best of each pair, best first, at most the limit |
| `Matching.SelectionIsOrdered` | src/graph/matching.js:578-590 | non-increasing confidence, no ordered pair twice |
| `Matching.NothingBetterIsOmitted` | src/graph/matching.js:578-590 | each proposal is represented by one at least as good, or the limit is full of such |
| `Matching.KeysNamePairs` | src/graph/matching.js:585-585 | without '\|' in a seeker's id the key names the ordered pair |
| `Matching.CollidingPairIsDropped` | src/graph/matching.js:585-585 | with one, a pair can be crowded out by another |
| `Matching.EveryProposalIsHonest` | src/graph/matching.js:342-573 | never oneself, and confidence is the capped sum of the listed reasons, on all arms |
| `Matching.InferredRestsOnSpecifics` | src/graph/matching.js:541-573 | at the default threshold an inferred proposal shares something specific |
| `Matching.IntakeIsProposedIff` | src/graph/matching.js:104-114 | intake artefacts are proposed exactly at thresholds of zero or less |
| `Matching.InferredOutranksIff` | src/graph/matching.js:110-376 | for every inferred pairing and every declaration, exactly when the first scores higher |
| `Matching.InferredCanOutrankDeclared` | src/graph/matching.js:369-376 | a full inferred score beats a bare declaration |

## Left out

- Characters are Dafny characters, not UTF-16 code units, lowering in addresses is ASCII, and lowering a quote maps one character to one; NFKC, letter tables, hashing, JSON parsing, `String`, `Number` and regular-expression word splitting are parameters.
- The `sentinel-blocks` package is not part of this model: its wrapper is assumed to print `<<<TAG ARG>>>`, a newline, the content, a newline and `<<<END>>>`, and its extractors to return the contents that the frame pattern matches.
- Sockets, IMAP and SMTP sessions, HTTP, timers, worker threads and aborted signals: only the events they deliver.
- The tolerant rewrites before the line pass of `extractArtifact`, and `stripFenceLines`: pattern clean-up. Of `readEnvelope` the order of its readers, the manifest's and the bare object are modelled; the OBSERVATIONS and fence readers are parameters, and an answer that reads, by whichever reader, is one event of the loop.
- The inference cache, in-flight sharing, provenance, telemetry, and prompt wording: what the next attempt is shown is modelled only up to the bank, the rejects listed and whether the REPAIR note is refused.
- Discrepancy reports of `validateEnvelope` (cited but unquoted, unknown source): reported, never used to keep or drop a claim.
- `proposeIdentityMerges`, `addressesIn` and the text of merge candidates: proposals to a person, filtered by the index proved here.
- `Workflow.StepKeepsInv`: a member id is looked up among the two members of its match; ids that are names every object inherits are left out, because ids are mail addresses.
- `Matching.ScorePair`: likewise an intent type that is such a name, because types are upper-case words of a closed list or UNKNOWN.
- `claimable`, `stalled`, the invitation helpers and every repository other than the outbox: queries and upserts with no further invariant.
- `src/store/db.js` and the storage engine: a write is one step and succeeds or is refused.
- The order of roles and vocabularies as they are indexed from observations, and the wording of reasons, quotes and evidence on a proposal: the arms start from the indexed roster, and a reason carries its name, weight and count.
- Floating-point rounding of scores and confidences: weights are exact hundredths, so `toFixed` has nothing to round.
- `observedAt`, `validFrom` and provenance on graph rows: copied through unchanged.
- The member lifecycle, waitlist, CSV, rate limiter, research and web parts: separate and without a deep invariant.
