# Evaluation harness: models and proofs

The scripts under `scripts/` drive paid experiments against a stand and then say whether they passed. This project
models the parts of them where a wrong step would make such a verdict mean less than it says, and proves what the
verdicts, the journals and the figures mean. `dafny verify dfyconfig.toml` checks all of it.

| area | files |
|---|---|
| streaming readers | `StreamScanner.dfy`, `SseReader.dfy`, `AnswerStream.dfy`, `AnswerParagraph.dfy` |
| worker pool | `Pool.dfy` |
| crash recovery of the activation experiment | `Activation.dfy`, `ActivationJournal.dfy`, `ActivationPlan.dfy`, `ActivationRecords.dfy`, `ActivationRecovery.dfy`, `ActivationSafety.dfy`, `ActivationServer.dfy`, `ActivationReport.dfy` |
| canonical text under a hash | `Canonical.dfy`, `CanonicalText.dfy`, `CanonicalUnambiguous.dfy`, `CanonicalOrder.dfy` |
| rounds, overlap, transcripts and usage | `Rounds.dfy`, `Overlap.dfy`, `Transcript.dfy`, `TranscriptUsage.dfy` |
| names, answers, verifier verdicts | `NameMatch.dfy`, `Comparison.dfy`, `Repeatability.dfy`, `Verdicts.dfy` |
| amounts and slopes | `Euro.dfy`, `EuroShape.dfy`, `Slope.dfy` |
| verdicts of the qualifications | `Extraction.dfy`, `CleanupReviews.dfy`, `CleanupEvaluation.dfy`, `CleanupInventory.dfy` |
| shopping oracle | `ShoppingCart.dfy`, `ShoppingOracle.dfy` |
| context-compaction journey | `JourneyText.dfy`, `Journey.dfy` |
| shared | `Wrappers.dfy`, `JsText.dfy`, `Sorting.dfy`, `Permutations.dfy` |

Code that updates variables step by step is a method or a class here, proved against a specification function or
predicate; the properties are then lemmas about that specification. Concurrency and crashes are step relations: a run is
any sequence of enabled steps, so a statement about runs covers every interleaving and a crash between any two steps.

What the code computes with and does not define is a parameter: the JSON parser, the digest (where a result rests on it,
no two of the texts compared collide), regular expressions and character classes, Unicode normalisation, the seeded text generator, the
token estimator, and what the stand answers.

## Where the code differs from what is said of it

- **Key order under the hash.** The keys of an object are sorted with `localeCompare`, which can call two different keys
  equal. `CanonicalOrder.KeyOrderIrrelevantIff` shows that the text of an object is independent of the order of its keys
  exactly when no two of them tie. It is unambiguous in every case (`CanonicalUnambiguous.TextDeterminesMeaning`).
- **Deleting a chat after an error.** After an error response the activation experiment counts the chat's runs and, at
  zero, deletes the chat. Count and deletion are two steps, so a server that admits the run in between loses a paid run. The
  receipts and provider calls are compared in one transaction and the chat is deleted by a later request, so one that arrives in
  between is lost too. `ActivationServer.DeletionSafeIff` shows that every reachable deletion is safe exactly when the server does neither.
  A run admitted so late is also paid for a second time by a later process, or missing from a complete report:
  `ActivationServer.OneRunPerKeyIff` and `CountedOnceIff` are exact. The records themselves hold for every server
  (`ActivationRecords`).
- **The report beside the journal.** A save renames the journal and then the report, and can fail, or the process crash, between
  them. `ActivationReport.ReportAgreesIff` is exact: the two agree if and only if every rename of the journal that changed its rows
  or its mark was followed by a rename of the report. So a process can live on beside a stale report, after a save that failed
  (`StaleAfterFailure`) or until a resumed process first saves (`StaleAtResume`). Beside a complete journal it stays stale for good,
  because such a journal ends every later process at once (`ReportLeftBehind`, `StaleForGood`).
- **Zero false saves.** The comment at `scripts/qualify-memory-extraction.ts:35` says that a passed status requires zero
  false saves. In DURABLE and ONGOING a false save without a correct one counts as the permitted miss.
  `Extraction.ZeroFalseSavesIff` gives the exact condition: what those scenarios saved reaches into their texts.
  `Extraction.HiddenFalseSave` turns any passing run without a DURABLE miss into a passing run with one more false save.
- **"Could not check".** The harness replaces only the first space of a verdict, the server all of them
  (`lib/server/research/verifier.ts:160`). A claim answered with two spaces is counted among the claims but in none of the
  five tallies, and so is one spelled with a long s, which the pattern accepts. `Verdicts.ClaimsAddUpIff` is exact.
- **Runaway blocks.** The event reader drops a tail of more than 4 MiB; whether it does depends on where the pieces end.
  `SseReader.NeverDroppedIff` gives the texts that lose nothing however they are cut; the streams that the encoder writes
  are among them (`SseReader.WrittenStreamIsRead`).
- **The first summary.** The comment on the journey's verdict says that the first summary started at the first turn past
  the trigger or the next. The code also passes a run in which no turn's own estimate crossed it
  (`Journey.ExamplePassedWithoutCrossing`). `Journey.PassedIff` says what a pass means, and `Journey.FirstSummaryAtCrossingIff`
  when a pass has its summary there: exactly when the estimate of the summary's turn, or of the one before, crossed.
- **The 72-85 % band.** The comment at `scripts/context-compaction-journey-support.ts:40-42` keeps fillers well inside the
  band. They stay inside at every admitted window exactly while no paragraph has more than 16160 tokens
  (`JourneyText.BandKeptIff`); no filler turn of a run skips the band then (`Journey.Run.RunJourney`). The comment at lines
  363-369 lands the crossing turn below 78 per cent. That is the step alone: measured after the turn it holds only for
  one-token paragraphs and an empty answer (`JourneyText.LandsBelow78Iff`). What the minimal filler after it needs holds from
  wherever it lands, exactly while no paragraph has more than 6928 tokens (`JourneyText.MinimalFillerStaysIff`).
- **Cart lines.** Lines are matched one by one, each to the first open product that it fits. With two chosen products of
  one name this misses pairings that exist; `ShoppingCart.FindsEveryMatchingIff` is exact.

## Model

| member | source | states |
|---|---|---|
| `StreamScanner.Scanner.Push` | scripts/context-compaction-journey-support.ts:905-918 | after any pieces the scanner's buffer, skipping and cycle count are those of one pass over their concatenation; the line buffer stays within 4096 characters and is empty while skipping |
| `StreamScanner.Scanner.CompleteLine` | scripts/context-compaction-journey-support.ts:885-903 | one complete line moves the event and the count as the whole-text reading of that line does |
| `StreamScanner.Scanner.TakePiece` | scripts/context-compaction-journey-support.ts:907-917 | a piece extends the standing line, or ends it, in step with the whole text read so far |
| `StreamScanner.Scanner.SummaryCycles` | scripts/context-compaction-journey-support.ts:919 | the count is the number of lines that the independent definition of a running summary selects |
| `StreamScanner.CyclesCount` | scripts/context-compaction-journey-support.ts:880-921 | the event machine counts exactly the data lines whose nearest event line before them, not past a blank line, names an artifact and whose payload is a running compaction |
| `StreamScanner.StandingNext` | scripts/context-compaction-journey-support.ts:907-917 | taking the pieces of a split one after another is reading the whole text with the new piece glued on |
| `StreamScanner.KeptAre` | scripts/context-compaction-journey-support.ts:907-914 | the lines that can count are exactly the terminated ones of at most 4096 characters, in order, each less one CR at its end |
| `SseReader.Reader.Parse` | scripts/research-review-support.ts:312-321 | one block yields its last event name and its data lines joined, or nothing without data |
| `SseReader.Reader.Push` | scripts/research-review-support.ts:305-326 | a chunk yields the events of the blocks it completes and keeps the tail, dropped when it is past the bound |
| `SseReader.CutAppend` | scripts/research-review-support.ts:309-311 | cutting blocks off a text commutes with appending to it |
| `SseReader.CutIs` | scripts/research-review-support.ts:309-311 | the text is its blocks, each followed by the empty line that ended it, and a rest; neither a block nor the rest holds an empty line |
| `SseReader.BlockMeans` | scripts/research-review-support.ts:312-321 | a block says the values of its data lines, in order and joined by line feeds, under the kind of its last event line, or under the default kind without one; without a data line it says nothing |
| `SseReader.ChunkingIndependent` | scripts/research-review-support.ts:302-328 | without a dropped tail, any chunking yields the events of the whole text |
| `SseReader.InStepIffNoDrop` | scripts/research-review-support.ts:323-324 | the reader is in step with the whole text after every chunk if and only if no tail was ever dropped |
| `SseReader.NeverDroppedIff` | scripts/research-review-support.ts:302-328 | no chunking of a text has a tail dropped if and only if every start of the text ends in an unfinished block within the bound |
| `SseReader.RunawayBlockChangesEvents` | scripts/research-review-support.ts:324 | two chunkings of one text with a runaway block give different events |
| `SseReader.RoundTrip` | lib/domain/modelRunEvents.ts:152-160 | reading what the encoder writes for any well-formed frames gives back their events, in order |
| `SseReader.WrittenNeverDropped` | scripts/research-review-support.ts:323-324 | a stream of encoded frames within the bound never has its tail dropped, wherever it is cut |
| `SseReader.WrittenStreamIsRead` | scripts/research-review-support.ts:302-328 | so the reader returns exactly the encoded events for every chunking |
| `AnswerStream.AnswerStreamFacts` | scripts/research-review-support.ts:344-369 | times of text and of the end, the first text's first paragraph, resets after text, and the number of resets that rewrote the text, both as sets of segment positions |
| `AnswerStream.FactsMean` | scripts/research-review-support.ts:344-369 | each fact from the events and the segments alone: the resets and rewrites as sets of segments, the paragraph of the first segment with text, the times of exactly the text tokens, in order, the first of them, and the time of the first event that finishes |
| `AnswerStream.OneSegment` | scripts/research-review-support.ts:352 | without a reset there is one segment: the deltas joined in the order of the stream |
| `AnswerStream.ResetCuts` | scripts/research-review-support.ts:356-357 | a reset cuts: the segments of what stands before and after it are those of either part |
| `AnswerParagraph.FirstParagraphMeans` | scripts/research-review-support.ts:331-337 | the first paragraph is the start of the first piece between breaks that is long enough and no heading: a stretch of 120 to 300 characters that no blank line breaks and that begins with neither white space nor a heading's mark; there is none if and only if no piece is |
| `AnswerParagraph.ParagraphsUnbroken` | scripts/research-review-support.ts:335 | no piece between breaks holds a blank line, white space in it or not |
| `AnswerParagraph.ParagraphsCover` | scripts/research-review-support.ts:335 | every character that is not white space is in some piece |
| `AnswerStream.CountRewrites` | scripts/research-review-support.ts:362-366 | the count is the size of the set of segments that show text and whose next text does not begin with it |
| `AnswerStream.RewritesAreTextResets` | scripts/research-review-support.ts:356-366 | rewrites are among the resets after text, so `rewritten` is at most `resetsAfterText` |
| `AnswerStream.KeptIffResent` | scripts/research-review-support.ts:362-365 | a segment is kept exactly when the first later segment with text begins with its first 300 characters, white space aside |
| `AnswerStream.RewrittenZeroIff` | scripts/research-review-support.ts:362-366 | nothing counts as rewritten if and only if every text before a reset is sent again |
| `AnswerStream.ResendingKeeps` | scripts/research-review-support.ts:361-366 | a stream that resends its text after each reset has no rewrite |
| `AnswerStream.FactsIgnoreChunking` | scripts/research-review-support.ts:302-369 | the facts of two chunkings of one stream, read at whatever times, have the same first paragraph, resets and rewrites, and as many times of text; only the times differ |
| `Pool.NextInv` | scripts/research-eval-support.ts:372-378 | every step of every worker keeps the pool's invariant: the cursor is the number of started items, each started item is in flight with one worker or has its own outcome in its own slot |
| `Pool.RunsAreSteps` | scripts/research-eval-support.ts:370-379 | the start is a run, and a run with any step after it is one |
| `Pool.RunBegins` | scripts/research-eval-support.ts:371 | a run begins with as many workers as there are items, or as are allowed if that is fewer, none of them at work and no outcome stored |
| `Pool.NoItemRunsTwice` | scripts/research-eval-support.ts:368-380 | in every interleaving no item starts twice, and no more are in flight than there are items or than the concurrency allows |
| `Pool.FinishedRunIsComplete` | scripts/research-eval-support.ts:370-379 | when all workers have ended, every item was started exactly once, in order, and slot i holds item i's value as fulfilled or, if its work failed, a rejection with the harness's reason, rejected siblings or not |
| `Pool.Progress` | scripts/research-eval-support.ts:372-378 | until all workers have ended some step is possible, and none after |
| `Pool.StepDecreases` | scripts/research-eval-support.ts:372-378 | every step lowers a measure by one |
| `Pool.RunsAreBounded` | scripts/research-eval-support.ts:372-378 | so every run has at most two steps an item and one a worker |
| `Pool.RunEndsDone` | scripts/research-eval-support.ts:372-379 | a run is finished exactly when it has made all of them |
| `Pool.ResearchPool` | scripts/research-eval-support.ts:368-380 | over an arbitrary schedule the results array ends with each item's value as fulfilled, or a rejection where its work failed; a concurrency below one is refused |
| `ActivationJournal.JournalInMemory.Reported` | scripts/experiment-workspace-activation.ts:197-199 | whether a row of the key is in the report |
| `ActivationJournal.JournalInMemory.AppendRow` | scripts/experiment-workspace-activation.ts:200-205 | adds a row unless its key is reported; keys stay unique; nothing else changes |
| `ActivationJournal.JournalInMemory.RecordReceipts` | scripts/experiment-workspace-activation.ts:468-476 | adds a run's receipts all together, or none when a recorded one reads differently; recorded ones never change |
| `Activation.MergedMeaning` | scripts/experiment-workspace-activation.ts:468-474 | the merge succeeds if and only if the receipts agree with the recorded ones and with each other, and then holds exactly those of both |
| `ActivationSafety.StepKeeps` | scripts/experiment-workspace-activation.ts:396-584 | if no run is admitted after its request was answered with an error, every enabled step of the process, of the server, and every crash keeps the protocol's invariant |
| `ActivationSafety.RunKeeps` | scripts/experiment-workspace-activation.ts:396-584 | under that assumption the invariant holds in every reachable state |
| `ActivationSafety.OneRunPerKeyEver` | scripts/experiment-workspace-activation.ts:503-555 | under that assumption no key is admitted twice, in any run with crashes anywhere |
| `ActivationServer.OneRunPerKeyIff` | scripts/experiment-workspace-activation.ts:503-555 | no key is ever admitted twice if and only if the server admits no run after answering its request with an error |
| `ActivationSafety.DeletionIsSafe` | scripts/experiment-workspace-activation.ts:267-277 | under both assumptions on the server, a chat is only deleted when the row of each run admitted in it, every receipt that the stand holds and every call it has started are on disk, no call is open, and nothing is in flight in it |
| `ActivationSafety.ReceiptsStay` | scripts/experiment-workspace-activation.ts:267-277 | from a passed check to the deletion the receipts and started calls on disk are those of the stand |
| `ActivationRecords.RunRecords` | scripts/experiment-workspace-activation.ts:396-584 | whatever the server does, in every reachable state: rows have keys of their own and name admitted runs, memory holds what the disk does, requests in flight are those of the pending row, a complete mark comes last |
| `ActivationRecords.RecordsNeverChange` | scripts/experiment-workspace-activation.ts:210-212 | whatever the server does, recorded receipts and report rows on disk stay as they are ever after |
| `ActivationRecords.RowsAreOfRuns` | scripts/experiment-workspace-activation.ts:200-205 | whatever the server does, the report has one row a key, and each row with a run names an admitted run of that key that has ended |
| `ActivationRecords.CompleteMeans` | scripts/experiment-workspace-activation.ts:557-570 | whatever the server does, a journal marked complete covers the plan, and no chat is left, nothing pending and nothing in flight |
| `ActivationPlan.OnlyPlanned` | scripts/experiment-workspace-activation.ts:503-515 | whatever the server does, every run ever admitted and every row is of a key of the plan |
| `ActivationRecords.OnlyWhereSettled` | scripts/experiment-workspace-activation.ts:250-266 | a check is only passed, on the way to a chat, a row or a deletion, where every provider call is settled and every receipt and started call is on record as it reads now |
| `ActivationSafety.CompleteReportCountsAll` | scripts/experiment-workspace-activation.ts:557-570 | if no run is admitted after its request was answered with an error, a report marked complete counts every run ever admitted exactly once, and no other |
| `ActivationServer.CountedOnceIff` | scripts/experiment-workspace-activation.ts:557-570 | every complete report counts so if and only if the server keeps to that |
| `ActivationSafety.RecoverKeeps` | scripts/workspace-activation-support.ts:49-55 | the choice between collecting an accepted run and discarding its chat keeps the invariant from every state a crash can leave |
| `ActivationRecovery.RecoverIs` | scripts/workspace-activation-support.ts:49-55 | whatever the server did, in every reachable state a resumed process collects if and only if its key has no row and its chat one run, cleans up if and only if the key has a row and the chat at most one run, or nothing was submitted and there is neither, and otherwise stops; nothing but its place changes |
| `ActivationRecovery.RunIsCollected` | scripts/experiment-workspace-activation.ts:396-494 | a process that polls for a run that ended, with its calls settled, comes by some enabled steps to its row on disk, and on to the next key with its chat gone |
| `ActivationRecovery.ResumedRunIsCollected` | scripts/experiment-workspace-activation.ts:495-501 | so a resumed process that finds one accepted run without a row, ended and settled, comes there too |
| `ActivationServer.DeletionSafeIff` | scripts/experiment-workspace-activation.ts:543-551 | every reachable deletion is safe if and only if the server never admits a run after answering its request with an error and never adds or changes a receipt or a provider call between the last check and the deletion; each alone has a run that loses |
| `ActivationReport.FilesReach` | scripts/experiment-workspace-activation.ts:205-240 | with every save split into its two renames, failures and crashes between them, and the first saves of a process apart, the journal's states are still those of the runs above |
| `ActivationReport.ReportAgreesIff` | scripts/experiment-workspace-activation.ts:210-228 | whatever the server does, the report agrees with the journal if and only if every rename of the journal that changed its rows or its mark was followed by a rename of the report |
| `ActivationReport.AgreesUntilInterrupted` | scripts/experiment-workspace-activation.ts:206-228 | once they agree they do, outside a save, until a save is interrupted between its renames |
| `ActivationReport.CompleteReportAgreesIff` | scripts/experiment-workspace-activation.ts:210-228 | beside a complete journal the report agrees if and only if it says itself that the cleanup is complete |
| `ActivationReport.StaleForGood` | scripts/experiment-workspace-activation.ts:321 | a complete journal and the report beside it are never written again |
| `ActivationReport.ReportLeftBehind` | scripts/experiment-workspace-activation.ts:570 | for every plan, and whatever the server does, a complete journal can stand beside a report that says otherwise |
| `ActivationReport.StaleAfterFailure` | scripts/experiment-workspace-activation.ts:514-570 | for every plan with a key a process can live on, outside a save, beside a report that lacks a row of the journal |
| `ActivationReport.StaleAtResume` | scripts/experiment-workspace-activation.ts:310-388 | for every plan a resumed process can live, before its first save, beside a stale report |
| `CanonicalUnambiguous.CanonPrefixFree` | scripts/memory-cleanup-qualification-support.ts:109-117 | the canonical text of a value followed by a delimiter is never the start of another's: where one ends is determined by the text |
| `CanonicalUnambiguous.EscapePrefixFree` | scripts/memory-cleanup-qualification-support.ts:114-116 | an escaped string ends where its closing quote is, and determines the string |
| `CanonicalUnambiguous.TextDeterminesMeaning` | scripts/memory-cleanup-qualification-support.ts:108-119 | equal canonical texts come from equal JSON values, nested arrays, objects and escapes included, whatever the key comparison |
| `CanonicalText.EscapeReads` | scripts/memory-cleanup-qualification-support.ts:114-116 | a string in the canonical text reads back, by the escapes of section 7 of RFC 8259, as itself |
| `CanonicalText.EscapeIsShort` | scripts/memory-cleanup-qualification-support.ts:114-116 | only quotation marks, backslashes and control characters are escaped, and with one letter where JSON has one |
| `CanonicalText.Scalars` | scripts/memory-cleanup-qualification-support.ts:111-117 | undefined, null and what is no finite number print as null, booleans and numbers as they are, strings and dates as a quoted text that reads back as the string |
| `CanonicalText.ArrayText` | scripts/memory-cleanup-qualification-support.ts:112 | an array's text is its items' texts in order, between brackets |
| `CanonicalText.ObjectText` | scripts/memory-cleanup-qualification-support.ts:113-115 | an object's text is its fields, each once, in the order of their keys, between braces |
| `CanonicalText.Commas` | scripts/memory-cleanup-qualification-support.ts:112-115 | texts are joined by single commas |
| `CanonicalOrder.SameTextIffSameMeaning` | scripts/memory-cleanup-qualification-support.ts:108-119 | when different keys never tie, two values have the same text if and only if they mean the same |
| `CanonicalOrder.TieShows` | scripts/memory-cleanup-qualification-support.ts:114 | two keys that tie give an object and its reordering different texts |
| `CanonicalOrder.KeyOrderIrrelevantIff` | scripts/memory-cleanup-qualification-support.ts:113-115 | an object's text is the same for every order of its keys if and only if no two of its keys tie |
| `Rounds.ResearchRounds` | scripts/research-eval-support.ts:961-979 | the rounds hold exactly the calls that have a start, in the order of their starts; each later member starts before the latest end so far; each round starts at or after every earlier round's end |
| `Rounds.RoundsMean` | scripts/research-eval-support.ts:970-979 | in the calls' own times: a round ends with its last start or completion, each later member starts strictly before an earlier one completes, and no call completes after the start of a later round |
| `Overlap.Peak` | scripts/research-eval-support.ts:980-986 | the sweep returns the largest number of calls that run at one instant, from their start until before their completion, and some instant has that many |
| `Overlap.RunningIs` | scripts/research-eval-support.ts:980-986 | the calls that run at an instant are those that have a completion after it and a start no later |
| `Overlap.PeakMeaning` | scripts/research-eval-support.ts:981-985 | the largest running sum of the sorted steps is that maximum |
| `Overlap.OneRoundRuns` | scripts/research-eval-support.ts:970-986 | at any instant all running calls are of one round |
| `Overlap.PeakIsOfARound` | scripts/research-eval-support.ts:970-986 | the peak over all calls is the largest of the rounds' peaks |
| `Transcript.Segment` | scripts/research-eval-support.ts:641-652 | the loop yields the maximal runs of rows |
| `Transcript.RunsPartition` | scripts/research-eval-support.ts:644-651 | every model row is in exactly one response, in order |
| `Transcript.RunsMean` | scripts/research-eval-support.ts:644-651 | each response is a stretch of model rows with consecutive numbers, one timestamp and no anchor after the first, that can be extended on neither side |
| `Transcript.StartsAre` | scripts/research-eval-support.ts:647 | the responses begin, in order, exactly where a model row does not continue the one before |
| `Transcript.RunIsOneResponse` | scripts/research-eval-support.ts:644-651 | rows of a response have consecutive numbers, one timestamp and no anchor after the first, and the response cannot be extended |
| `TranscriptUsage.ResearchResponses` | scripts/research-eval-support.ts:631-661 | rows by id, grouped by lane, sorted by number and segmented give each lane's responses with their figures |
| `TranscriptUsage.GroupByLane` | scripts/research-eval-support.ts:632-638 | the table holds each lane's rows in order, and the lanes in the order of their first rows |
| `TranscriptUsage.ByIdMeans` | scripts/research-eval-support.ts:633 | each id keeps its last row, in the place of its first |
| `Permutations.FirstsInOrder` | scripts/research-eval-support.ts:632-638 | lanes, ids and claims keep the order of their first rows |
| `TranscriptUsage.LaneRowsAre` | scripts/research-eval-support.ts:634-644 | a lane's rows are exactly those of its run, thread and turn, by their numbers |
| `TranscriptUsage.FiguresMean` | scripts/research-eval-support.ts:655-660 | a response reports the input of its first row's anchor, and an output if and only if each of its rows has a share |
| `TranscriptUsage.OutputsAdd` | scripts/research-eval-support.ts:660 | the shares of the output add up |
| `TranscriptUsage.ResponsesOfLane` | scripts/research-eval-support.ts:640-661 | the responses of a lane are the figures of its runs, in order, whatever the other lanes are |
| `TranscriptUsage.RowOrderIrrelevant` | scripts/research-eval-support.ts:631-661 | the responses do not depend on the order of the rows or on rows stored twice |
| `TranscriptUsage.RolesConserve` | scripts/research-eval-support.ts:603-626 | whatever is summed over responses or turns, the six roles share it out completely |
| `TranscriptUsage.ResponsesConserved` | scripts/research-eval-support.ts:607-620 | the roles' response counts add up to all responses |
| `TranscriptUsage.InputConserved` | scripts/research-eval-support.ts:610-624 | the roles' input totals and missing inputs add up to those of all responses |
| `TranscriptUsage.OutputConserved` | scripts/research-eval-support.ts:610-624 | the roles' output totals and missing outputs add up to those of all responses |
| `TranscriptUsage.ReportedAmount` | scripts/research-eval-support.ts:610-613 | a figure that no response reports is absent and not zero; otherwise it is the reported sum |
| `TranscriptUsage.UsageCounts` | scripts/research-eval-support.ts:607-624 | a role's counts are the numbers of the responses of its threads, of those that miss a figure, and of those that miss the input or the output |
| `TranscriptUsage.UsageAdds` | scripts/research-eval-support.ts:610-613 | one more response adds its figure to that of its own role, and to no other |
| `NameMatch.TokensSpell` | scripts/research-eval-support.ts:195-206 | with its early breaks the search finds the name if and only if some range of consecutive tokens joins to it |
| `NameMatch.BreakIsSafe` | scripts/research-eval-support.ts:202 | where the search breaks off, no longer range from the same start spells the name |
| `NameMatch.JoinedAppend` | scripts/research-eval-support.ts:198-200 | tokens are joined in their order |
| `NameMatch.Holds` | scripts/research-eval-support.ts:223-234 | true if and only if some occurrence, overlapping ones included, is open on both sides |
| `NameMatch.IndexOf` | scripts/research-eval-support.ts:226 | the next occurrence at or after a position, or none when there is none |
| `Comparison.FullOverlapIff` | scripts/research-eval-support.ts:392-397 | overlap is 1 exactly for equal, non-empty label sets |
| `Comparison.OverlapSwaps` | scripts/research-eval-support.ts:392-397 | swapping the lists swaps only the sides |
| `Comparison.ConflictingFacts` | scripts/research-eval-support.ts:408-420 | the conflicts are exactly the conflicting pairs, row by row, each once; the two counts are those of their relations; the three together are the pairs that give one attribute of one candidate different values |
| `Comparison.RelateMeans` | scripts/research-eval-support.ts:411-416 | two facts that give one attribute different values conflict, but for a price at two links, which is of another seller, or at one link on two real dates, which is a dated change |
| `Comparison.CountPairsIs` | scripts/research-eval-support.ts:408-420 | each count is the number of places where the relation stands |
| `Comparison.CountPairsTotal` | scripts/research-eval-support.ts:411 | the four relations share out all pairs |
| `Comparison.CountPairsSwaps` | scripts/research-eval-support.ts:408-420 | each count is the same from either side |
| `Comparison.PicksMean` | scripts/research-eval-support.ts:421-428 | when two picks match, when a tie was stated, and when they count as consistent, inconsistent or neither |
| `Repeatability.PairsPermute` | scripts/research-eval-support.ts:437 | the values of a symmetric comparison over all pairs are, as a multiset, independent of the order of the answers |
| `Repeatability.PairsAre` | scripts/research-eval-support.ts:437 | the pairs are every answer with every later one, each once and in order |
| `Repeatability.SumAppend` | scripts/research-eval-support.ts:441 | the conflict total is the sum over the pairs |
| `Repeatability.TiesAre` | scripts/research-eval-support.ts:439 | the ties are the answers that state one |
| `Repeatability.PicksAre` | scripts/research-eval-support.ts:435-436 | the picks counted are those made, in order, by their keys |
| `Repeatability.OrderIrrelevant` | scripts/research-eval-support.ts:421-442 | ties, both minimum overlaps, the conflict total and the verdicts on the pairs' picks are unchanged by permuting the answers |
| `Repeatability.MinimumIs` | scripts/research-eval-support.ts:438 | the minimum is absent exactly without pairs or with an unknown one, and otherwise the least value |
| `Repeatability.LargestPickGroup` | scripts/research-eval-support.ts:435-439 | the count map yields the size of the largest group of equal picks |
| `Repeatability.LargestGroupIgnoresOrder` | scripts/research-eval-support.ts:435-439 | that size is independent of the order of the answers |
| `Verdicts.VerifierVerdicts` | scripts/research-eval-support.ts:901-911 | one verdict for each claim all whose lines agree, in the order of the claims' first lines |
| `Verdicts.VerdictsAre` | scripts/research-eval-support.ts:901-911 | one verdict for each claim whose lines all agree, that of its lines, in the order of the claims' first lines |
| `Verdicts.NormalisedMeans` | scripts/research-eval-support.ts:906 | how each captured spelling without a long s is read, in any case |
| `Verdicts.TallyMeans` | scripts/research-eval-support.ts:913-918 | each tally is the number of verdicts of its own spelling, and the claims are all |
| `Verdicts.OnlyTheSetMatters` | scripts/research-eval-support.ts:901-911 | the verdicts depend only on the set of claims with normalised verdicts |
| `Verdicts.TallyOfTheSet` | scripts/research-eval-support.ts:913-918 | so does the tally |
| `Verdicts.DisputedForGood` | scripts/research-eval-support.ts:907-908 | a claim that once had two different verdicts has none, whatever lines follow |
| `Verdicts.TalliedIff` | scripts/research-eval-support.ts:882-906 | a captured spelling normalises to one of the five verdicts if and only if it has no long s and not both spaces |
| `Verdicts.ClaimsAddUpIff` | scripts/research-eval-support.ts:913-918 | the claims are those of the five tallies and those that have a verdict and a line spelled with both spaces or a long s; so the tallies add up if and only if there is none |
| `Verdicts.ExampleTwoSpaces` | scripts/research-eval-support.ts:906 | one claim, counted, and in none of the tallies |
| `Verdicts.ExampleLongS` | scripts/research-eval-support.ts:882-906 | a verdict spelled with a long s is captured, and read with it |
| `Verdicts.ExampleKelvin` | scripts/research-eval-support.ts:882-906 | one spelled with the Kelvin sign is captured, and read with a k |
| `Slope.SeriesSpread` | scripts/browser-scenarios-support.ts:961-964 | two reported points or more have a positive spread, so the division is defined |
| `Slope.SlopeIsLeastSquares` | scripts/browser-scenarios-support.ts:957-965 | the slope is that of the line with the least sum of squared residuals: every other line, in slope or in height, leaves a greater one |
| `Slope.PointsAreAll` | scripts/browser-scenarios-support.ts:958-959 | every reported position counts |
| `Slope.SlopeWithinBounds` | scripts/browser-scenarios-support.ts:957-965 | the slope lies between any bounds on the growth between reported points, gaps anywhere |
| `Slope.RisingSeries` | scripts/browser-scenarios-support.ts:957-965 | a series that never falls has no negative slope |
| `Slope.LinearSeries` | scripts/browser-scenarios-support.ts:957-965 | a linear series has its own coefficient |
| `Euro.BranchesAgree` | scripts/browser-scenarios-support.ts:384-388 | where several patterns match one string they agree on its value |
| `Euro.PrintReads` | scripts/browser-scenarios-support.ts:384-388 | every grouped form, Spanish or English, with or without cents, reads as its amount |
| `Euro.CleanFindsBody` | scripts/browser-scenarios-support.ts:382 | a currency sign before or after, with any spaces, is removed and nothing else |
| `Euro.PrintedAmountReadsBack` | scripts/browser-scenarios-support.ts:379-390 | every amount from 1 to 999999999 cents, printed so, is read back |
| `EuroShape.AmountIsWritten` | scripts/browser-scenarios-support.ts:379-390 | nothing else is read: what is, is a text of at most 32 characters that shows, between white space and at most one currency on either side, one of the four forms, and it is read as its digits say, from one cent below ten million euros |
| `EuroShape.WrittenIsAmount` | scripts/browser-scenarios-support.ts:379-390 | and every such text is |
| `EuroShape.CurrencyIff` | scripts/browser-scenarios-support.ts:382 | the currency is the euro sign, or its three letters in any case |
| `Extraction.JudgeScenario` | scripts/memory-extraction-qualification-support.ts:275-309 | correct and false saves add up to the saved spans; correct ones are those on an allowed span up to the bound; the reason and the miss follow from them |
| `Extraction.VerdictMeans` | scripts/memory-extraction-qualification-support.ts:275-309 | when each reason is given, from the scenario and the saved spans alone: a verdict passes if and only if no save is false and nothing, the replacement, or at least one span was saved, as is expected, in PROTECTED one to be remembered that meets an allowed one |
| `Extraction.CountSaves` | scripts/memory-extraction-qualification-support.ts:279-285 | every saved span is counted on exactly one side |
| `Extraction.SummarizeGroups` | scripts/memory-extraction-qualification-support.ts:415-439 | each group's report is that of its own results |
| `Extraction.Summarize` | scripts/memory-extraction-qualification-support.ts:414-486 | the groups, the number of degraded calls and codes, and the status |
| `Extraction.ReportAddsUp` | scripts/memory-extraction-qualification-support.ts:426-439 | saved and not saved, passed and failed by reason, and the two languages each add up to the group |
| `Extraction.ReportMeans` | scripts/memory-extraction-qualification-support.ts:426-439 | each figure of a group is the number of the group's results of its kind |
| `Extraction.LanguageMeans` | scripts/memory-extraction-qualification-support.ts:426-439 | and so is each figure by language |
| `Extraction.FailuresMean` | scripts/memory-extraction-qualification-support.ts:431-432 | each failure counted is the number of verdicts with its reason, and a pass is none |
| `Extraction.PassesIff` | scripts/memory-extraction-qualification-support.ts:459-482 | a run passes exactly when nothing degraded, all scenarios ran and each passed, but for one miss in each of the two lenient groups |
| `Extraction.PassesMeans` | scripts/memory-extraction-qualification-support.ts:459-482 | the same of the results alone: no code, every call succeeded or retried, as many scenarios as there are, and each passed but for at most one miss in either lenient group |
| `Extraction.PassedProtects` | scripts/memory-extraction-qualification-support.ts:304-482 | in a passed run every PROTECTED scenario that expects a save has a span to be remembered that meets an allowed one, and no false save |
| `Extraction.FalseSavesHideInMisses` | scripts/memory-extraction-qualification-support.ts:296-482 | in a passed run there is no false save if and only if every missed scenario saved nothing |
| `Extraction.ZeroFalseSavesIff` | scripts/memory-extraction-qualification-support.ts:271-486 | in a passed run whose lenient scenarios allow their whole text there is no false save if and only if all they saved reaches into that text |
| `Extraction.HiddenFalseSave` | scripts/memory-extraction-qualification-support.ts:301-482 | any passing run without a DURABLE miss still passes, with one more false save, when a DURABLE scenario saves just past its text instead |
| `Extraction.PassedCallsRecovered` | scripts/memory-extraction-qualification-support.ts:355-373 | in a passed run every call succeeded or failed in a job that recovered, an adjudication's with an adjudication of its own |
| `Extraction.CallStateIs` | scripts/memory-extraction-qualification-support.ts:355-373 | a call is reported as retried if and only if it recovered, and otherwise as it ended |
| `CleanupReviews.SummarizeReviews` | scripts/memory-cleanup-qualification-support.ts:386-432 | the sets of reviewed, removed and settled facts, the outcomes and the reasons, each defined by what a review must say, and the succeeded jobs; an active fact counts as reviewed only through the current policy, and a removed fact that is gone always does |
| `CleanupReviews.SetsMean` | scripts/memory-cleanup-qualification-support.ts:408-430 | a fact is removed, reviewed or settled if and only if some review of one of its versions, under a supported policy, says so |
| `CleanupReviews.OutcomesMean` | scripts/memory-cleanup-qualification-support.ts:412-430 | each outcome is the number of reviews under the current policy that have it, in a job that succeeded or, for one that gives up, in none |
| `CleanupReviews.ReasonsMean` | scripts/memory-cleanup-qualification-support.ts:425-430 | each of the six reasons is counted once for each review that gives up with it, and no other reason is |
| `CleanupReviews.LastVersion` | scripts/memory-cleanup-qualification-support.ts:404-407 | a version is of the fact it is last listed under |
| `CleanupReviews.Step` | scripts/memory-cleanup-qualification-support.ts:408-430 | one review changes exactly the sets and counts its class names |
| `CleanupReviews.ReviewOrderIrrelevant` | scripts/memory-cleanup-qualification-support.ts:408-431 | the summary is the same for every order of the reviews |
| `CleanupEvaluation.AssertOwnership` | scripts/memory-cleanup-qualification-support.ts:442-455 | passes if and only if every fact of the rubric is there, active, and protected as it says |
| `CleanupEvaluation.AssertContinuation` | scripts/memory-cleanup-qualification-support.ts:501-520 | passes if and only if the inventories have the same facts and no baseline row has a complaint; otherwise the first complaint is thrown |
| `CleanupEvaluation.Evaluate` | scripts/memory-cleanup-qualification-support.ts:457-498 | a changed protected row comes first, then a missing source; otherwise the counts over the visited facts |
| `CleanupEvaluation.EvaluatedMeans` | scripts/memory-cleanup-qualification-support.ts:470-497 | what an evaluation throws, if it does: that a protected row of the baseline is gone or reads differently; if none is, that a fact of the rubric which is looked at was not active |
| `CleanupEvaluation.VisitItem` | scripts/memory-cleanup-qualification-support.ts:483-495 | one fact moves exactly the counts of the classes it is in |
| `CleanupEvaluation.EvaluationMeans` | scripts/memory-cleanup-qualification-support.ts:480-497 | each count is the number of the rubric's items of its kind |
| `CleanupEvaluation.ComplaintMeans` | scripts/memory-cleanup-qualification-support.ts:507-519 | when a row has a complaint and, if its fact is still there, which |
| `CleanupEvaluation.LastRow` | scripts/memory-cleanup-qualification-support.ts:446 | of two rows of one fact the last counts |
| `CleanupEvaluation.CountsAddUp` | scripts/memory-cleanup-qualification-support.ts:482-497 | checked is passed, erroneous and remaining together; retained and retired are all visited |
| `CleanupEvaluation.AdmittedEvaluates` | scripts/qualify-memory-cleanup.ts:320-349 | after the checks an evaluation against the baseline never throws |
| `CleanupEvaluation.KeptOrAttested` | scripts/qualify-memory-cleanup.ts:320-349 | a fact of the rubric is there with its version, or gone with an attested removal |
| `CleanupEvaluation.ErroneousRemovalsAreAttested` | scripts/qualify-memory-cleanup.ts:315-349 | every erroneous removal counted is one that a review made under a supported policy in a job that succeeded |
| `CleanupEvaluation.NoErroneousRemovalsIff` | scripts/qualify-memory-cleanup.ts:315-362 | the count is zero if and only if every visited fact to be retained that has an attested removal is still active |
| `CleanupEvaluation.ProtectedAlwaysPass` | scripts/memory-cleanup-qualification-support.ts:474-496 | a protected fact of the rubric always passes |
| `CleanupInventory.InventoriesDecide` | scripts/qualify-memory-cleanup.ts:95-114 | unless two different texts of the two inventories collide, equal snapshots of a fact mean equal activity and version |
| `CleanupInventory.InventoryMeans` | scripts/qualify-memory-cleanup.ts:95-114 | one entry a fact, in order: active if and only if the fact and its current version are active and that is not purged; protected if and only if it is pinned, the user has an event of it, or a version of it was saved explicitly or to be remembered |
| `CleanupInventory.SnapshotDetermines` | scripts/qualify-memory-cleanup.ts:112 | one canonical text of a fact with its versions determines the fact's state, version and pin, and its versions in order |
| `CleanupInventory.ProtectedFactPasses` | scripts/qualify-memory-cleanup.ts:95-114 | from the stored rows to the verdict: a protected fact that the rubric expects retained passes in every admitted evaluation |
| `ShoppingCart.MatchLines` | scripts/browser-scenarios-support.ts:459-468 | the loop leaves open, and counts, what the matching of line after line does |
| `ShoppingCart.CompleteMeans` | scripts/browser-scenarios-support.ts:459-469 | when every line found a product and none is left, lines and products are paired one to one |
| `ShoppingCart.DistinctComplete` | scripts/browser-scenarios-support.ts:458-469 | with distinct pages and names a pairing is found whenever there is one |
| `ShoppingCart.FindsEveryMatchingIff` | scripts/browser-scenarios-support.ts:458-469 | for products of distinct pages every pairing of every cart is found if and only if their names differ too |
| `ShoppingCart.LineOrderIrrelevant` | scripts/browser-scenarios-support.ts:461-469 | with distinct pages and names the order of the lines does not matter |
| `ShoppingOracle.OracleS6` | scripts/browser-scenarios-support.ts:423-484 | the failures in the order they are pushed, and the eight counts beside them |
| `ShoppingOracle.PassCounts` | scripts/browser-scenarios-support.ts:482-484 | in a pass the counts show five categories, choices, lines, matches and prices, a matching subtotal, and fifteen different products or more among the candidates |
| `ShoppingOracle.CountsMean` | scripts/browser-scenarios-support.ts:433-484 | each count but that of the matched lines, from the result alone: what the first groups list, the categories that have one, the choices among their own candidates with a reason, the pages offered, the lines and those with a price, and whether the subtotal is near enough |
| `ShoppingOracle.SumNext` | scripts/browser-scenarios-support.ts:477 | the line totals are summed |
| `ShoppingOracle.MissingCategories` | scripts/browser-scenarios-support.ts:482-483 | failures for missing categories and categories with an entry add up to the categories |
| `ShoppingOracle.Shortlist` | scripts/browser-scenarios-support.ts:430-449 | one category's failures, choice and product pages |
| `ShoppingOracle.ShortlistFailuresMean` | scripts/browser-scenarios-support.ts:430-449 | when each failure of a category is reported |
| `ShoppingOracle.FailuresOfCategory` | scripts/browser-scenarios-support.ts:430-449 | and that it is reported for that category only |
| `ShoppingOracle.CartFailuresMean` | scripts/browser-scenarios-support.ts:450-481 | when each failure of the whole list, of the cart and of its sums is reported |
| `ShoppingOracle.QuantityOneIff` | scripts/browser-scenarios-support.ts:470 | one piece is the number, or a text of which white space leaves the digit |
| `ShoppingOracle.PickIsCandidate` | scripts/browser-scenarios-support.ts:444-449 | a choice is a valid candidate of its own category, by page and name |
| `ShoppingOracle.NoFailuresIff` | scripts/browser-scenarios-support.ts:416-484 | there is no failure if and only if each category has one shortlist of three products or more with a reasoned choice, fifteen products in all, distinct choices, five lines of one piece with prices, a subtotal within five cents of their sum, no block, and a complete matching |
| `ShoppingOracle.PassMeans` | scripts/browser-scenarios-support.ts:423-484 | a pass pairs the five lines with five products of distinct pages, one chosen in each category among its valid candidates |
| `ShoppingOracle.DistinctNamesPassIff` | scripts/browser-scenarios-support.ts:423-484 | with distinct names the matching condition is the existence of a pairing |
| `JourneyText.Prose` | scripts/context-compaction-journey-support.ts:296-308 | as few paragraphs as reach the target, at most 4096 |
| `JourneyText.ProseOvershoot` | scripts/context-compaction-journey-support.ts:296-308 | prose overshoots its target by less than a paragraph, and reaches every target up to 4096 tokens |
| `JourneyText.FillerIsBounded` | scripts/context-compaction-journey-support.ts:296-324 | whatever its paragraphs are, header and prose together exceed the target, or a header longer than it, by less than one paragraph |
| `JourneyText.BoundedMessage` | scripts/context-compaction-journey-support.ts:352-361 | the first of eight attempts that fits the byte bound, or none when none fits |
| `JourneyText.TargetIs` | scripts/context-compaction-journey-support.ts:352-359 | the first attempt is for the target itself, and one too large takes the next to 98 per cent of what would fit, rounded down |
| `JourneyText.NextFillerIs` | scripts/context-compaction-journey-support.ts:370-374 | a filler is of 256 tokens from 72 per cent of the budget on, and before that of six per cent, rounded down, but of no fewer |
| `JourneyText.SecondAttemptFits` | scripts/context-compaction-journey-support.ts:358 | unless bytes a token grow by more than 1/49 on the way down, the second attempt fits |
| `JourneyText.BandKeptIff` | scripts/context-compaction-journey-support.ts:33-50 | from below 72 per cent a filler with its answer stays below 85 per cent at every admitted window if and only if no paragraph has more than 16160 tokens |
| `JourneyText.LandsBelow78Iff` | scripts/context-compaction-journey-support.ts:363-374 | every crossing turn lands below 78 per cent if and only if no paragraph has more than one token and the answer has none |
| `JourneyText.MinimalFillerStaysIff` | scripts/context-compaction-journey-support.ts:363-374 | with a header of at most 256 tokens, the crossing turn and the minimal filler after it stay below 85 per cent at every admitted window if and only if no paragraph has more than 6928 tokens |
| `JourneyText.From78StaysIff` | scripts/context-compaction-journey-support.ts:363-374 | past the trigger, from at most 78 per cent, a minimal filler stays below 85 if and only if paragraphs have at most 15903 tokens and headers at most 16158 |
| `Journey.Run.Refresh` | scripts/smoke-context-compaction-journey.ts:608-617 | earlier turns' evidence becomes that of the markers shown now, and whether any changed is reported; a summary that landed late shows in its turn's evidence and takes its ratio away; reading again would change nothing |
| `Journey.Run.Turn` | scripts/smoke-context-compaction-journey.ts:564-631 | a turn is refused at the bound and only there, and for its bytes exactly past 917504 of its own or 8388608 of the route; otherwise it ends as the reply does; an answered one extends the evidence by its own and refreshes the rest |
| `Journey.ReplyMeans` | scripts/smoke-context-compaction-journey.ts:595-622 | after an answer each earlier turn has the marker shown now and is otherwise as it was; the answer has its own, and whether any of them changed |
| `Journey.RoundMeans` | scripts/context-compaction-journey-support.ts:976-1000 | a turn's evidence from what was read of it: the share of its estimate, that of its summary, and the ratio of a single request |
| `Journey.NoMeasure` | scripts/context-compaction-journey-support.ts:978-982 | without a session there is no share and no ratio |
| `Journey.RoundedIs` | scripts/context-compaction-journey-support.ts:962 | a rounded share is the nearest thousandth |
| `Journey.Run.Send` | scripts/smoke-context-compaction-journey.ts:564-631 | a turn that is due keeps the turns in order, and after its answer the evidence of all is what the chat shows; without one it says why |
| `Journey.Run.RunJourney` | scripts/smoke-context-compaction-journey.ts:633-644 | each turn sends what is due: the brief for 18 per cent of the budget, two corrections, the rule, fillers planned from the session of the turn before and made to fit while no summary shows, the probe as soon as one does or when only its turn is left; with room for five turns the turn bound is never the reason to stop; bytes are those sent and stay within the bound; a run ends early only for the bound, for a text or a route too large, or for the reply of the turn under way, whose code it gives; while the measure grows by no more than the filler and its answer, no filler turn goes from below 72 per cent to 85 or more, for paragraphs of at most 16160 tokens, nor does the one after a crossing, for 6928 |
| `Journey.FillerKeepsBand` | scripts/context-compaction-journey-support.ts:363-374 | no filler planned from the measure of the turn before skips the band, for paragraphs of at most 16160 tokens |
| `Journey.CrossingKeepsBand` | scripts/context-compaction-journey-support.ts:363-374 | the filler after a crossing one stays below 85 per cent, for paragraphs of at most 6928 tokens and a header of at most 256 |
| `Journey.PassedIff` | scripts/context-compaction-journey-support.ts:1037-1068 | on shares and ratios rounded to three decimals, the verdict passes if and only if the first summary is past the trigger, no later than a turn after the first crossing and in time for the probe, the ratios are in the route's band, and the probe carries both corrections |
| `Journey.VerdictMeans` | scripts/context-compaction-journey-support.ts:1051-1058 | each code of the verdict is given exactly for what it says, unless one before it holds |
| `Journey.NoSummaryMeans` | scripts/context-compaction-journey-support.ts:1049-1050 | without a summary the code says whether a compaction was triggered at all |
| `Journey.ExamplePassedWithoutCrossing` | scripts/context-compaction-journey-support.ts:1049-1056 | a run of brief, corrections, rule, filler and probe passes although no turn's own estimate crossed the trigger |
| `Journey.FirstSummaryAtCrossingIff` | scripts/context-compaction-journey-support.ts:1037-1068 | a pass has its first summary at the first crossing or the turn after it if and only if the summary's own turn, or the one before it, crossed |

## Left out

- HTTP, SQL, Docker, the browser and child processes: the stand's answers are parameters or actions of a run.
- Characters stand for UTF-16 units; lone surrogates, which a JSON string escapes differently, are not modelled.
- `CanonicalUnambiguous.TextDeterminesMeaning`: a number is the text it prints as; a date means its ISO string, and undefined and
  numbers that are not finite mean null, because they print alike. Invalid dates, which throw, are not modelled.
- Floating point: divisions, slopes and sums are exact, and so are the three decimals that shares and ratios of a journey are
  rounded to.
- The activation experiment is a step relation on values, so that a crash can fall between any two steps; only its in-memory
  journal is also a class. The environment fingerprint, attachments, the account's removal, office metrics and the LOOKUP
  mode, which keeps its rows in a second list of the same kind, are not modelled.
- `Comparison`: the criteria differences that carry a reason are not counted.
- `Verdicts.VerifierVerdicts`: the line pattern is a parameter; of its letters only those that decide the spelling are modelled.
- `Verdicts.ClaimsAddUpIff`: is about one report; the share of supported claims is left out.
- `TranscriptUsage.ResearchResponses`: rows are taken as decoded, with the kind and the origin read; the names of threads are taken with their roles; minutes of turns and the mean input are left out.
- `Euro.PrintedAmountReadsBack`: a JSON number, which passes through unchanged but for its range, is not modelled.
- `Extraction.Summarize`: does not count receipts, stages, retries, provider calls, tokens and costs, which only add up.
- `CleanupEvaluation.AssertContinuation`: the failure of a check on a missing row is an error code of its own.
- `CleanupInventory.InventoriesDecide`: takes a fact's current version to be one of its own, as the foreign key of the stored
  rows demands (`prisma/migrations/20260815000000_baseline/migration.sql:5173`).
- `ShoppingOracle.OracleS6`: takes each field as its reader decodes it.
- `JourneyText.BandKeptIff`: counts a filler as its estimator does, header and paragraphs one by one; the header has at most 15605 tokens,
  for a crossing turn and the one after it at most 256.
- `ActivationReport.ReportAgreesIff`: is about the rows and the cleanup mark that the report shows of the journal; the hashes in it,
  and the candidate file, a third rename in some modes, are not modelled.
- `Journey.Run.Turn`: polling and waiting for a summary are part of the app's reply, and so is the full prompt the ledger reports.
- The race landing and the long-answer checks of the review, the median, the cost estimates, and the parsing of
  configuration, arguments and links: each is settled by reading its branches.
