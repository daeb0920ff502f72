# Verified model of the log-less agent

log-less is an agent that takes log records in, mines them into templates, writes them to a write-ahead log,
merges them into Parquet files listed in a catalog, and keeps the result within a disk budget. This project
models the parts of it whose promises span whole runs, and proves those promises for every input, every
history and every interleaving.

| Part | Files |
|---|---|
| Shared | `Basics` (with `Sequences`), `Sorting`, `MapSums` |
| Template miner | `ParseTree`, `Miner` (values), `MinerSpec` (what one line promises), `Drain` (the object as the agent runs it), `MinerRestart`, `MinerIdentity`, `MinerMoves`, `MinerCounterexample`, `MinerHistory`, `MinerCatalog`, `MinerRollback` |
| Runtime policy writes | `PolicyWrites`, `PolicyAnswers` |
| Request bodies | `ChunkedBody`, `ChunkedGrammar` (messages, without the decoder), `ChunkedCuts`, `ChunkedReader`, `BodyReader` |
| Compaction and catalog | `Store`, `Compaction`, `Selection`, `Compactor`, `CatalogIndex`, `CompactionCrash`, `LevelBuckets` |
| Admission and routing | `Routing`, `Placement`, `Admission`, `Base64Url` (with `Base64Bits`) |
| Disk pressure | `Reclaim` |
| HEC acknowledgement | `AckTable`, `SplitWal`, `HecAcks`, `HecSteps`, `HecDurability`, `HecWriter`, `HecLosses`, `HecShedding`, `HecCounterexamples` |

Objects the agent updates in place are classes whose methods are proved equal to functions of the old state
(`Drain.Drain`, `ChunkedReader.Connection`, `BodyReader.BodyReader`, `Compactor.Compactor`,
`CatalogIndex.Catalog`, `Admission.Verifier`, `Reclaim.Store`, `AckTable.Acks`, `SplitWal.LogWriter`,
`SplitWal.Logs`). The laws are then lemmas about those functions, and what a single call promises is stated a
second time in plain terms, position by position, record by record or file by file (`MinerSpec.LineDoes`,
`ChunkedGrammar.ReadsMessages`, `Selection.Selects`, `Admission.AdmittedAs`, `Reclaim.ReportDue`). The two protocols between threads are state
machines with one step per atomic action.

Where the code says less than its own documentation, the model follows the code, shows the input that fails,
and proves exactly when the promise holds:

- That a line always lands on the same template id (`drain.rs:26-27`) fails for the line of
  `MinerCounterexample.SameLineTwoIds`. `MinerMoves.SameIdIffNeverUnsettled` is the exact law: a line is moved
  only by a line that joins a younger candidate and leaves it scoring 1, or by a new template that opens a branch
  the lookup prefers, or that lands in the same leaf scoring 1. The line that gave birth to a template is never
  again reported new, if and only if the threshold is at most 1 (`MinerIdentity.BirthLineIsRemembered`).
- That the chunked decoder's result does not depend on how the stream is cut into reads fails, whatever the limits,
  for a body of one byte under a size line exactly as long as the line limit (`ChunkedCuts.CutsDecide`): byte by byte
  it is refused, and when one read brings the end of the line it is a body. All cuts agree if and only if every line
  that ends is shorter than the limit, or reading on comes to a line that ends more than one read past the limit or
  never ends and is past it (`ChunkedCuts.CutsAgreeIff`). All cuts give the one-shot reading if and only if every
  line that ends is shorter than the limit, or the stream ends in an unfinished line past it
  (`ChunkedBody.SplitIndependence`).
- That an acknowledged batch is stored whole (`hec/ack.rs:3-12`, `hec.rs:325-328`, `main.rs:1353-1356`) fails in
  four ways, each with its run: the queue sheds a record it had room for at admission
  (`HecCounterexamples.AcknowledgedThoughShed`), critical disk pressure holds a DEBUG record back
  (`HecCounterexamples.AcknowledgedThoughHeld`), a log has failed and nothing is accepted any more
  (`HecCounterexamples.AcknowledgedThoughClosed`), or the agent was told to stop and the log writer ended before the
  record loop (`HecCounterexamples.AcknowledgedThoughStopping`; the comment at `main.rs:1946-1947` has the order the
  other way round, but a signal sets the flag the writer reads). `HecLosses.EveryOpenedBatch` is the exact law: a batch
  the record loop opens, whose acknowledgement comes, can be acknowledged in part if and only if it has a record and
  - with the writer in its loop: a log can fail, or a stop is signalled or can be, or the queue has no room for all of
    the batch, or it has a DEBUG record and pressure is or can become critical;
  - with the writer at its last batch: nothing was queued since it took that;
  - with the writer gone: nothing that was accepted is unpublished.

  What an acknowledgement does promise is `HecDurability.AckMeansDurable`: exactly the records the queue accepted are
  on disk. `HecShedding.NothingShed` is a rule at the handoff under which nothing is shed.
- That a catalog rebuild resolves rows left twice by a crash (`compact.rs:16-18`) fails for the two-row store of
  `CompactionCrash.RebuildKeepsDoubles`, which is read back as four rows. `CompactionCrash.RebuildResolvesIff` is
  the exact law: after a crash and a rebuild the catalog counts, and a read finds, the rows there were if and only
  if each block up to the crash had not yet written its file or had unlinked every input that holds a row.
- That a text born before calls for a salted lineage (`drain.rs:335-343`): with no hash collision that branch is
  reachable if and only if the threshold is above 1 and two templates fit
  (`MinerHistory.SaltedIffThresholdOutOfReach`).

## Model

| member | source | states |
|---|---|---|
| `ParseTree.PutAtTemplates` | crates/logless-core/src/drain.rs:382-396 | an insertion appends its id to the list of its own leaf and changes no other list of the tree |
| `ParseTree.WidenedPath` | crates/logless-core/src/drain.rs:382-396 | replacing by wildcards tokens that went down wildcard branches leaves the insertion path as it was |
| `ParseTree.InsertAnchors` | crates/logless-core/src/drain.rs:363-396 | after an insertion, looking the same tokens up reaches the leaf inserted into, past the fan-out cap too |
| `ParseTree.AnchorSurvives` | crates/logless-core/src/drain.rs:363-396 | no later insertion moves that lookup |
| `ParseTree.PathIs` | crates/logless-core/src/drain.rs:382-396 | at every level an insertion takes the token's own branch (the wildcard one for a placeholder) where there is one or fewer branches than the cap, and the wildcard branch elsewhere |
| `ParseTree.InsertStaysBounded` | crates/logless-core/src/drain.rs:388-392 | no insertion gives a node more branches than the cap, the wildcard one not counted |
| `MinerRestart.WhereIdsAre` | crates/logless-core/src/drain.rs:382-396 | an id is in the leaf of its own home path and in no other |
| `MinerRestart.WideningKeepsTree` | crates/logless-core/src/drain.rs:468-478 | the tree grown from the widened tokens of a template that can be joined is the tree grown from its earlier tokens |
| `MinerRestart.StepInv` | crates/logless-core/src/drain.rs:288-360 | every line keeps the miner's invariant: ids consecutive, tree equal to the one grown from the current tokens, shapes hashed from current texts, lineages those of the templates |
| `MinerRestart.RestartRebuilds` | crates/logless-core/src/drain.rs:229-240 | restoring from the current templates in id order rebuilds the same tree, templates, cached shapes, lineages and next id |
| `MinerRestart.AlikeStep` | crates/logless-core/src/drain.rs:288-360 | miners alike in those parts give a line the same result and stay alike |
| `MinerRestart.RunsAgree` | crates/logless-core/src/drain.rs:225-360 | from alike miners, a history with restarts anywhere gives every line the result of the history without them |
| `MinerRestart.RestartsAreInvisible` | crates/logless-core/src/drain.rs:225-360 | restart equivalence from the empty miner: same template id, shape id, params and novelty flag for every line |
| `MinerIdentity.ScoreBounds` | crates/logless-core/src/drain.rs:421-464 | a score is between 0 and 1, and is 1 for a template that generalises the line |
| `MinerIdentity.LeafIncreasing` | crates/logless-core/src/drain.rs:382-396 | the ids of every leaf are increasing, so the last candidate is the youngest |
| `MinerIdentity.LastPerfectWins` | crates/logless-core/src/drain.rs:298-303 | a candidate scoring 1 is chosen when no younger candidate does |
| `MinerIdentity.BirthLineIsRemembered` | crates/logless-core/src/drain.rs:298-360 | the line that gave birth to a template is recognised after every later history, restarts included, if and only if the threshold is at most 1 |
| `MinerMoves.SettledIffLands` | crates/logless-core/src/drain.rs:298-303 | a line lands on a template that generalises it exactly when it is a candidate and no younger candidate scores 1 |
| `MinerMoves.DivertsIffOpens` | crates/logless-core/src/drain.rs:363-396 | an insertion takes a lookup off its path if and only if, where the two first part, it takes the line's own key and the lookup the wildcard |
| `MinerMoves.PlantDivertsIffOpens` | crates/logless-core/src/drain.rs:363-396 | a new template takes a settled line's lookup off its leaf if and only if it has the line's length and opens such a branch |
| `MinerMoves.SettledIffNotUnsettled` | crates/logless-core/src/drain.rs:288-396 | the next line moves a settled line off its template if and only if it joins a younger candidate and leaves it scoring 1, opens a branch the lookup prefers, or becomes a template of the same leaf scoring 1 |
| `MinerMoves.NeverReturns` | crates/logless-core/src/drain.rs:288-396 | a line that has left a template never comes back to it |
| `MinerMoves.LandingSettles` | crates/logless-core/src/drain.rs:288-360 | a line is settled on the template its result names |
| `MinerMoves.StaysIffNeverUnsettled` | crates/logless-core/src/drain.rs:26-27 | over any history a line is on its template at the end exactly when it was at the start and nothing in between unsettled it |
| `MinerMoves.SameIdIffNeverUnsettled` | crates/logless-core/src/drain.rs:26-27 | the same masked line gets the same id again if and only if no line in between unsettled it |
| `MinerCounterexample.SameLineTwoIds` | crates/logless-core/src/drain.rs:26-27 | with the default settings one line gets template 1 and, two lines later, template 3, reported new |
| `MinerHistory.CountedLinesStayCovered` | crates/logless-core/src/drain.rs:305-323 | the current tokens of a template generalise every line ever counted into it |
| `MinerHistory.ReturnedShape` | crates/logless-core/src/drain.rs:305-360 | the shape id of a result is the hash of the template's text after the line |
| `MinerHistory.ReturnedShapeResolves` | crates/logless-core/src/drain.rs:259-272 | every shape id ever returned resolves for the rest of the run to one text, which hashes to it, and one lineage |
| `MinerHistory.MergeGrowsWild` | crates/logless-core/src/drain.rs:468-478 | widening never loses a wildcard and adds one whenever the text changes |
| `MinerHistory.TextChangesBounded` | crates/logless-core/src/drain.rs:466-478 | over any history a template of n tokens changes its text at most n times |
| `MinerHistory.SaltIsNeverUsed` | crates/logless-core/src/drain.rs:335-343 | a reachable miner never takes the salted branch while the threshold is at most 1 and the hash has no collision |
| `MinerHistory.SaltedIffThresholdOutOfReach` | crates/logless-core/src/drain.rs:335-343 | with no hash collision some history reaches the salted branch if and only if the threshold is above 1 and two templates fit |
| `MinerHistory.LineagesAreBirthHashes` | crates/logless-core/src/drain.rs:335-351 | over any history each lineage is the hash of the birth text and no two templates share one |
| `MinerCatalog.SaveThenLoad` | crates/logless-core/src/catalog.rs:841-916 | saving all templates in any order over an earlier save writes every column of every row, and loading gives the templates back in id order |
| `MinerCatalog.StepKeepsFollows` | crates/logless-core/src/catalog.rs:841-867 | the columns written once stay right for the miner through every line |
| `MinerCatalog.StepKeepsClean` | crates/logless-core/src/catalog.rs:855-857 | tokens stay free of the separators, so the tab-joined column splits back |
| `MinerCatalog.CatalogRestart` | crates/logless-core/src/catalog.rs:841-916 | a restart through the catalog gives a miner alike to the one that stopped |
| `MinerRollback.HistoryIsLinked` | crates/logless-core/src/catalog.rs:841-916 | over any history of lines, saves in any order and restarts from the last save, the miner stays alike to one fed the lines that were not lost, and the table stays a save of it |
| `MinerRollback.RestartsForgetOnlyTheUnsaved` | crates/logless-core/src/drain.rs:225-240 | so every line gets the result of a miner that never restarted and never saw the lines fed between the last save and a restart, whose ids are minted again |
| `Drain.Similarity` | crates/logless-core/src/drain.rs:421-464 | the loop computes the number of positions that compare and agree over the number that compare, 0 on a length mismatch, 1 with nothing comparable |
| `Drain.MergeInto` | crates/logless-core/src/drain.rs:468-478 | slot by slot a token that differs from the line's becomes the wildcard and no other changes; the flag says whether any did |
| `Drain.Params` | crates/logless-core/src/drain.rs:482-491 | the raw texts at exactly the variable positions, in order |
| `Drain.Drain.Restored` | crates/logless-core/src/drain.rs:229-240 | the loop builds the state `Restore` describes |
| `Drain.Drain.LeafTemplates` | crates/logless-core/src/drain.rs:363-380 | the descent returns the candidates of the route the tree defines |
| `Drain.Drain.InsertIntoTree` | crates/logless-core/src/drain.rs:382-396 | the root of that length becomes the old one with the id planted; other roots are unchanged |
| `Drain.Drain.NoteShape` | crates/logless-core/src/drain.rs:266-272 | the cached id is the hash of the text, and the first shape of a hash is kept |
| `Drain.Drain.BestCandidate` | crates/logless-core/src/drain.rs:299-303 | the chosen candidate reaches the threshold, no candidate scores more and no later one as much; none is chosen exactly when none reaches it |
| `Drain.Drain.AddLine` | crates/logless-core/src/drain.rs:278-360 | the line joins the last of the highest scoring candidates, or past the template cap is counted untemplated, or gives birth; the whole new state and the result are spelled out, equal one step, and keep the invariant |
| `MinerSpec.ScoreIsTheShare` | crates/logless-core/src/drain.rs:421-464 | the score is the number of positions that compare and agree over the number that compare, 0 for another length, 1 when none compares |
| `MinerSpec.BestIsChosen` | crates/logless-core/src/drain.rs:299-303 | the choice is the last of the highest scoring candidates that reach the threshold, and there is none exactly when none reaches it |
| `MinerSpec.ChosenOnce` | crates/logless-core/src/drain.rs:299-303 | only one candidate is the last of the highest scoring |
| `MinerSpec.ParamsForAre` | crates/logless-core/src/drain.rs:482-491 | the parameters are the raw texts at the variable positions, all of them, in order |
| `MinerSpec.StepDoes` | crates/logless-core/src/drain.rs:278-360 | in a sound miner a line does what it should: the last of the best candidates is widened slot by slot and counted, or past the template cap nothing is, or a template is born; with the id, shape, parameters and novelty flag of the result and everything else unchanged |
| `MinerSpec.FanOutIsBounded` | crates/logless-core/src/drain.rs:388-392 | in every sound miner the tree keeps within the fan-out cap |
| `MinerSpec.LeadIs` | crates/logless-core/src/drain.rs:205-207 | the tree is keyed on the depth less two leading tokens, at least one |
| `MinerSpec.DecimalIs` | crates/logless-core/src/drain.rs:335-343 | the id in a salted text is in decimal without leading zeros, and reads back |
| `PolicyWrites.DoInv` | crates/logless-core/src/admin_api.rs:840-1061 | every step of every request, crash and restart keeps the protocol's invariant |
| `PolicyWrites.NoLostUpdate` | crates/logless-core/src/admin_api.rs:961-1061 | in every interleaving committed versions are 1, 2, …, each commit was evaluated against the document of the version it named, at most one request per named version commits, and a destructive one carries the confirmed token of that evaluation |
| `PolicyWrites.RestoreIsFaithful` | crates/logless-core/src/admin_api.rs:933-955 | each audit entry holds the document of its version, no version is audited twice, and a restore of v puts the document of v in force |
| `PolicyWrites.FileLeadsByAtMostOne` | crates/logless-core/src/admin_api.rs:1010-1060 | the file's version is the published one, or one ahead exactly while an unpublished writer holds the gate |
| `PolicyWrites.AnswersAreTrue` | crates/logless-core/src/admin_api.rs:918-1061 | a request told its version was applied made that commit, one told anything else made none, and none commits twice |
| `PolicyWrites.CommitsAreKept` | crates/logless-core/src/admin_api.rs:1010-1060 | no step, crashes included, changes a committed version |
| `PolicyAnswers.AnswerIsDue` | crates/logless-core/src/admin_api.rs:840-1061 | in every reachable state an answer a step gives is the one due at the version published then: stale names that version and not the one asked for, a token is that of the document in force against the one asked for, an unknown version has no audit line, and an applied document is then in force and on file |
| `PolicyAnswers.EveryAnswerIsExplained` | crates/logless-core/src/admin_api.rs:840-1061 | every answer of every run has its reason: it was due at a version published by then, and a document said to be applied was put in force as the version named |
| `PolicyAnswers.ServedAsDue` | crates/logless-core/src/admin_api.rs:918-1061 | a request that finds the gate free and takes its steps, among any steps of others and without a crash, is given the answer it is due; a change that is due, with its file write working, is applied as the version after the one it named |
| `PolicyAnswers.DueOnce` | crates/logless-core/src/admin_api.rs:840-1061 | one answer is due, so each is given if and only if its condition holds |
| `PolicyAnswers.PreviewedTokenConfirms` | crates/logless-core/src/admin_api.rs:978-1008 | the token of a preview is the one that confirms a write of the same document while version and store are the same: that write is due to be applied |
| `PolicyAnswers.GateIs` | crates/logless-core/src/admin_api.rs:840-955 | a waiting request enters exactly when the gate is free, and is turned away exactly when it is a preview and the gate is held |
| `PolicyAnswers.AuditLine` | crates/logless-core/src/policy_store.rs:113-151 | an append that works adds the line of the change, and a compaction keeps the newest 500 lines in order |
| `PolicyAnswers.RestartPublishes` | crates/logless-core/src/policy_store.rs:177-212 | a restart publishes the last committed document, drops every request, and writes its audit line if and only if that is missing |
| `ChunkedBody.DecodeSplit` | crates/logless-core/src/bounded_http.rs:466-516 | however the stream is cut, the decoder gives the one-shot result or calls a line too long, and the one-shot result when every line is short |
| `ChunkedBody.SplitIndependence` | crates/logless-core/src/bounded_http.rs:466-516 | all cuts give the one-shot result if and only if every line that ends is shorter than the limit or the stream ends in an unfinished line past it |
| `ChunkedBody.LongTailParses` | crates/logless-core/src/bounded_http.rs:504-516 | the one-shot reading calls a line too long exactly for such an unfinished line |
| `ChunkedCuts.HopelessFails` | crates/logless-core/src/bounded_http.rs:466-516 | a stream that comes to a line ending more than one read past the limit, or to an unfinished line past it, is refused for a line too long under every cut |
| `ChunkedCuts.KindDecodes` | crates/logless-core/src/bounded_http.rs:466-516 | every other stream has a cut under which the decoder gives the one-shot result |
| `ChunkedCuts.KindMakes` | crates/logless-core/src/bounded_http.rs:270-289 | that cut is one the socket can bring: its pieces make up the stream, each within a read |
| `ChunkedCuts.CutsAgreeIff` | crates/logless-core/src/bounded_http.rs:466-516 | all cuts of a stream give one result if and only if every line that ends is shorter than the limit or the stream is one no cut saves |
| `ChunkedCuts.CutsDecide` | crates/logless-core/src/bounded_http.rs:504-516 | for every line limit of two and more and every body cap of one and more, a size line as long as the limit is refused byte by byte and taken under another cut |
| `ChunkedBody.LongLineOneByOne` | crates/logless-core/src/bounded_http.rs:504-516 | byte by byte, a stream with a line at or past the limit is refused |
| `ChunkedBody.DecodedBodyIsBounded` | crates/logless-core/src/bounded_http.rs:466-501 | no decoded body passes the body cap |
| `ChunkedGrammar.SizeIsSpelled` | crates/logless-core/src/bounded_http.rs:470-474 | a size line announces n exactly when it spells n: one to fifteen digits of the table in either case, leading zeros included, then nothing or an extension |
| `ChunkedGrammar.LineParses` | crates/logless-core/src/bounded_http.rs:468-488 | what a line and the bytes after it read as, by the number the line spells: malformed, past the cap, cut short, not ended by CRLF, the last chunk, or a chunk taken in |
| `ChunkedGrammar.ChunkParses` | crates/logless-core/src/bounded_http.rs:468-488 | a chunk under any spelling of its length is read as its data, or refused past the cap |
| `ChunkedGrammar.TrailersParse` | crates/logless-core/src/bounded_http.rs:490-501 | trailers are dropped within the line limit in all and refused past it |
| `ChunkedGrammar.MessageDecodes` | crates/logless-core/src/bounded_http.rs:466-516 | however it is cut into reads, a message of any spellings, extensions and trailers whose lines are within the limit is answered with its data, or refused for the size of the data or the trailers |
| `ChunkedGrammar.DecodedIsMessage` | crates/logless-core/src/bounded_http.rs:466-516 | a body is given only for a stream that begins with a message, and it is that message's data |
| `ChunkedReader.Connection.Fill` | crates/logless-core/src/bounded_http.rs:270-289 | one read is appended, or the reason there is none |
| `ChunkedReader.Connection.TakeLine` | crates/logless-core/src/bounded_http.rs:504-516 | the loop gives the next line or its failure and leaves the rest, holding at most one read past the line limit |
| `ChunkedReader.Connection.ReadChunked` | crates/logless-core/src/bounded_http.rs:466-501 | every message the stream begins with, whatever its spellings, extensions and trailers, is answered with its data or the refusal due when its lines are within the limit, and a body is given for a message alone; equal to the decoding of buffer and reads, within the body cap; the buffer never holds more than its start, or one read past the larger of line limit and body cap plus one |
| `ChunkedReader.Connection.ReadTrailers` | crates/logless-core/src/bounded_http.rs:490-501 | trailers are read and dropped, refused past the line limit in all |
| `ChunkedReader.Encode` | crates/logless-core/src/bounded_http.rs:651-664 | the loop writes the encoding: hexadecimal size lines, pieces, final chunk |
| `ChunkedReader.EncodedIsMessage` | crates/logless-core/src/bounded_http.rs:651-664 | the encoding is a message: the body cut every piece bytes, each cut under its length in hexadecimal, then the final chunk |
| `ChunkedReader.RoundTrip` | crates/logless-core/src/bounded_http.rs:466-516 | every body within the cap comes back from its encoding for every piece size and every cut, as long as its first size line fits the digit and line limits; a longer body is refused as too large |
| `BodyReader.BodyReader.Read` | crates/logless-core/src/bounded_http.rs:429-460 | reads deliver what was sent, in order and never past the length, and how many bytes a read gives is spelled out; nothing is read only when nothing is asked for or the body is whole; the end of the stream is an error only with all delivered and more announced; a client that waits is told to go on once, by the first read that asks the socket |
| `BodyReader.WholeBodyIsThePrefix` | crates/logless-core/src/bounded_http.rs:403-460 | a body read to its end is the first announced-length bytes the client sent |
| `Compaction.BlockRowsExactly` | crates/logless-core/src/compact.rs:187-201 | at every crash point of one partition the disk has the rows it started with and, once the output is written, those of the inputs still there |
| `Compaction.BlockRows` | crates/logless-core/src/compact.rs:187-201 | so it has every row, at most the inputs once more, and exactly the same rows if and only if nothing is written yet or every input that holds a row is unlinked |
| `Compaction.PassRows` | crates/logless-core/src/compact.rs:129-209 | the same over a finished pass, with the same rows if and only if every block is resolved, as each is when its unlinks work |
| `Compaction.CrashRows` | crates/logless-core/src/compact.rs:14-18 | the same wherever a pass is cut, with the same rows if and only if every block up to there is resolved |
| `Compaction.NoRowIsLost` | crates/logless-core/src/compact.rs:10-18 | over any sequence of passes, each finished or cut anywhere, every row of the store stays on disk at least as often |
| `Compaction.BlockCatalog` | crates/logless-core/src/compact.rs:187-201 | a whole partition with working unlinks keeps the catalog in sync and its row total |
| `Compaction.CrashCatalog` | crates/logless-core/src/catalog.rs:569-582 | at every crash point of a pass that started in sync, whatever unlinks failed, the catalog lists no missing file and its row total is what it was |
| `Compaction.PassInSync` | crates/logless-core/src/compact.rs:187-201 | a pass with working unlinks ends in sync |
| `Compaction.PassShrinks` | crates/logless-core/src/compact.rs:129-209 | with at least two inputs each, every compacted partition makes the store smaller |
| `Compaction.PassesRunOut` | crates/logless-core/src/compact.rs:110-212 | passes that do something are fewer than the files, so repeated passes reach one that does nothing |
| `CompactionCrash.RebuiltCounts` | crates/logless-core/src/catalog.rs:1048-1075 | a rebuilt catalog counts every row on disk, as often as it is there |
| `CompactionCrash.RebuildResolvesIff` | crates/logless-core/src/compact.rs:14-18 | after a crash anywhere in a pass and a rebuild the catalog is in sync, and counts and reads the rows there were before the pass if and only if every block up to the crash is resolved |
| `CompactionCrash.RebuildKeepsDoubles` | crates/logless-core/src/compact.rs:14-18 | a store of two rows cut between the record and the first unlink is counted as four by a rebuild |
| `Compactor.Compactor.Take` | crates/logless-core/src/compact.rs:153-164 | candidates are read up to the target size; a failure is reported exactly when one to be read cannot be |
| `Selection.InputsAreDue` | crates/logless-core/src/compact.rs:133-167 | the rules select, of the files below the size limit in name order, the longest leading run within the target, the first always taken; nothing exactly when there are too few files, too few below the limit, one written less than the quiet time ago, or the run is too short |
| `Selection.LongestOnce` | crates/logless-core/src/compact.rs:153-164 | there is one such run |
| `Selection.SelectsOnce` | crates/logless-core/src/compact.rs:133-167 | so one selection is due |
| `Compactor.Compactor.Select` | crates/logless-core/src/compact.rs:133-167 | the inputs are the longest leading run, in name order, of the files below the size limit that stays within the target (the first always taken); none exactly when there are too few files, too few below the limit, one written less than the quiet time ago, or the run is too short; it fails exactly when a file of the run cannot be read |
| `Compactor.Compactor.Replace` | crates/logless-core/src/compact.rs:187-201 | write, record, unlink are one valid block of the model |
| `Compactor.Compactor.Visit` | crates/logless-core/src/compact.rs:133-208 | a partition is given up, left alone or compacted from the selected inputs exactly when the rules, spelled out, say so; other partitions' files stay as they are |
| `Compactor.Compactor.Partitions` | crates/logless-core/src/compact.rs:116-142 | every file on disk is in the partition of its key, each partition once, oldest hour first, its files in name order |
| `Compactor.Compactor.Compact` | crates/logless-core/src/compact.rs:110-212 | a pass is one block for each partition of the listing that has inputs due, of those inputs, in order, up to the partition limit or the first unreadable input; the report counts them; an empty pass means no partition of the store had inputs due |
| `Compactor.ReportCounts` | crates/logless-core/src/compact.rs:203-208 | the report counts the partitions compacted, the files replaced and written, and the rows |
| `Compactor.Compactor.CompactUntilIdle` | crates/logless-core/src/compact.rs:110-212 | with reads and unlinks working, a minimum of two files and no new file, repeated passes reach one that leaves nothing to do in any partition, in no more passes than the files they saved, with the rows there were and a catalog still in sync |
| `LevelBuckets.SortBuckets` | crates/logless-core/src/config.rs:606-606 | sorted by lowest severity, and a permutation |
| `LevelBuckets.New` | crates/logless-core/src/config.rs:602-631 | a list is accepted exactly when some order of it is a cover (from 0, strictly upward, sound, names distinct), and that order is returned; a list turned away has the problem reported, the first in the order they are looked for |
| `LevelBuckets.PartitionPoint` | crates/logless-core/src/config.rs:638-644 | the binary search finds how many leading buckets start at or below the severity |
| `LevelBuckets.OwnerIsUnique` | crates/logless-core/src/config.rs:637-644 | every severity has exactly one owner, the bucket whose span holds it |
| `LevelBuckets.OwnerIsMonotone` | crates/logless-core/src/config.rs:638-644 | a higher severity never falls into an earlier bucket |
| `LevelBuckets.NamesFromIsExact` | crates/logless-core/src/config.rs:650-655 | the names are exactly those of the buckets of all severities at or above the one asked for |
| `CatalogIndex.MergeUpserts` | crates/logless-core/src/catalog.rs:541-567 | upserting a merge's entries lays its files' rows over the table |
| `CatalogIndex.LastEntryWins` | crates/logless-core/src/catalog.rs:541-567 | of several entries for a path the last stays, and other paths keep their rows |
| `CatalogIndex.Catalog.CommitMerge` | crates/logless-core/src/catalog.rs:541-567 | the table becomes the old one with the entries upserted, and the segment is marked merged |
| `CatalogIndex.Catalog.RecordCompaction` | crates/logless-core/src/catalog.rs:574-582 | the output's row in and the inputs' rows out, in one step |
| `CatalogIndex.Catalog.ForgetMissingIn` | crates/logless-core/src/catalog.rs:827-838 | exactly the rows of the given partitions whose files are gone leave; the count returned adds them up key by key, so a row under two keys of its partition counts twice |
| `CatalogIndex.Catalog.Rebuild` | crates/logless-core/src/catalog.rs:1048-1075 | it fails exactly when a footer cannot be read, leaving the table; otherwise the emptied and refilled table is in sync with the disk, and all files are counted |
| `CatalogIndex.Catalog.FilesOverlapping` | crates/logless-core/src/catalog.rs:610-630 | each file of the tenant and index, in the given buckets, whose time span meets the range is returned once with its row, no other is, and the oldest come first |
| `CatalogIndex.OpIsConsistent` | crates/logless-core/src/catalog.rs:541-582 | every maintenance operation keeps the catalog in step with the disk and every row in its bucket's file |
| `CatalogIndex.OpChangesFiles` | crates/logless-core/src/catalog.rs:541-582 | a merge puts exactly its files in, a compaction keeps the rows, reclaim and expiry take exactly theirs out, a rebuild touches none |
| `CatalogIndex.OpsAreConsistent` | crates/logless-core/src/catalog.rs:541-582 | so does every run of them |
| `CatalogIndex.IndexAgreesWithScan` | crates/logless-core/src/catalog.rs:605-630 | after any crash-free run, reading only the planned files and buckets gives each row of the tenant and index in the time range, of the severity and up, as often as the store holds it, and no other; so does a filter over every file |
| `Routing.BoundIsKnown` | crates/logless-core/src/config.rs:468-490 | routing a bound record, under the protocol's key or the standard one, returns Known with its index and leaves it bound |
| `Placement.TenancySays` | crates/logless-core/src/config.rs:418-441 | a tenant has an index, has a default and sends unknown indexes there exactly as the first tenant of that id in the configuration says |
| `Placement.RouteIsDue` | crates/logless-core/src/config.rs:450-490 | a record is routed in the tenant it carries to the index its first naming attribute asks for when the tenant has it, to the default when none asks, and for another to the default or nowhere, as the tenant says; the other attributes stay in order and the index is added unless it is the default; a refused record is unchanged |
| `Placement.RouteOnce` | crates/logless-core/src/config.rs:450-458 | one route is due |
| `Admission.Verifier.Inspect` | crates/logless-core/src/auth.rs:951-967 | whether a record carries another tenant, and the text of its first attribute under the key or the index name |
| `Admission.Verifier.Decide` | crates/logless-core/src/auth.rs:949-984 | record by record the index due: the one asked for when the tenant has it and the principal may use it, the fallback when none is asked for or the tenant sends others there, none otherwise; with the numbers of records sent to the default and refused; or a foreign tenant |
| `Admission.Verifier.Rewrite` | crates/logless-core/src/auth.rs:991-1009 | the batch is, in order, the records an index is due to, each with its body and other attributes as they came, its index unless that is the tenant's default and its tenant unless that is the instance's own |
| `Admission.Verifier.Admit` | crates/logless-core/src/auth.rs:943-1018 | each verdict exactly when it is due; the kept batch is, in order, the records an index is due to, each placed in that index; the counters rise by the records refused and those sent to the default; a batch turned away is left as it came |
| `Admission.ChosenIsDue` | crates/logless-core/src/auth.rs:968-982 | a record is given an index if and only if it is the one due: asked for, had by the tenant and allowed; or the fallback, when none is asked for, or another is and the tenant sends those to the default |
| `Admission.FallbackIsDefault` | crates/logless-core/src/auth.rs:245-257 | the fallback is the tenant's default when the principal may use it, else the first index of its list the tenant has |
| `Admission.KeptAreDue` | crates/logless-core/src/auth.rs:989-1009 | the batch kept is the records some index is due to, in order, each placed in it |
| `Admission.CountsAreDue` | crates/logless-core/src/auth.rs:949-986 | the counts are the records no index is due to and those sent to the default instead of what they asked for |
| `Admission.PlacedIsBound` | crates/logless-core/src/auth.rs:991-1009 | a rewritten record is bound to the principal's tenant and the chosen index |
| `Admission.AdmissionPlaces` | crates/logless-core/src/auth.rs:943-1018 | every kept record is in the principal's tenant and an index the tenant has and the principal may use; kept plus refused is received |
| `Admission.AdmissionIsFinal` | crates/logless-core/src/config.rs:460-490 | any number of later routings of a kept record return Known with the same tenant and index |
| `Base64Url.EncodesIsOneToOne` | crates/logless-core/src/auth.rs:1118-1143 | no text encodes two byte strings and no byte string has two encodings |
| `Base64Url.Decode` | crates/logless-core/src/auth.rs:1118-1143 | the bytes a text encodes, and nothing exactly when it encodes none (stray bits, foreign characters, a length of 1 modulo 4) |
| `Base64Url.Encode` | crates/logless-core/src/auth.rs:1457-1467 | the text of the bytes, as the relation defines it |
| `Base64Url.DecodeOfEncode` | crates/logless-core/src/auth.rs:1118-1143 | decoding an encoding gives the bytes back |
| `Base64Url.EncodeOfDecode` | crates/logless-core/src/auth.rs:1457-1467 | re-encoding an accepted text gives the text back |
| `Base64Bits.SextetIsPlace` | crates/logless-core/src/auth.rs:1118-1143 | the value of a character is its place in the URL-safe alphabet of section 5 of RFC 4648 |
| `Base64Bits.EncodesIsBits` | crates/logless-core/src/auth.rs:1118-1143 | a text encodes a byte string exactly when its bits, six a character, are the string's bits, eight a byte, and then fewer than six zeros |
| `Reclaim.SortFiles` | crates/logless-core/src/budget.rs:190-200 | a permutation ordered by retention, one not known counting as the longest, then oldest event, then path |
| `Reclaim.TakenIsShortest` | crates/logless-core/src/budget.rs:202-229 | the files taken are the shortest prefix that reaches the target, or all there are |
| `Reclaim.ShortestIsUnique` | crates/logless-core/src/budget.rs:202-229 | no other prefix is |
| `Reclaim.LowerTargetExtends` | crates/logless-core/src/budget.rs:172-229 | a lower target takes the same files and then more |
| `Reclaim.ReclaimFiles` | crates/logless-core/src/budget.rs:172-229 | whatever deletes fail, the files dropped are the shortest leading run, of the ordered in-store deletable files, that brings usage within the target, or all of them; bytes, rows and partitions are those of the files dropped, and `exhausted` says exactly that the target is not reached |
| `Reclaim.UnderTargetIsNormal` | crates/logless-core/src/budget.rs:86-106 | usage at or below the target is under no pressure, with target below high below critical |
| `Reclaim.PressureIs` | crates/logless-core/src/budget.rs:86-106 | pressure is critical from the critical share of the budget in bytes and high from the high share |
| `Reclaim.TargetIs` | crates/logless-core/src/budget.rs:172-186 | the target is the whole bytes of its share of the budget |
| `Reclaim.ForgottenBytes` | crates/logless-core/src/catalog.rs:815-822 | forgetting files lowers the measured bytes by exactly theirs |
| `Reclaim.Store.ReclaimPinned` | crates/logless-core/src/budget.rs:148-166 | only unpinned files are chosen from, by that rule, and the pinned ones are counted; the catalog loses exactly the files dropped and usage falls by their bytes; a relief not exhausted leaves pressure normal; a dry run changes nothing |
| `Reclaim.Store.Relieve` | crates/logless-core/src/budget.rs:271-274 | relief is attempted exactly when usage is at or above the high or the critical share of the budget |
| `Reclaim.TwoPasses` | crates/logless-core/src/budget.rs:247-276 | hysteresis: with no new bytes, a pass that was not exhausted is followed by one that attempts nothing |
| `AckTable.Acks.RetireDurablePrefix` | crates/logless-core/src/hec/ack.rs:49-78 | the ids up to the first whose batch is not synced go, with their watermarks; no other id and no other watermark does |
| `AckTable.Acks.IssueId` | crates/logless-core/src/hec/ack.rs:111-124 | the next id of the channel is pending for the batch, then the channel's leading synced ids are retired; other channels are unchanged |
| `AckTable.Acks.Query` | crates/logless-core/src/hec/ack.rs:147-176 | one answer per id, in order, and the table is not changed |
| `AckTable.Acks.HasCapacity` | crates/logless-core/src/hec/ack.rs:126-138 | open exactly while fewer than the limit are issued and not retired |
| `AckTable.IssueTracks` | crates/logless-core/src/hec/ack.rs:111-124 | issuing, with a count read earlier, keeps the table standing for the ledger that forgets nothing |
| `AckTable.BindTracks` | crates/logless-core/src/hec/ack.rs:140-145 | so does binding |
| `AckTable.RetireTracks` | crates/logless-core/src/hec/ack.rs:49-78 | so does retirement: no watermark still needed is dropped |
| `AckTable.RetireIs` | crates/logless-core/src/hec/ack.rs:49-78 | retirement stops at the first id that is not synced and takes exactly the ids and watermarks before it |
| `AckTable.AnswersAreTheLedgers` | crates/logless-core/src/hec/ack.rs:147-176 | a poll at the published count answers exactly whether the id was issued, bound and synced; one with an older count answers between the two |
| `AckTable.TrueStaysTrue` | crates/logless-core/src/hec/ack.rs:151-155 | an id reported true is reported true by every later poll |
| `SplitWal.SelectPartitions` | crates/logless-core/src/wal.rs:303-314 | the split shares a batch out: each record to one log |
| `SplitWal.LogWriter.RollIfDue` | crates/logless-core/src/wal.rs:156-167 | a segment rolls exactly when its age reaches the period, and rolling syncs |
| `SplitWal.LogWriter.Append` | crates/logless-core/src/wal.rs:183-211 | the batch is appended; the log rolls, with everything on disk, exactly when the frame fills the segment, and otherwise nothing more is on disk and the frame is counted in the segment and as unsynced |
| `SplitWal.LogWriter.AppendAt` | crates/logless-core/src/wal.rs:143-154 | a segment that is due rolls first, which syncs what it held; then as above, and the segment is stamped unless it rolled |
| `SplitWal.LogWriter.MaybeSync` | crates/logless-core/src/wal.rs:213-227 | the log is synced exactly when the byte or the time threshold is crossed, and an advance is reported exactly when more is on disk than was reported |
| `SplitWal.Logs.Append` | crates/logless-core/src/wal.rs:303-314 | each record goes to the log its event time puts it in, in order; what is then on disk in each log is spelled out |
| `SplitWal.Logs.Sync` | crates/logless-core/src/wal.rs:330-339 | both logs are on disk to their ends, and the count is all that was appended |
| `SplitWal.Logs.MaybeSync` | crates/logless-core/src/wal.rs:316-328 | a count is given only with both logs on disk to their ends, and exactly when a crossed threshold, a due roll or an earlier one leaves more on disk in either log than it last reported |
| `HecAcks.StepKeepsLogs` | crates/logless-cli/src/main.rs:1198-1229 | every step keeps: all that is published is on disk, and the accepted records are those written, then in the writer's hand, then queued; the published count never falls |
| `HecSteps.RoomCheckIs` | crates/logless-cli/src/main.rs:1353-1360 | a batch passes the room check exactly when the queue has room for all of it then |
| `HecSteps.HandOffIs` | crates/logless-core/src/hec.rs:356-375 | a batch taken is last in line, and only one sent on a channel goes on to be issued an id |
| `HecSteps.ProcessIs` | crates/logless-cli/src/main.rs:1826-1857 | the next record of the open batch meets the one fate due: refused by routing, held under critical pressure when DEBUG, refused by a queue without a reader, shed by a full one, or else last in the queue; the loop ends at the record cap |
| `HecSteps.OtherIs` | crates/logless-cli/src/main.rs:1650-1660 | a record of another source meets its fate by the same rules |
| `HecSteps.BindIs` | crates/logless-cli/src/main.rs:1848-1852 | a processed batch is bound to the number of records enqueued so far, and no other watermark changes |
| `HecSteps.WriterIs` | crates/logless-cli/src/main.rs:1198-1229 | the writer takes from the front of the queue, and publishes all that both logs hold with both on disk |
| `HecDurability.StepKeepsNumbers` | crates/logless-core/src/hec.rs:356-375 | a batch number is in one place at a time and is issued, opened and bound at most once |
| `HecDurability.StepKeepsBatches` | crates/logless-cli/src/main.rs:1826-1857 | the accepted records of a bound batch are below its watermark, and nothing else of it was accepted |
| `HecDurability.StepKeepsTable` | crates/logless-core/src/hec/ack.rs:106-176 | the shared table stands for the ledger through every interleaving |
| `HecDurability.RunInv` | crates/logless-cli/src/main.rs:1198-1857 | all of that holds in every reachable state |
| `HecDurability.AckMeansDurable` | crates/logless-core/src/hec/ack.rs:10-24 | in every interleaving an id that reports true was issued for a batch of which exactly the records the queue accepted are on disk, and without a record cap every record of it was processed |
| `HecDurability.PollsAreExact` | crates/logless-core/src/hec/ack.rs:147-176 | in every reachable state a poll is true if and only if the id was issued, its batch bound and its count published |
| `HecDurability.AcksDoNotFlipBack` | crates/logless-core/src/hec/ack.rs:151-155 | over any continuation an id reported true stays true |
| `HecDurability.QuietMeansAcknowledged` | crates/logless-cli/src/main.rs:1848-1852 | once handed-off batches are processed and all that was enqueued is published, every id issued reports true |
| `HecWriter.WriterPass` | crates/logless-cli/src/main.rs:1203-1218 | a turn of the writer's loop over the two logs, with whatever rolls and syncs it brings, is a run of the protocol's writer steps, and publishes the count the logs give |
| `HecWriter.LastPass` | crates/logless-cli/src/main.rs:1219-1227 | the turn that drains the queue, syncs, publishes and returns is a run of the protocol's steps that ends the writer with all it has on disk and published |
| `HecLosses.AdmittedIsRouted` | crates/logless-cli/src/main.rs:1338-1352 | a record that admission kept and the receiver routed under its key is refused neither there nor by the record loop |
| `HecLosses.RiskIsReal` | crates/logless-cli/src/main.rs:1650-1660 | a batch at risk when it is opened has a continuation that acknowledges it without all of it on disk |
| `HecLosses.LosesIff` | crates/logless-core/src/hec.rs:325-328 | an open batch whose ack comes can be acknowledged in part if and only if it is at risk: it has a record, and the writer can fail or stop, or there is no room for all, or a DEBUG record meets a pressure that is or can become critical, or the writer takes or took its last batch with nothing accepted left over |
| `HecLosses.EveryOpenedBatch` | crates/logless-core/src/hec/ack.rs:3-12 | the same in every reachable state |
| `HecCounterexamples.AcknowledgedThoughShed` | crates/logless-cli/src/main.rs:1353-1360 | a run of the code's own room check in which an acknowledged batch lost its only record to shedding |
| `HecCounterexamples.AcknowledgedThoughHeld` | crates/logless-cli/src/main.rs:1650-1658 | with room for a hundred, a batch of one DEBUG record is held back under critical pressure and acknowledged |
| `HecCounterexamples.AcknowledgedThoughClosed` | crates/logless-core/src/queue.rs:158-167 | with the writer gone before anything was accepted, a batch finds the queue closed and is acknowledged |
| `HecCounterexamples.AcknowledgedThoughStopping` | crates/logless-cli/src/main.rs:1219-1227 | nothing fails, the agent is told to stop, the writer ends before the open batch is processed, and the batch is acknowledged with nothing of it stored |
| `HecShedding.ShedsIffNoRoom` | crates/logless-cli/src/main.rs:1826-1857 | a batch the record loop opens can lose a record to shedding if and only if the queue then has no room for all of it |
| `HecShedding.RoomyRunsShedNothing` | crates/logless-cli/src/main.rs:1353-1364 | counting what is already promised at the handoff keeps room for every promised record |
| `HecShedding.NothingShed` | crates/logless-cli/src/main.rs:1353-1364 | so in such runs nothing of any batch is shed |

## Left out

- Masking (`mask.rs`): lines arrive as masked tokens with the raw text beside them. Only the placeholder test is modelled, as a token holding both `<` and `>`.
- Hashes (FNV, SHA-256) are a function parameter; injectivity is assumed only in `MinerHistory.SaltIsNeverUsed`, `MinerHistory.SaltedIffThresholdOutOfReach` and `MinerHistory.LineagesAreBirthHashes`.
- Floating point: the similarity score and threshold, and the disk watermarks, are exact reals.
- Integer widths: ids, counters and versions are unbounded, except the policy version, whose maximum is modelled.
- Drain.Drain.InsertIntoTree: the nested nodes are rebuilt as values along the chosen path, where the original walks mutable references.
- MinerHistory.ReturnedShapeResolves: for runs without restart, because a restored miner remembers only the current shapes; the catalog's table of shapes is not modelled.
- MinerRestart.RestartsAreInvisible: the two line counters and the shapes since widened away are not restored by the original either, so they are not compared.
- PolicyWrites: a state machine over values with one step per lock-protected action; reading a restart's file onto an edited configuration, the JSON bodies and the impact computation are parameters or absent, and two documents without a difference are equal; an evaluation that fails counts as not valid.
- ChunkedReader.RoundTrip: requires size lines of at most 15 digits, the longest the decoder takes, and shorter than the line limit.
- Sockets, deadlines, TLS and thread pools: reads are arbitrary pieces, and a timeout is one way a stream ends.
- Compactor.Compactor.Partitions: partitions of one hour come in any order.
- Compactor.Compactor.Compact: the sort within a file, typed columns and the byte totals of the report; a failed write or transaction is a crash at that step.
- CatalogIndex.Catalog.CommitMerge: the template sightings of the same transaction.
- CatalogIndex.Catalog.FilesOverlapping: the path order among results of one time.
- CatalogIndex.Catalog.Rebuild: the typed columns it registers, and stray files outside a partition, which it passes over.
- CatalogIndex.IndexAgreesWithScan: the bucket list of an index is fixed over a run.
- LevelBuckets: `Tenancy::new` checks a sorted copy and keeps the original order (`config.rs:358`), so the bucket laws are about lists `LevelBuckets::new` returns.
- Admission.Verifier.Admit: the standalone mode that routes no index and the per-principal counters; the laws assume the protocol's index key is not the tenant attribute's name, which no listener uses.
- Reclaim: the retention half of a maintenance pass.
- HecAcks: records are not rewritten on their way (template ids), a WARN record's bounded wait for room shows as a later step, the limits of the handoff channel and of `has_capacity` only show as a handoff refused, and a log error ends the writer as one step; the receivers' own shutdown, after which nobody can poll, is not modelled.
- JWT and signature checks, the S3 and peer listeners, forwarding, the ring, counters, decisions, retention, SQLite and Parquet encoding are not part of this model.
