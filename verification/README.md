# TerraWatch verification model

Models of TerraWatch's delivery protocol and of the tools around it, with lemmas about all
their runs and inputs, in Dafny 4.11. `dafny verify dfyconfig.toml` takes the whole project.

## What is modelled

**The delivery protocol** (`Schema`, `Protocol`). Event submissions, scene uploads, outbox
dispatchers, the two durable workers and the database threads they start form one step
system over the database, the stream with its consumer state, the dead-letter stream and
the object store. Every transaction, broker operation, store operation and decision is its
own step; every call that leaves a process may fail, with or without having taken effect
where the code can meet both; any process may be lost between two steps; and a thread whose
worker timed out may still commit later. A transaction is a function from the database to a
new database, or to nothing when a constraint fails at commit. Evaluations, completions and
dead-letter records are split into what their session reads and what it commits, and a
commit carries only the columns that differ from that read. `Growth` states that every step
only grows the shared state, `Custody` builds the invariant on that, and `Discipline`,
`Bookkeeping`, `Dispatch`, `SceneMachine`, `Agreement`, `Idempotency`, `Store` and
`Declarations` hold the safety results over all runs. `Overtaking` and the end of `Store` are
concrete runs on which a property fails.

**The same components as the code writes them**, statement by statement, against their
specifications: the dispatcher and its loop (`Outbox`), a consumer handling one message
until it is settled (`Workers`), the two APIs (`Events`, `Ingest`), the evaluation loop
(`Evaluation`), and controlled faults with a process that may die before any durable effect
(`Faults`).

**The evidence chain** (`Reporting`, `Records`, `Evidence`, `Command`), redaction (`Safety`
for the assignment rule and nested values, `Urls` for the URL rule, `Shapes` and `UrlShapes`
for what they hide, said without the matchers, `Redaction` for the rules in sequence, `Leaks`
for texts on which they fall short), the gate and traceability checkers (`Pipelines`,
`Traceability`), catalog search (`Search`), and the arithmetic underneath (`Retry` over the
reals, `Validation` over integer microseconds).

Where code and comments differ the model follows the code: the temporal window truncates to
whole seconds, so it matches up to, but not including, window + 1 seconds.

Four properties fail, each with a concrete input and the exact condition under which the
code does meet it. A compensating remove can delete the object of a concurrent upload of
the same bytes, or that upload can insert its row after the remove: `Store.ScenesStoredIff`
says over whole runs when every row keeps its object, and two runs show both ways to lose
one. A late completion or rejection can leave a scene accepted with an error:
`SceneMachine.ErrorsAgreeIff`, with the run in `Overtaking`. The rules of `redact_text` in
sequence are not idempotent: `Redaction.SequenceStableIff`, with the text in `Leaks`. And a
fault injection forgets what it changed when a pause fails and yet takes effect:
`Faults.Lab.InjectFault`.

SHA-256, raster inspection, file formats and random samples are parameters. Content hashes
are assumed collision free where a result needs it. Truncated correlation ids are not: only
`Agreement.MatchedIdsExist` needs the ids of its own database apart, and
`Evaluation.ApartUnlessCollision` says what it takes for two of them to be equal.

## Model

| member | source | states |
|---|---|---|
| Custody.NoSilentLoss | terrawatch/events.py:110-121 | At every point of every run (any interleaving, failed calls, lost processes, late commits), a committed event has exactly one outbox row, and that row is unpublished, or its message is on the stream unacknowledged, or the event has its analysis, or the dead-letter stream holds the same payload |
| Custody.NoSceneLost | terrawatch/ingest.py:119-153 | The same custody for every committed scene, whose result is its catalog columns |
| Custody.PublishedStaysPublished | terrawatch/outbox.py:42-81 | With any number of concurrent dispatchers and failures between publish and mark: a marked row is never unmarked, and from then on the stream holds a message with its id and payload |
| Custody.AckDiscipline | terrawatch/correlation.py:206-246 | An acknowledged message has a committed result and a recorded passed attempt, or a dead-letter copy with the same payload made by a delivery that had used up every attempt |
| Bookkeeping.AttemptsTrue | terrawatch/correlation.py:154-226 | Every attempt row in every reachable state is about a message that was delivered that often, passed exactly when it has no error, and a passed one has its work in the database |
| Bookkeeping.LettersTrue | terrawatch/correlation.py:173-246 | Every dead-letter row is about a message delivered at least as often as it says, and that is at least max_attempts |
| Dispatch.ReadsOldest | terrawatch/outbox.py:20-39 | In every reachable state a dispatcher of the protocol reads just the batches the class selects: the 25 oldest unpublished rows, oldest first |
| Custody.RunInv | terrawatch/correlation.py:201-253 | The inductive invariant behind these results holds in every reachable state of the step system |
| Custody.RunGrows | terrawatch/database.py:170-180 | Over any stretch of any run rows are never deleted, identities never change, marks and acks are never undone and catalog columns are written once |
| Custody.LedgerPersistEvent | terrawatch/events.py:79-121 | Committing an event together with its outbox row keeps the ledger: one row for every event and scene, none for anything else |
| Custody.LedgerPersistScene | terrawatch/ingest.py:119-153 | Committing a scene together with its outbox row keeps the ledger |
| Custody.SettledStable | terrawatch/imagery_worker.py:138-209 | What an acknowledgement rests on stays true whatever any process does afterwards |
| Growth.WorkerGrows | terrawatch/imagery_worker.py:138-209 | No move of a worker shrinks the shared state |
| Growth.ThreadMoveGrows | terrawatch/retry.py:11-19 | A database thread that outlives its timeout may commit at any later moment and still only grows the shared state |
| Growth.CompletedGrows | terrawatch/imagery_worker.py:56-82 | A completion, however late its commit and whatever was committed since its read, writes blank columns or writes again exactly what they hold |
| Growth.CompletedRow | terrawatch/imagery_worker.py:56-82 | The row it leaves has exactly the columns read from the scene's bytes, even though its session writes only what differs from its own read |
| Schema.MergeTells | terrawatch/imagery_worker.py:56-135 | A commit leaves status and error as its session set them, except where the session set what it had read |
| Growth.BurialGrows | terrawatch/imagery_worker.py:104-135 | A rejection, however late, erases no column and no identity |
| Discipline.DeclinedAtMost | terrawatch/correlation.py:225-247 | No message is ever declined more than max_attempts - 1 times, and never twice at the same delivery count |
| Discipline.DeadLetterOnce | terrawatch/correlation.py:173-198 | At most one dead-letter row per message and service, and none without its stream copy |
| Discipline.RetriesTerminate | terrawatch/correlation.py:201-253 | While workers survive and the broker answers, an unsettled message has been delivered at most max_attempts times, and at the last one a worker still holds it: max_attempts minus the delivery count is a termination measure |
| SceneMachine.SceneStates | terrawatch/imagery_worker.py:56-82 | In every reachable state an accepted scene has every catalog column, footprint and STAC item set, all read from bytes of the row's own digest; a pending one has none and no error; columns are set together |
| SceneMachine.ErrorsAgreeIff | terrawatch/imagery_worker.py:56-135 | Every scene is accepted without an error or rejected with one, in all states of a run so far, if and only if so far no completion that read its scene pending committed onto a rejection and no rejection that read its scene rejected with another error committed onto an acceptance |
| Overtaking.AcceptedWithError | terrawatch/imagery_worker.py:56-135 | What that condition excludes happens: a concrete run in which a completion reads the scene pending, the worker times out and rejects it, and the late completion leaves it accepted with the rejection's error |
| Schema.UndisturbedCompletion | terrawatch/imagery_worker.py:56-82 | A completion during whose session nothing else commits leaves the row exactly as it set it |
| Schema.UndisturbedBurial | terrawatch/imagery_worker.py:104-135 | A dead-letter session during which nothing else commits leaves the scene rejected with its error |
| SceneMachine.ItemAgreesWithColumns | terrawatch/raster.py:101-144 | The STAC item and the columns of an accepted scene agree on box, shape, code, checksum and object, under the row's own id and source; the code is there exactly when the reference system has one |
| SceneMachine.CatalogWrittenOnce | terrawatch/imagery_worker.py:56-135 | Once catalog fields are written, no redelivery, late completion or rejection changes them or the digest |
| Agreement.OneCorrelationEach | terrawatch/correlation.py:89-115 | At most one correlation per scene, event and algorithm after any redeliveries, overlapping evaluations and late commits |
| Agreement.StoredStatusRecomputed | terrawatch/correlation.py:85-113 | Every stored correlation is what evaluating its scene and event at any later moment computes, and says the truth about them: whole seconds apart, inside the footprint or not, the verdict, the digest |
| Agreement.MatchedIdsExist | terrawatch/correlation.py:116-145 | Every id an analysis lists as matched is a stored correlation of that event with status matched, as long as no two pairs of the database share an id |
| Agreement.ProcessedIffAnalysed | terrawatch/correlation.py:121-145 | An event is processed exactly when its analysis row exists |
| Idempotency.AcceptedOnce | terrawatch/events.py:175-223 | Under every interleaving of concurrent submissions, each event id and each idempotency key is answered 202 at most once |
| Idempotency.AcceptedIffInserted | terrawatch/events.py:175-223 | 202 is the answer exactly of the submission whose own transaction inserted the record and its outbox row, and the record holds the submitted key, hash, instant and location ever after |
| Idempotency.LookupDecides | terrawatch/events.py:175-206 | Which answer a lookup settles on, for each way the id and the key can be recorded |
| Idempotency.ReplayMatchesRecord | terrawatch/events.py:175-189 | 200 implies that stored id, key and payload hash all equal the submission |
| Idempotency.OtherAnswersChangeNothing | terrawatch/events.py:191-223 | A submission answered anything but 202 never changed the shared state |
| Idempotency.EventsAdded | terrawatch/events.py:79-121 | Event records are added only by an accepted submission's own insert |
| Store.SceneObjectExists | terrawatch/ingest.py:188-225 | At every point of every run whose in-flight uploads have distinct digests, each scene row's object exists and hashes to its digest |
| Declarations.DeclaredForEver | terrawatch/ingest.py:119-153 | An upload answered 202 has inserted its row, and at every later moment the row has the source and capture time it declared and the digest of its bytes |
| Declarations.EveryRowDeclared | terrawatch/ingest.py:119-153 | Every scene row of every reachable state was declared as it stands by an upload whose bytes were inspected against that declaration |
| Declarations.ChecksSucceed | terrawatch/imagery_worker.py:138-173 | While the object of a scene is stored, the digest check and the inspection against the catalogued declaration succeed |
| Declarations.CompletionEnabled | terrawatch/imagery_worker.py:138-173 | A worker that has located a scene whose object is stored can go on to complete it |
| Declarations.LookupDecides | terrawatch/ingest.py:188-212 | Which answer an upload's lookup settles on, for each way its id and bytes can be catalogued |
| Store.StoreMatchesCatalog | terrawatch/ingest.py:211-240 | With all-or-nothing puts and working removes, whenever no upload is between put and commit the object set is exactly the catalogued digests: completed rejections leave nothing |
| Store.RejectedUploadWritesNoRow | terrawatch/ingest.py:188-240 | An upload answered anything but 202 never changed a scene or outbox row |
| Store.ScenesStoredIff | terrawatch/ingest.py:188-240 | In every run at all, every scene row has its object in all states so far if and only if every compensating remove so far met a digest no row held and every insert so far found its object still in the store |
| Store.CompensationSafeIff | terrawatch/ingest.py:229-232 | One compensating remove keeps every scene stored if and only if no scene row holds that digest |
| Store.LoserDeletesWinnersObject | terrawatch/ingest.py:188-232 | Without distinct digests the store property fails: a concrete run of two uploads of the same bytes in which the loser's remove takes the object of a committed row |
| Store.RowAfterRemove | terrawatch/ingest.py:188-232 | And a second one in which no remove ever meets a row: the row is inserted after the other upload's remove |
| Outbox.Table.PublishPending | terrawatch/outbox.py:58-81 | One call, whatever fails, connect and drain included: exactly the batch rows up to the first one neither sent nor noted get their outcome (marked with the error cleared, or one more attempt and an error), every other row stays, marked rows are on the stream, the count is the number sent and the drop in pending rows, and it raises exactly when connect, drain or that row failed; an undisturbed call moves exactly the oldest min(limit, pending) rows |
| Schema.MarksTell | terrawatch/outbox.py:42-55 | mark_published and mark_failed change one row in just the columns they name |
| Outbox.Table.PendingOutbox | terrawatch/outbox.py:20-39 | The batch holds distinct unpublished rows of the table, oldest first, at most limit; an unpublished row is left out only by a full batch of rows no younger than it |
| Outbox.Table.OutboxLoop | terrawatch/outbox.py:84-94 | Calls that raise are survived with rows, marks and stream kept; after any disturbed calls, enough undisturbed ones empty the table, and undisturbed calls alone drain exactly the oldest calls * limit rows |
| Outbox.DrainCalls | terrawatch/outbox.py:58-81 | ceil(n / limit) calls drain n rows and one fewer does not |
| Workers.Consumer.ProcessMessage | terrawatch/correlation.py:201-253 | One delivery under any failures: acknowledged exactly when the work passed or the attempts were used up with broker answers; otherwise declined with the backoff of its own attempt; the attempt rows it adds are exactly those whose writes succeed |
| Workers.Consumer.HandleFailure | terrawatch/correlation.py:220-247 | The failure branch: a failed attempt row, no ack without a dead-letter copy, a letter and a rejected scene when burying works, a nak before the last attempt |
| Workers.Consumer.Completing | terrawatch/imagery_worker.py:143-173 | The imagery work is committed exactly when the stored bytes hash to the digest and inspect, and the columns are then a function of row and bytes |
| Workers.EvaluateSession | terrawatch/correlation.py:69-151 | An evaluation commits for every known event whatever earlier evaluation it follows, and touches nothing else |
| Workers.Consumer.Bury | terrawatch/imagery_worker.py:104-135 | A dead letter is recorded once and the scene is rejected with the error |
| Workers.Consumer.Settle | terrawatch/correlation.py:256-272 | Redelivery settles a message within max_attempts deliveries, at the first one that can pass if any, and the naks wait within both retry budgets |
| Workers.Budgets | terrawatch/retry.py:22-48 | Any sequence of delays of attempts 1..n is within n * cap and within (1 + ratio) * base * (2^n - 1) |
| Events.EventApi.IngestEvent | terrawatch/events.py:175-223 | Each answer as an if-and-only-if over the records before the call, and the exact new state; a 202 adds exactly the submitted record and its outbox row |
| Events.EventApi.Persist | terrawatch/events.py:79-121 | Record and outbox row are committed together or not at all |
| Events.EventApi.Serve | terrawatch/events.py:153-223 | Sequential requests refine a history specification: the answer to each is fixed by the earlier submissions and answers alone, and the records are exactly the accepted submissions |
| Ingest.IngestApi.StageUpload | terrawatch/ingest.py:62-92 | The chunk loop stages exactly the body of a supported file of 1 to 16 MiB and leaves no temporary file otherwise; each refusal code exactly when its reason holds |
| Ingest.IngestApi.IngestScene | terrawatch/ingest.py:169-240 | Each status as an if-and-only-if over request, catalog and effects; no temporary file survives; a scene is catalogued only with its object stored; rejections leave catalog and, with clean effects, store unchanged; a 202 adds exactly the declared scene, pending and blank, and its outbox row; each error code exactly when its reason holds; a replay reports a scene catalogued with the uploaded bytes |
| Ingest.IngestApi.Store | terrawatch/ingest.py:211-240 | Put, persist and compensate: the object set and the catalog stay in step whichever of them fails |
| Ingest.IngestApi.Serve | terrawatch/ingest.py:169-240 | Over any sequence of uploads and effects: the catalog is exactly the uploads answered 202, these have pairwise distinct ids and digests, every object is stored, and nothing temporary remains |
| Faults.FaultsTell | terractl/faults.py:158-250 | What each fault and its undoing change, and that they change nothing else |
| Faults.UndoRestoresIff | terractl/faults.py:216-244 | Undoing a fault, in force or not, restores the world before it if and only if the pause target was running or the object name was unused |
| Faults.Lab.InjectFault | terractl/faults.py:140-213 | Wherever it dies and whatever fails, the state file still explains how the world differs from the baseline if and only if not (a docker pause froze the container, returned non-zero, and the process lived to unlink the file); then the fault is in force with no file. An active fault refuses another |
| Faults.Lab.ClearFaults | terractl/faults.py:216-250 | A completed clear restores the baseline exactly, a second clear changes nothing, and the file goes only once the world is repaired |
| Faults.Lab.WriteState | terractl/faults.py:102-106 | The state file is replaced whole or not at all |
| Faults.Lab.Operate | terractl/faults.py:140-250 | Over any history of injections and clears, each dying anywhere, the file explains the world up to the first such pause, and always when there is none; a last completed clear leaves the baseline |
| Evaluation.EvaluateEvent | terrawatch/correlation.py:69-151 | The row loop computes the specification: first-write-wins inserts, matched ids, statuses, digests and analysis status; every row it inserts tells the truth about its scene and event, one for every scene whose id was absent, and the analysis lists each verdict, each digest and exactly the ids of the matches |
| Evaluation.AnalysisStatusIsMaximum | terrawatch/correlation.py:59-66 | The analysis status is the precedence maximum matched > temporal > spatial > no-scenes |
| Evaluation.VerdictMeans | terrawatch/correlation.py:51-56 | Matched exactly when the footprint contains the point, boundary included, and the instants are less than window + 1 second apart; spatial-non-match exactly when it does not |
| Evaluation.RowTells | terrawatch/correlation.py:84-109 | The whole row of a pair: its ids, the algorithm, the scene's digest, the whole seconds between the instants, containment in coordinates, and the verdict these give |
| Evaluation.MergeTells | terrawatch/correlation.py:116-145 | Over an analysis another session changed meanwhile, a column wins only where this session changed it |
| Evaluation.AnalysisReordered | terrawatch/correlation.py:81-119 | The analysis does not depend on the order of the rows, list order aside |
| Evaluation.FirstEvaluation | terrawatch/correlation.py:120-145 | A first evaluation always commits and leaves every correlation named |
| Evaluation.EvaluationIdempotent | terrawatch/correlation.py:120-145 | Evaluating again changes nothing but, at most, list order |
| Evaluation.RepeatedEvaluation | terrawatch/correlation.py:69-151 | k >= 1 evaluations leave what one leaves, up to list order |
| Evaluation.PreimageInjective | terrawatch/correlation.py:42-48 | Validated identifiers with the same id preimage are equal |
| Evaluation.GeneratedIdIsIdentifier | terrawatch/correlation.py:42-48 | Every generated correlation id satisfies the identifier grammar |
| Evaluation.GeneratedIdIs | terrawatch/correlation.py:42-48 | It is the prefix and the first 24 characters of the digest in capitals |
| Evaluation.SharedIdIsTruncatedCollision | terrawatch/correlation.py:42-48 | Two different pairs share an id only through a collision of the truncated digest |
| Evaluation.ApartUnlessCollision | terrawatch/correlation.py:42-48 | The correlation ids of a database are apart unless two of its own pairs collide in the first 24 hex digits |
| Validation.IdentifierChars | terrawatch/validation.py:11-19 | A valid identifier holds only capitals, digits and hyphens, so it can be framed by a line break |
| Validation.IdentifierIff | terrawatch/validation.py:11-19 | The identifiers are exactly the strings of at most 96 capitals, digits and hyphens that start with a capital and hold two to seven hyphens, none at the end, the start or next to another |
| Validation.WindowIsOneSecondWider | terrawatch/validation.py:73-83 | The temporal test holds exactly when the instants are less than window + 1 seconds apart, and is symmetric |
| Validation.DeltaCountsSeconds | terrawatch/validation.py:73-83 | The second component is the number of whole seconds between the instants, and the test compares it with the window |
| Validation.WindowBoundary | terrawatch/validation.py:73-83 | The documented inclusive window always matches; one microsecond beyond it still does |
| Schema.ObjectNameInjective | terrawatch/ingest.py:213-213 | Different digests name different objects |
| Schema.ObjectNameIs | terrawatch/ingest.py:213-213 | The object name of a digest, character by character |
| Schema.ScenePersisted | terrawatch/ingest.py:119-153 | The insert commits exactly when id, digest and message id are unused, and then adds one pending blank row with the declared source and capture time and one untried outbox row with its envelope, and nothing else |
| Schema.EventPersisted | terrawatch/events.py:79-121 | The same for an event: the submitted record and one outbox row, and nothing else |
| Retry.BackoffDoubles | terrawatch/retry.py:36-42 | The sample 1/2 waits exactly the base doubled attempt - 1 times, or the cap; it starts at the base and doubles until it meets the cap; the samples 0 and 1 wait that less and plus its jitter, the cap cutting off |
| Retry.DelayInterpolates | terrawatch/retry.py:36-42 | In between the delay is the linear interpolation of the two ends, cut off at the cap |
| Retry.RetryRaises | terrawatch/retry.py:30-48 | Exactly where the two functions raise, and which attempt is the last |
| Retry.BackoffBounds | terrawatch/retry.py:22-42 | A valid call never raises, and its delay lies in [raw (1 - ratio), min(cap, raw (1 + ratio))] and in [0, cap] |
| Retry.BackoffMonotone | terrawatch/retry.py:22-42 | For a fixed sample the delay never decreases with the attempt |
| Retry.RetryBudget | terrawatch/retry.py:22-48 | While every attempt that waits is one retry_exhausted lets wait, there are at most max_attempts - 1 waits, together at most (max_attempts - 1) * cap and (1 + ratio) * base * (2^(max_attempts - 1) - 1) |
| Retry.RetryBudgetCapped | terrawatch/retry.py:22-48 | All delays together are at most their number times the cap |
| Retry.RetryBudgetExponential | terrawatch/retry.py:22-48 | And at most (1 + ratio) times the sum of the doublings |
| Retry.DoubledIsPow2 | terrawatch/retry.py:36-36 | n doublings of the base are base * 2^n |
| Reporting.ParametersFold | terractl/reporting.py:34-36 | Every parameter case folds into the id of its function |
| Reporting.NodeIdNames | terractl/reporting.py:34-36 | A node id is the module path, .py:: and the case name less the bracketed suffix that starts first and ends the name with no line break in it; without one, the whole name |
| Reporting.PlainNamesItself | terractl/reporting.py:34-36 | A case without such a suffix counts for its own name, character for character, and for no other id |
| Reporting.PlainNamesApart | terractl/reporting.py:34-36 | Different plain names of a module never fold together |
| Reporting.ParseJunit | terractl/reporting.py:39-58 | For every id the loop holds nothing or the conjunction of its counted cases and their total time |
| Reporting.CollectOutcomes | terractl/reporting.py:61-74 | For every id the merged outcome is the first failing file's, else the first mentioning file's, else absent |
| Reporting.SettledMeans | terractl/reporting.py:61-74 | A merged outcome exists exactly when some case folds to the id, and passed exactly when besides no such case in any file failed, errored or was skipped |
| Reporting.RecordCannotPromote | terractl/reporting.py:88-113 | The record of a requirement's check passed if and only if a case was seen for it and every case passed; its source is the speaking file |
| Reporting.BuildSummary | terractl/reporting.py:88-116 | One such record for every test of every requirement, in order; raises exactly when there is no file or no test |
| Records.FailuresSplit | terractl/evidence.py:194-209 | Executed failures plus unobserved checks are exactly the failures of a validated summary |
| Records.PassedCounted | terractl/models.py:46-47 | The count of passed records is the number of positions that hold one |
| Records.Validated | terractl/models.py:26-31 | A check that was not observed never passes, and a valid record is left alone |
| Evidence.RenderEvidence | terractl/evidence.py:27-107 | The loops write exactly the package of the summary and return its reconciliation |
| Evidence.PackageTells | terractl/evidence.py:27-107 | That package holds one true entry for every record in each view (PASS, no failure and passed exactly for the passed ones) and their counts |
| Evidence.ManifestTells | terractl/evidence.py:116-141 | The manifest repeats the run and its counts and lists exactly the views with the digests of their texts |
| Evidence.ReconcileEvidence | terractl/evidence.py:144-191 | The loops decide exactly the ordered checks |
| Evidence.ReconcileTells | terractl/evidence.py:144-191 | A package reconciles exactly when it has none of the ten problems, each said by quantifiers over its files and records; an error names a problem the package has, and the counts are those of its records |
| Evidence.RenderReconcileIff | terractl/evidence.py:27-191 | Rendering a summary of validated records then reconciling succeeds with the summary's own counts if and only if redaction leaves the four rendered texts alone; no other check can fail |
| Evidence.EditsDetected | terractl/evidence.py:116-191 | While the manifest stands, a package that reconciles holds exactly the rendered files |
| Evidence.ListsAccountForFailures | terractl/evidence.py:194-209 | The two failure lists read back from a package account for the summary's failed count |
| Evidence.ListsTell | terractl/evidence.py:194-209 | One list holds exactly the ids of checks that ran and failed, the other of those that never ran |
| Evidence.EvidenceCommand | terractl/cli.py:183-216 | The exit status is zero exactly when a summary was built, is clean and every record passed (or, when waived, was not observed) |
| Command.RunEvidence | terractl/cli.py:183-216 | From raw JUnit cases to exit status: zero exactly when every test of every requirement was seen and every case of it passed, and the texts are clean |
| Shapes.AssignmentsHidden | terractl/safety.py:12-18 | On any text and for any class of word characters, Python's engine hides exactly the values of the assignments a scan from the left meets and keeps all else; in the result every assignment (keyword between word boundaries, spaces, colon or equals sign, spaces, maximal value) has its value hidden; a text is left alone exactly when it already has |
| UrlShapes.PasswordsHidden | terractl/safety.py:23-26 | The same for the passwords of scheme://user:password@ |
| Safety.KeywordsAre | terractl/safety.py:14-14 | The keywords are exactly those the group of the pattern matches |
| Safety.AssignmentsIdempotent | terractl/safety.py:12-18 | The left-to-right keyword-assignment substitution is idempotent on every string |
| Urls.UrlsIdempotent | terractl/safety.py:23-26 | The URL substitution is idempotent on every string |
| Redaction.SequenceStableIff | terractl/safety.py:11-35 | Where the private-key and token rules find nothing, redacting twice equals redacting once if and only if, in the text with its assignments redacted, no password the URL rule replaces starts where an assignment header ends; otherwise the second pass takes at least one @ away |
| Redaction.TwoRulesStable | terractl/safety.py:11-35 | The same for the assignment and URL rules alone, with no assumption on the text; it is the assignment rule that finds something again |
| Leaks.SequenceNotIdempotent | terractl/safety.py:11-35 | Such a text: its redacted form is redacted again to something else |
| Leaks.CleanOnlyInParts | terractl/evidence.py:27-107 | Two fields the rules leave alone, which the comma of a CSV row turns into a URL with a password |
| Shapes.UnchangedIffAllHidden | terractl/safety.py:12-18 | The assignment rule leaves a text unchanged exactly when every assignment in it is hidden, in particular when it has none |
| Safety.UnchangedIffHidden | terractl/safety.py:12-18 | That is when its scan finds no header whose value it still shows |
| Safety.AssignmentsInValues | terractl/safety.py:38-48 | Lifted over arbitrarily nested values the rule keeps the shape and is idempotent |
| Safety.ShapeKept | terractl/safety.py:38-48 | redact_value keeps containers, keys and scalars, and redacts every text, for every text rule |
| Safety.PythonIsSane | terractl/safety.py:13-16 | The assumptions on the engine hold of Python's Unicode white space and ignore-case folding, whatever counts as a word character |
| Safety.PythonTells | terractl/safety.py:13-16 | What matches a keyword letter, is white space, or is a letter of the URL pattern under the ignore-case flag, code point by code point |
| Safety.AsciiIsSane | terractl/safety.py:13-16 | And of the ASCII classes |
| Urls.PythonIsRegular | terractl/safety.py:12-26 | The further assumptions of the two rules together hold of Python's engine |
| Pipelines.GateSequence | terractl/pipelines.py:81-91 | The loop returns the required gates present, ordered by where each first runs |
| Pipelines.MissingGates | terractl/pipelines.py:94-96 | Exactly the required gates that do not run |
| Pipelines.GatesOutOfOrder | terractl/pipelines.py:99-108 | One report for each adjacent pair of present gates in the wrong order, and no other |
| Pipelines.NoReportIff | terractl/pipelines.py:99-108 | No report if and only if the first-appearance sequence is the required list restricted to the gates present |
| Pipelines.ParityIff | terractl/pipelines.py:94-108 | Nothing missing and nothing misordered if and only if the sequence is exactly the required list |
| Pipelines.RequiredGatesDistinct | terractl/pipelines.py:21-42 | The required list repeats no gate |
| Traceability.FieldsAre | terractl/traceability.py:94-102 | The fields looked for in an entry are just these seven |
| Traceability.UnresolvedTests | terractl/traceability.py:43-67 | Reports exactly the faulty references; none exactly when every reference names an existing function of an existing file |
| Traceability.FaultIff | terractl/traceability.py:54-66 | Splitting at the first separator finds no fault exactly when the reference resolves, and otherwise the one there is: no separator, no file, or no such function |
| Traceability.ValidateTraceability | terractl/traceability.py:70-131 | Passes if and only if requirements are nonempty, ids unique, fields present, references resolved, mappings sound and mapped ids equal requirement ids; the errors are exactly the faults of the entries, of the mappings, and of unmapped ids, each of its kind; the stale branch is unreachable |
| Search.SearchScenes | terrawatch/analysis.py:173-221 | The growing condition list selects exactly the accepted scenes that satisfy every filter, cut to the page |
| Search.SearchEvents | terrawatch/analysis.py:237-290 | The same for events |
| Search.WalkReturnsMatches | terrawatch/analysis.py:201-221 | Walking pages 1 to ceil(total / size) returns every matching row once, in key order, and nothing else |
| Search.PagesPartition | terrawatch/analysis.py:37-51 | For any list and size those pages concatenate to the list, and exactly the later pages are empty |
| Search.PagesDisjoint | terrawatch/analysis.py:265-290 | No row is on two pages |
| Search.ParsePagination | terrawatch/analysis.py:37-51 | Accepted exactly when both are integers, the page positive and the size 1 to 100 |
| Search.ParseFilters | terrawatch/analysis.py:54-78 | Accepted exactly when the box, if given, is one, both ends of the interval or neither are given, and they are in order; with the values given |
| Search.ValidateBox | terrawatch/validation.py:33-41 | Accepted exactly when there are four ordered WGS84 values |

## Left out

- Commits that take effect and still raise: a transaction commits or rolls back, as `session_scope` treats it, so a 500 after a committed insert is not modelled.
- Isolation finer than one read instant and one commit instant: evaluations, completions and dead-letter records are split that way; the inserts of submissions and uploads, which read nothing they write back, and the marks of the dispatcher are one instant each.
- SceneMachine.SceneStates: does not promise that an accepted scene has no error or that a rejected one has one, because overlapping sessions can break this; SceneMachine.ErrorsAgreeIff says exactly when it holds and Overtaking.AcceptedWithError is a run in which it does not.
- Stream expiry and purge, acknowledgement timers and JetStream internals: publish with deduplication by message id (duplicates allowed once the window has passed), deliver with a growing count, ack and nak.
- Malformed envelopes: they are parsed outside the `try` and stop the worker; messages are those of the two persist functions, or the copies of the duplicate-event fault.
- UUID freshness: a message id already used makes the insert fail on its primary key.
- The stale-catalog-metadata fault inside protocol runs: the scene results are for runs in which no one edits a catalog column; the fault itself is in `Faults`.
- The worker-restart and duplicate-event faults keep no state file, so `Faults` leaves them out; duplicate messages are a step of the protocol.
- Faults.Lab.InjectFault: does not promise that the state file always explains the world, because a `docker pause` may freeze its container and still return non-zero, and that branch removes the file; the contract says it fails on exactly that branch.
- Faults.Lab.Operate: follows a history up to the first injection that loses track in that way; what an operator does next is outside the tool.
- A container that disappears between two calls of one clear.
- Local disk failures while staging an upload, HTTP routing, request parsing, metrics, logs and console output.
- Path suffix parsing: `Ingest` takes the lower-cased suffix of the file name as a parameter.
- The unreadable-upload cases inside protocol runs: uploads that fail before their lookup touch nothing shared; `Ingest` models them.
- Redaction.SequenceStableIff: takes the private-key and token rules as parameters that find nothing in the texts at hand; the assignment and URL rules are modelled in full.
- Evidence.RenderReconcileIff: its condition is on the rendered texts, not on the summary's strings one by one, because CSV puts strings side by side; Leaks.CleanOnlyInParts has two strings that are clean in parts and not in the row.
- Evidence.ReconcileEvidence: JSON, CSV, XML and the manifest are parameters that read back what they wrote; a file that cannot be parsed is one error.
- Evidence.ListsAccountForFailures: the two lists are not sorted, which their sizes do not see.
- Reporting.CollectOutcomes: takes the files in sorted order, and durations as whole non-negative milliseconds.
- Traceability.ValidateTraceability: the order of the unmapped errors is not modelled, and a test reference with a parameter suffix resolves here although evidence lookup strips suffixes from observed names only.
- Pipelines.GateSequence: takes the list of entrypoint commands; their extraction from the pipeline text is not modelled.
- Safety.ShapeKept: keys of dictionaries are not redacted, as in the code.
- Search.SearchScenes: box intersection stands for the spatial predicate on rectangular footprints, and the snapshot does not change between total and page.
- The EPSG number is kept as text, and floating point is idealised to reals.
- Docker, Compose, git, lifecycle, diagnostics, security scanners, documentation checks, Postman and performance thresholds: operating-system effects or single-pass filters that would add only easy members.
