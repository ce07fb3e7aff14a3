# Extraction engine: verified model

This project models the core of the Fetcher extraction engine in Dafny 4.11 and proves what its
design promises about it. `dafny verify dfyconfig.toml` checks all of it.

**Running a plan.** `StoreMachine` is the store delivery path as a state machine: one goroutine per
plan step behind an ordinal window, one handoff channel per step, one writer that drains the channels
in order, and the caller that joins both and finalises the sink. Each action is one atomic step of one
goroutine; connector failures, panics, sink failures and the host's cancel are actions an adversary
may take at any time. `DirectMachine` is the direct path: the semaphore pool with its running size
check, one result slot per step and the final assembly from the slots. The theorems quantify over
every run, that is every interleaving, of every job.

`StoreAborts` and `DirectAborts` say which error an aborted run returns and what a cancel stops.

**What is delivered.** `Json`, `Rows` and `Ndjson` hold the two printers and the NDJSON envelope,
`JsonReader` and `PayloadReader` readers of JSON text that know nothing of the printers, and
`JsonIndent` the one-pass scan by which encoding/json indents. `DirectPayload` prints and merges the
steps of the direct path, `RowCounts` relates the counts of the two modes; `Cursors` holds the eager
cursor and the two loops that drain it.

**Planning.** `Limits`, `Planner`, `SchemaValidation`, `Failures`, `FieldLookup` and `PlanAdmission` model how a
request becomes a plan and which requests do; `SchemaCache` models cache-first schema resolution over
runs of calls.

**Transformations.** `LikeLowering`, `LikeAllValues`, `MongoFilter` and `MongoReadings` model the
lowering of filter conditions for MongoDB, `Signature` the signed message envelope and
`SignatureBinding` what its signature binds.

Strings are sequences of characters with one character per byte where byte lengths matter. Contexts
are `Live` or `Done(cause)`; time is an age in nanoseconds. The digest, the MAC, the reading of a job
id from a body, the database's order of scalars and its case folding are parameters of the theorems.

## Results in short

- Store path: no deadlock, a length bound for every run, everything that must happen once happens
  once, the bytes handed to the sink are those of a serial run, and a failure is its root cause.
- Direct path: the same, and with unique config names the early size check never refuses a payload
  that fits; a delivered payload is the merge of the steps' own results in every schedule.
- Both paths: reading a finished store stream back, or a delivered payload, gives exactly the plan's rows
  by config and table, and both report the same row counts. Every error returned is that of an event in
  the run, and a host that ends before the outcome is collected always aborts it.
- LIKE lowering is faithful on newline-free values exactly for patterns without a dot, and on all
  values exactly for one literal followed by `%`.
- A filter condition keeps its meaning under all lawful orders of values together exactly when no value
  escapes the operators that the lowering overwrites, which a finite set of values decides. In one given
  order, bounds overwritten by `between` keep their meaning exactly when `between` admits nothing or
  implies them.
- The signature payload decodes exactly when no field contains a newline, and a published envelope
  verifies exactly inside the age window.
- A signature binds a body to its tenant and route, whatever the body contains, exactly unless exchange
  or routing key has a newline or the tenant has one that the job id follows. It also binds the body
  exactly when nothing after the version contains a newline.
- A request is planned exactly when the plan it denotes is admissible, and is otherwise refused by the
  first gate it fails; plans are in dictionary order and a step projected back to a request replans to
  itself.
- A schema once resolved through the cache is served from it, datasource up or down, until it is lost.

Where the code differs from what is written about it, the code is modelled:

- The window comment says the running steps are always the W lowest incomplete ones
  (pkg/engine/runner_parallel.go:237). This holds for W = 1 or at most W + 1 steps and fails for every
  other size: `StoreWindow.LowestRunningHolds`, `StoreClaims.LowestRunningFails`.
- The memory comment bounds in-flight data by about W batches (pkg/engine/runner_parallel.go:394). A
  finished step leaves a batch in its channel, so one batch per undrained step is the bound:
  `StoreWindow.WindowSafety`, `StoreClaims.InFlightBatchesUnboundedByWindow`.
- Every built connector is closed exactly once except after a panic inside TestConnection
  (pkg/engine/runner.go:507): `StoreProgress.EndedExactlyOnce`, `StoreProgress.LostOnlyByTestPanic`.
- A literal dot in a LIKE pattern reaches the regular expression unescaped, `.` does not match a
  newline and `$` matches before a final one (pkg/mongodb/datasource.mongodb.go:850-872):
  `LikeLowering.FaithfulExactlyWithoutDots`, `LikeAllValues.ExactOnlyForOneOpenLiteral`.
- Operators that write the same key of a field filter overwrite each other
  (pkg/mongodb/datasource.mongodb.go:787-847). Some such conditions then select other values and some do
  not: `MongoReadings.ExactlyReadWithoutEscape` for all lawful orders together,
  `MongoReadings.BoundsExactInOrder` for bounds in one order, `MongoReadings.EveryCollisionKindEscapes`,
  `MongoReadings.HarmlessCollisions`.
- The early size check is called a lower bound of the payload (pkg/engine/runner_parallel.go:72-79). It
  is one for all rows exactly when the config names are unique: `DirectPayload.BoundExactlyForUniqueNames`,
  `DirectPayload.RepeatedNamesRefused`.
- The envelope comment says that the same body under another tenant or route fails
  (pkg/rabbitmq/security_envelope.go:91-93). This holds whenever tenant, exchange and routing key have no
  newline, and in general exactly unless exchange or routing key has one or the job id follows one in
  the tenant: `SignatureBinding.SameBodyStaysBound`, `SignatureBinding.AmbiguousRouteUnbinds`,
  `SignatureBinding.SplitRouteTaken`.
- Filters on tables that are not selected reach the plan unchecked
  (pkg/engine/planner.go:233-258, 292): `PlanAdmission.UnselectedFiltersUnchecked`.

## Model

| member | source | states |
|---|---|---|
| StoreInvariant.RunKeepsInv | pkg/engine/runner_parallel.go:254-342 | the global invariant of windows, channels, writer and records holds in every state of every run |
| StoreProgress.NoDeadlock | pkg/engine/runner_parallel.go:254-342 | every reachable state that is not final, after any failure or cancel, has an enabled action of the engine itself |
| StoreProgress.ActionDecreases | pkg/engine/runner_parallel.go:385-510 | every action, a host cancel included, strictly decreases one explicit measure |
| StoreProgress.RunsAreBounded | pkg/engine/runner_parallel.go:385-510 | every run takes at most 13 actions per step, 5 per row and 5 more |
| StoreProgress.EveryRunCompletes | pkg/engine/runner_parallel.go:385-510 | any run can be continued by the engine alone until the caller returns |
| StoreProgress.EndedExactlyOnce | pkg/engine/runner_parallel.go:299-328 | at the end each step function ran once, each step and done channel was closed once, the writer reported once, and each built connector was closed once exactly unless TestConnection panicked on that step |
| StoreProgress.LostOnlyByTestPanic | pkg/engine/runner.go:498-512 | a connector is lost if and only if TestConnection panicked on that step |
| StoreDelivery.CloseMeansWholeOutput | pkg/engine/runner_parallel.go:489-509 | when the sink is closed all steps succeeded, the bytes written and hashed are the serial output within the limit, and the returned reference describes exactly them |
| StoreDelivery.CloseOnlyOnce | pkg/engine/runner_parallel.go:631-642 | no run closes the sink twice |
| StoreDelivery.NoCloseAfterFailure | pkg/engine/runner_parallel.go:489-509 | no run closes the sink after a step recorded a failure, a write failed or the size limit tripped |
| StoreDelivery.DeliveredThroughClose | pkg/engine/runner_parallel.go:631-672 | a result is returned only through an accepted Close, and is the one that Close determines |
| StoreDelivery.SuccessIsSerialOutput | pkg/engine/runner_parallel.go:416-460 | with the writer done and no step error the written bytes, row count, size and digest are those of the concatenated lines of steps 0..n-1 |
| StoreDelivery.LimitErrorIsReal | pkg/engine/runner_parallel.go:426-438 | a size-limit failure implies that the whole output exceeds the limit |
| StoreWindow.WindowSafety | pkg/engine/runner_parallel.go:266-324 | in every reachable state at most W connectors are open, at most W encoders hold rows, at most one batch waits per undrained step, and a queued batch has 256 rows or the rest of its step |
| StoreWindow.WriterTargetIsReleased | pkg/engine/runner_parallel.go:317-322 | the gate predecessor of the step the writer waits for has closed its channel, and no two unfinished admitted steps share a residue modulo W |
| StoreWindow.LowestRunningHolds | pkg/engine/runner_parallel.go:235-253 | the running steps are the W lowest incomplete ones when W = 1 or there are at most W + 1 steps |
| StoreClaims.LowestRunningFails | pkg/engine/runner_parallel.go:235-253 | for every W >= 2 and every n >= W + 2 some run violates that remark |
| StoreClaims.InFlightBatchesUnboundedByWindow | pkg/engine/runner_parallel.go:392-398 | with one worker and n one-row steps a run can hold n batches in flight with nothing written |
| StoreVerdict.RootCauseReported | pkg/engine/runner_parallel.go:489-507 | while the host context lives the reported error is the writer's, else the step error recorded earliest, else the sink's refusal, and never a cancellation the pool caused |
| StoreVerdict.FirstIsEarliest | pkg/engine/runner_parallel.go:283-297 | the remembered error is that of the step that recorded its failure first |
| StoreVerdict.VerdictIndependentOfSchedule | pkg/engine/runner_parallel.go:385-510 | without outside failures every schedule aborts exactly when the full output is over the limit and delivers otherwise |
| StoreAborts.AbortHasCause | pkg/engine/runner_parallel.go:416-509 | whatever error a run returns is the literal category and message of an event that happened in it: a failed or panicking step, a cancelled one, a failed write, the limit, the sink or the host |
| StoreAborts.FinalisesExactly | pkg/engine/runner_parallel.go:489-509 | the outcome is handed to the sink if and only if writer and steps succeeded and the host had not ended before it was collected |
| StoreAborts.HostEndAborts | pkg/engine/runner_parallel.go:489-509 | a host that ends before then aborts the run for good without a Close, as canceled or timed out if nothing else failed |
| StoreAborts.AfterCancel | pkg/engine/runner_parallel.go:531-604 | once the run context has ended, a step before its guard never builds a connector and a step before its last check never succeeds |
| DirectTheorems.NoDeadlock | pkg/engine/runner_parallel.go:145-233 | every reachable unfinished state of the semaphore pool has an enabled action of the engine |
| DirectTheorems.RunsAreBounded | pkg/engine/runner_parallel.go:145-233 | every run takes at most 13 actions per step and 3 more |
| DirectTheorems.ConnectorsWithinWindow | pkg/engine/runner_parallel.go:157-213 | at most W connectors are open in any reachable state, cancelled ones included |
| DirectTheorems.EndedExactlyOnce | pkg/engine/runner_parallel.go:184-217 | at the end no slot is held, each step ran once, and each built connector was closed once exactly unless TestConnection panicked on that step |
| DirectTheorems.LostOnlyByTestPanic | pkg/engine/runner.go:498-512 | in the semaphore pool too a connector is lost if and only if TestConnection panicked on that step |
| DirectTheorems.EveryRunCompletes | pkg/engine/runner_parallel.go:145-233 | any run can be continued without outside failures until the caller returns |
| DirectTheorems.DeliveredIsWhole | pkg/engine/runner.go:242-300 | a delivery is returned only when every step succeeded and then is the merge of all steps' results with their counts, within both size checks |
| DirectTheorems.EarlyAbortIsSound | pkg/engine/runner_parallel.go:91-107 | a step refused by the running size check implies that the final payload is over the limit |
| DirectTheorems.VerdictOfBothChecks | pkg/engine/runner_parallel.go:64-123 | without outside failures every schedule aborts exactly when the compact sizes together or the payload exceed the limit, and otherwise returns the owed delivery, unique names or not |
| DirectTheorems.VerdictIndependentOfSchedule | pkg/engine/runner_parallel.go:64-123 | when the compact sizes fit the payload, the verdict is that of the payload alone under every schedule |
| DirectTheorems.RootCauseReported | pkg/engine/runner_parallel.go:166-232 | while the host context lives the reported error is the one recorded earliest or the final check's, never a self-caused cancellation |
| DirectTheorems.FirstIsEarliest | pkg/engine/runner_parallel.go:166-182 | the remembered error is that of the step that recorded its failure first |
| DirectAborts.AbortHasCause | pkg/engine/runner.go:217-301 | whatever error a run returns is that of an event in it: a step, a size check, the final serialisation or the host |
| DirectAborts.DeliversExactly | pkg/engine/runner.go:253-301 | the assembled result is delivered if and only if the host had not ended before, it can be marshalled and it fits the limit |
| DirectAborts.HostEndAborts | pkg/engine/runner.go:253-261 | a host that ends before the caller returns leaves nothing delivered, and the error is canceled or timed out if no step failed |
| DirectAborts.AfterCancel | pkg/engine/runner.go:525-582 | once the run context has ended, a step before its guard never builds a connector, one before its query never sends it, and one that has not read all rows never succeeds |
| Json.CompactNoLongerThanIndented | pkg/engine/runner_parallel.go:72-79 | for every JSON tree and depth the compact text is no longer than the indented one |
| Json.MarshalableExactly | pkg/engine/runner.go:276-281 | marshalling fails exactly for trees that contain a value which cannot be marshalled |
| JsonReader.PrintersReadBack | pkg/engine/runner.go:276-281 | an independent JSON reader gives back the tree, token by token, from the indented text at any depth and from the compact text |
| JsonIndent.IndentedByScanning | pkg/engine/runner.go:263-281 | the indented text is what one byte-by-byte scan makes of the compact text, two spaces per level |
| PayloadReader.PayloadReadsBack | pkg/engine/runner.go:242-281 | printing a map config to table to rows and reading it back gives the map |
| DirectPayload.SizesFitPayload | pkg/engine/runner_parallel.go:72-107 | with unique config names the compact step sizes add up to at most the indented merged payload |
| DirectPayload.OwedIsPayload | pkg/engine/runner.go:242-300 | what the pool's slots assemble to is the plan's values merged by name, printed indented, with the row counts per config and their total |
| DirectPayload.DirectDeliversPayload | pkg/engine/runner.go:217-301 | every run that delivers, whatever its schedule and failures, returns exactly the plan's payload and row counts, and that payload reads back as the plan's rows by config and table |
| DirectPayload.DirectVerdict | pkg/engine/runner.go:217-301 | for a plan of marshalable rows with unique names every schedule returns the size-limit error exactly when the indented payload exceeds the limit, else that payload |
| DirectPayload.DirectVerdictAnyNames | pkg/engine/runner.go:217-301 | for a plan of marshalable rows with any names every schedule without outside failures returns the size-limit error exactly when the compact step sizes together or the payload exceed the limit, else that payload |
| DirectPayload.BoundExactlyForUniqueNames | pkg/engine/runner_parallel.go:72-79 | the compact step sizes add up to at most the payload for all rows of a plan if and only if its config names are unique |
| DirectPayload.RepeatedNamesRefused | pkg/engine/runner_parallel.go:91-107 | for any names with a repetition there is a plan, with a limit its payload fits, that every completed run without outside failures refuses as too large |
| ByConfig.MergeHolds | pkg/engine/runner.go:242-251 | merging steps with unique names keeps each step's value under its name and nothing else |
| Ndjson.NdjsonEncoder.AppendRow | pkg/engine/runner_parallel.go:718-731 | appends the row's envelope line, or leaves the buffer alone and reports a row that cannot be marshalled |
| Ndjson.NdjsonEncoder.Take | pkg/engine/runner_parallel.go:735-740 | hands out the buffer and starts an empty one |
| JsonReader.ReadEscaped | pkg/engine/runner_parallel.go:711-719 | reading a string literal undoes its escaping, whatever follows the closing quote |
| JsonReader.EscapeSafe | pkg/engine/runner_parallel.go:711-719 | escaping leaves no control character and none of <, > and & |
| Ndjson.ReadEnvelope | pkg/engine/runner_parallel.go:711-731 | an envelope line reads back as its config, table and row text |
| Ndjson.ReadOutput | pkg/engine/runner_parallel.go:416-460 | splitting the serial output at newlines and reading the lines gives the rows of the plan in order |
| Ndjson.StoreReadsAsDirect | pkg/engine/runner.go:242-251 | for every config and table the row texts in the store stream are those of the direct result, in the same order |
| Ndjson.StoreRunReadsAsDirect | pkg/engine/runner_parallel.go:416-509 | the same for the bytes of every store run at the moment it closes the sink, and each row text reads back as the row itself |
| RowCounts.GroupHoldsAll | pkg/engine/runner.go:561-569 | the tables a step is grouped into hold as many rows as its cursor gave |
| RowCounts.StoreReports | pkg/engine/runner_parallel.go:676-683 | a store run that delivers reports each step's rows under its config name and their total |
| RowCounts.ModesCountAlike | pkg/engine/runner.go:242-251 | any store run and any direct run of one plan that deliver report the same total and the same count per config |
| RowCounts.CountsAreRows | pkg/engine/runner.go:242-251 | with unique names each reported count is the number of rows in that config's tables, and the counts add up to the total |
| RowCounts.LinesReadBack | pkg/engine/runner_parallel.go:416-460 | the serial stream of a plan reads back, as exactly as many lines as the reported total |
| RowCounts.StreamHoldsReportedRows | pkg/engine/runner_parallel.go:631-672 | when a store run closes its sink, what it wrote reads back as exactly as many lines as the reference it returns reports rows |
| Cursors.NewEagerCursor | pkg/engine/cursor.go:50-74 | freezes tables in sorted order and rows in slice order, independent of map iteration |
| Cursors.EagerCursor.Next | pkg/engine/cursor.go:81-101 | advances exactly when no error is held, the context lives and a row is left; remembers a cancellation |
| Cursors.EagerCursor.Close | pkg/engine/cursor.go:124-131 | releases the rows, after which Row is the zero row |
| Cursors.GroupUndoesFlatten | pkg/engine/runner.go:561-569 | grouping a drained eager cursor gives the original map without its empty tables |
| Cursors.ReadRows | pkg/engine/runner.go:561-582 | returns all rows grouped by table and their count exactly when the context outlives the final check, else that context's error |
| Cursors.FlushBatch | pkg/engine/runner_parallel.go:610-623 | sends the buffer as the next chunk and fails only after the context ended |
| Cursors.StreamRows | pkg/engine/runner_parallel.go:566-604 | the batches sent are always the leading 256-row chunks of the step's lines, every failure has its cause, and the step succeeds if and only if its rows can be encoded, the check after the last row passes and the rest can be sent |
| Cursors.StreamStep | pkg/engine/runner_parallel.go:531-604 | on success the batches put end to end are the bytes of the step's rows with matching counts; always they are a prefix, in batches of 256 but for the last |
| Cursors.ChunksCover | pkg/engine/runner_parallel.go:580-602 | all chunks together are all lines, bytes and rows |
| LikeLowering.LoweringMeaning | pkg/mongodb/datasource.mongodb.go:850-872 | for patterns without other metacharacters and values without newlines, searching with the converted regex accepts exactly what LIKE accepts when dots match any character, under any case folding |
| LikeLowering.FaithfulExactlyWithoutDots | pkg/mongodb/datasource.mongodb.go:850-872 | for foldings that keep '.' and newline apart, the conversion has LIKE's meaning on all newline-free values if and only if the pattern has no dot or itself contains a newline |
| LikeAllValues.ExactOnlyForOneOpenLiteral | pkg/mongodb/datasource.mongodb.go:850-872 | for newline-free patterns the conversion has LIKE's meaning on all values, newlines included, if and only if the pattern is literal text without dots after any number of '%' and before at least one |
| LikeAllValues.OneLiteralExact | pkg/mongodb/datasource.mongodb.go:850-872 | such a pattern keeps its meaning on every value under any folding, also when it contains newlines |
| LikeAllValues.MatchStaysOnLine | pkg/mongodb/datasource.mongodb.go:850-872 | a match of the converted wildcards and literals lies within one line |
| LikeLowering.NewlineBreaksLowering | pkg/mongodb/datasource.mongodb.go:850-872 | LIKE '_' accepts a value that is a single newline and the converted regex does not |
| LikeLowering.ConvertSqlLikeToRegex | pkg/mongodb/datasource.mongodb.go:850-872 | computes that regex |
| MongoFilter.FieldFilter.ApplyComparisonOperators | pkg/mongodb/datasource.mongodb.go:787-817 | the new field filter is the old one overridden by the comparison operators present |
| MongoFilter.FieldFilter.ApplyNotEquals | pkg/mongodb/datasource.mongodb.go:820-831 | one value becomes $ne, several become $nin |
| MongoFilter.FieldFilter.ApplyLikePattern | pkg/mongodb/datasource.mongodb.go:834-847 | a string pattern becomes $regex; anything else adds nothing |
| MongoFilter.ConvertFilterCondition | pkg/mongodb/datasource.mongodb.go:748-784 | refused exactly for between without two values or a comparison with several; an empty condition lowers to nothing and any other to its entry |
| MongoFilter.LoweringExactWithoutCollision | pkg/mongodb/datasource.mongodb.go:748-847 | the lowered filter keeps every constraint of the condition, so that it agrees under every reading of the operators whatsoever, if and only if no two operators collide |
| MongoReadings.SelectedMeansReduced | pkg/mongodb/datasource.mongodb.go:748-847 | under MongoDB's reading the lowered filter selects exactly what the condition without the overwritten operators says |
| MongoReadings.ExactlyReadWithoutEscape | pkg/mongodb/datasource.mongodb.go:748-847 | under all orders that are total on each type and all foldings together the lowered filter selects what the condition says, if and only if no value passes what is left and is refused by an overwritten operator |
| MongoReadings.ExactlyReadByProbing | pkg/mongodb/datasource.mongodb.go:748-847 | without a pattern, or with one that has '%', the values mentioned in the condition and one new value of each type decide whether it keeps its meaning in all lawful orders together |
| MongoReadings.BoundsExactInOrder | pkg/mongodb/datasource.mongodb.go:787-817 | in any one lawful order a condition of inclusive bounds and between selects what it says if and only if between admits nothing or every other bound that it overwrites is implied by it |
| MongoReadings.ListedExactInOrder | pkg/mongodb/datasource.mongodb.go:748-847 | in any one order a condition with an In list selects what it says if and only if it does on the members of that list |
| MongoReadings.ExcludedExactInOrder | pkg/mongodb/datasource.mongodb.go:748-847 | in any one order a condition that loses only its NotIn list selects what it says if and only if what is left refuses every member of that list |
| MongoReadings.EqualExactInOrder | pkg/mongodb/datasource.mongodb.go:748-847 | in any one lawful order a condition that loses a single Equals, with its bounds implied and at most one NotEquals, selects what it says if and only if nothing else satisfies what is left |
| MongoReadings.EveryCollisionKindEscapes | pkg/mongodb/datasource.mongodb.go:787-847 | for each kind of collision a family of conditions and a value that is selected wrongly |
| MongoReadings.HarmlessCollisions | pkg/mongodb/datasource.mongodb.go:787-847 | collisions that no value notices: the same members in another order, a single equal value listed again |
| MongoFilter.LoweringDenotesCondition | pkg/mongodb/datasource.mongodb.go:748-847 | on scalar values a valid collision-free condition selects exactly the values satisfying every operator |
| MongoFilter.BuildMongoFilter | pkg/mongodb/datasource.mongodb.go:653-671 | succeeds exactly when every condition is empty or valid, with one entry per field that lowers to something |
| MongoFilter.DocumentDenotesFilter | pkg/mongodb/datasource.mongodb.go:653-671 | a record passes the document exactly when every field satisfies its condition |
| FieldLookup.HasField | pkg/model/schema.go:122-142 | the scan finds a field exactly when a column equals it or starts with it and a dot |
| FieldLookup.SearchStrings | pkg/engine/schema_ops.go:578-579 | binary search splits a sorted list at the first element not below the needle |
| FieldLookup.Has | pkg/engine/schema_ops.go:568-584 | one exact lookup and one probe find exactly what the scan finds |
| FieldLookup.IndexSnapshot | pkg/engine/schema_ops.go:589-607 | one valid index per table name over exactly that table's fields |
| Limits.Effective | pkg/engine/limits.go:84-117 | refuses the first override above its default, otherwise yields the limits in force |
| Limits.ApplyOverride | pkg/engine/limits.go:124-170 | refuses exactly a positive request above a positive maximum, and otherwise replaces the target exactly on a positive request |
| Limits.InForceBounds | pkg/engine/limits.go:84-170 | limits are refused exactly when some override exceeds its default; otherwise each is the positive override or else the default, never above a positive default, and the connector hard limits stay the defaults' |
| StringOrder.ListKeys | pkg/engine/planner.go:411-420 | the keys of a map in the one sorted order, whatever the iteration order |
| StringOrder.LessIsBefore | pkg/engine/planner.go:411-435 | comparing strings is the dictionary order: a proper prefix, or the smaller character at the first difference |
| StringOrder.SortOrders | pkg/engine/planner.go:425-435 | the result is a permutation in dictionary order |
| StringOrder.SortCanonical | pkg/engine/planner.go:425-435 | two lists sort alike if and only if one is a rearrangement of the other |
| Planner.DatasourceFilters | pkg/engine/planner.go:312-344 | keeps exactly the map-shaped table filters of a datasource |
| Planner.BuildExtractionPlan | pkg/engine/planner.go:265-306 | builds the plan the request denotes |
| Planner.PlanIsCanonical | pkg/engine/planner.go:265-306 | config names are in strict dictionary order, ordinals are positions, tables and fields are in dictionary order, one step per datasource |
| Planner.PlanCovers | pkg/engine/planner.go:265-306 | a datasource has a step exactly when the request maps it |
| Planner.StepHolds | pkg/engine/planner.go:265-344 | a step holds the fields selected for its datasource, rearranged, and of its filters exactly the table entries that are maps in a map, unchanged |
| Planner.SameStepsExactlyWhenEquivalent | pkg/engine/planner.go:265-344 | two requests get the same steps if and only if they differ only in field order and in filter parts no step reads |
| Planner.ExtractionRequestForStep | pkg/engine/runner.go:591-606 | projects a step onto a single-datasource request |
| Planner.FiltersToAny | pkg/engine/runner.go:611-618 | widens the filters keeping their nesting |
| Planner.ProjectionReplans | pkg/engine/runner.go:591-618 | planning the projected request gives back exactly that step with ordinal 0 |
| SchemaValidation.ValidationRequestFor | pkg/engine/planner.go:233-258 | the references to check are exactly those of the plan's steps on their selected tables |
| SchemaValidation.ValidateRequestNames | pkg/engine/schema_ops.go:614-640 | accepts exactly the requests without blank names |
| SchemaValidation.BlankTrims | pkg/engine/schema_ops.go:643-645 | a name is blank exactly when trimming white space leaves nothing |
| SchemaValidation.LimitFailures | pkg/engine/schema_ops.go:652-693 | reports exactly the exceeded limits, each naming the request, the datasource or the table that exceeds it |
| SchemaValidation.ValidateMapping | pkg/engine/schema_ops.go:509-553 | reports exactly the missing tables, fields and filter fields of a mapping |
| SchemaValidation.ValidateDatasource | pkg/engine/schema_ops.go:464-496 | an error exactly when the store fails or the source is down, and then that error; otherwise exactly a missing connection or the mapping's defects are reported |
| SchemaValidation.ValidateSchema | pkg/engine/schema_ops.go:392-458 | an empty report exactly when names, counts, connections and references all check out; otherwise an ordered report of exactly the exceeded limits or exactly the datasources' failures, or the error of the first datasource that is down |
| Failures.ArrangeOrders | pkg/engine/schema_ops.go:699-723 | the report holds the failures that were found, ordered by config, table, type and field |
| Failures.PrecedesByKeys | pkg/engine/schema_ops.go:699-723 | the order of a report is the dictionary order of config, table, type name and field |
| Failures.ReportCanonical | pkg/engine/schema_ops.go:699-723 | the report does not depend on the order in which failures were found |
| PlanAdmission.RequireNonEmptySelections | pkg/engine/planner.go:219-227 | passes exactly when every datasource selects a table |
| PlanAdmission.RequireScopedConnections | pkg/engine/planner.go:163-213 | passes exactly when every name is found and their number is within the limit, after at most MaxDatasources + 1 lookups when that limit is positive; otherwise refuses for the first failing name in sorted order, or for the number once the budget of names passed |
| PlanAdmission.PlanExtraction | pkg/engine/planner.go:60-139 | returns a plan exactly for the requests that pass every gate, and then the plan they denote; otherwise the refusal is that of the first gate that fails |
| PlanAdmission.CheckReferences | pkg/engine/planner.go:124-141 | the schema check passes exactly when every step's references check out, and otherwise is refused as malformed, by the first source that is down, as an unknown connection or as invalid, in that order |
| PlanAdmission.PlannedExactlyWhenAdmitted | pkg/engine/planner.go:60-139 | passing the gates is the same as the denoted plan being within limits with every selected table, field and filter field resolvable |
| PlanAdmission.UnselectedFiltersUnchecked | pkg/engine/planner.go:233-258 | a filter on an unselected table never changes the verdict and is copied into its step |
| SchemaCache.Resolver.ResolveSchema | pkg/engine/schema_ops.go:157-229 | a hit returns the cached snapshot whatever the datasource does; otherwise the result is that of discovery and is written through unless the cache is skipped or the write fails; every snapshot returned is live |
| SchemaCache.DiscoveryErrors | pkg/engine/schema_ops.go:169-229 | discovery succeeds exactly when the datasource is up, under the name that was asked for; a connect-stage error passes through and any other failure is redacted |
| SchemaCache.Resolver.DiscoverSchema | pkg/engine/schema_ops.go:65-125 | whatever it returns is live, it succeeds whenever an uncached call would, and the fresh variant is the uncached call |
| SchemaCache.Resolver.ValidateSchemas | pkg/engine/schema_ops.go:430-458 | a validation checks against live snapshots only, fails only with an error one of its datasources has without a cache, and completes when each datasource is reachable or cached |
| SchemaCache.ReachableCompletes | pkg/engine/schema_ops.go:430-496 | a validation whose datasources live discovery reaches completes with exactly the live snapshots |
| SchemaCache.Resolver.Serve | pkg/engine/schema_ops.go:157-261 | the agreement with live discovery for every discover, discover-fresh and validate request of every run, under any cache losses and failures; and what an earlier request stored and the cache has not lost answers a cache-first request even when its datasource is down |
| Signature.DecodeInverts | pkg/rabbitmq/security_envelope.go:94-100 | reading a payload back gives the signed fields if and only if none contains a newline |
| Signature.PayloadInjective | pkg/rabbitmq/security_envelope.go:94-100 | equal payloads of newline-free fields come from equal fields, timestamps and bodies |
| Signature.AmbiguousExactlyWithNewlines | pkg/rabbitmq/security_envelope.go:94-100 | a message shares its payload with another one if and only if a field or the body contains a newline |
| Signature.NeverLegacy | pkg/crypto/signer.go:106-112 | no payload equals any body-only payload, whatever the fields contain |
| Signature.LegacyInjective | pkg/crypto/signer.go:106-112 | the body-only payload determines timestamp and body |
| Signature.DeleteSecurityOwnedHeaders | pkg/rabbitmq/security_envelope.go:68-75 | keeps exactly the caller's own headers |
| Signature.BuildSecurePublishing | pkg/rabbitmq/security_envelope.go:32-66 | caller headers survive, owned headers are replaced, and the signature headers are present exactly when signing and bind tenant, job, route and body |
| Signature.PublishThenVerify | pkg/rabbitmq/rabbitmq.go:1293-1421 | a published message verifies on the same route and body, in clock readings: from the future beyond 30 seconds ahead of its whole-second stamp, expired beyond a positive tolerance after it, else accepted |
| Signature.AgeInReadings | pkg/rabbitmq/rabbitmq.go:1343-1360 | the saturating duration checks come to that window at every distance of stamp and clock |
| Signature.ParseIntExactly | pkg/rabbitmq/rabbitmq.go:1325-1341 | a timestamp text is read exactly from an optional sign and digits within 64 bits |
| Signature.AcceptsExactly | pkg/rabbitmq/rabbitmq.go:1293-1421 | any message is accepted if and only if a signer is there, signature, stamp and version headers are well formed, the stamp is in the window, the version is the signer's and a MAC matches |
| Signature.RefusalExplained | pkg/rabbitmq/rabbitmq.go:1293-1421 | each refusal names what is wrong with the message |
| Signature.SignatureBindsPayload | pkg/rabbitmq/rabbitmq.go:1293-1421 | with a collision-free MAC a message carrying the signature of x is accepted exactly when it is fresh and has x's payload, legacy fallback or not |
| SignatureBinding.ReassignableExactlyWithNewlines | pkg/rabbitmq/security_envelope.go:91-100 | another message of the same version and body has the same payload if and only if tenant, job, exchange or routing key contains a newline, whatever the body |
| SignatureBinding.RelocatableExactly | pkg/rabbitmq/security_envelope.go:91-100 | when the body fixes the job too, one exists if and only if exchange or routing key has a newline or the job id follows one in the tenant |
| SignatureBinding.PlainRouteUnambiguous | pkg/rabbitmq/security_envelope.go:91-100 | a newline-free tenant, exchange and routing key are enough to exclude that |
| SignatureBinding.SameBodyStaysBound | pkg/rabbitmq/rabbitmq.go:1293-1421 | without such an ambiguity the signed body under any headers and route is accepted exactly when it is fresh and presented with its own tenant, route and timestamp |
| SignatureBinding.AmbiguousRouteUnbinds | pkg/rabbitmq/rabbitmq.go:1293-1421 | with one the verifier takes the same body and signature under another tenant or route, which is named |
| SignatureBinding.SplitRouteTaken | pkg/rabbitmq/rabbitmq.go:1293-1421 | the signature for exchange p, newline, q and routing key r is also taken for exchange p and routing key q, newline, r |
| SignatureBinding.RebindableExactlyWithNewlines | pkg/rabbitmq/security_envelope.go:94-100 | within one version a message with another body has the same payload if and only if something after the version contains a newline, and otherwise the payload determines the message |
| SignatureBinding.SignatureBindsEnvelope | pkg/rabbitmq/rabbitmq.go:1293-1421 | a message carrying the signature of x is accepted exactly when it is fresh and presents x, if x has no newline after its version or the message has x's body and x's route is unambiguous |
| SignatureBinding.NewlinesUnbindEnvelope | pkg/rabbitmq/rabbitmq.go:1293-1421 | when x has a newline after its version, the verifier takes its signature for a named message with another body, provided that body yields the job id of its reading |
| Signature.LegacyBindsBodyOnly | pkg/rabbitmq/rabbitmq.go:1393-1413 | a body-only signature is accepted exactly through the fallback, fresh, with the same timestamp and body |

## Left out

- Goroutine scheduling is interleaving of atomic actions; a context cancel reaches its child contexts in the same action.
- Liveness assumes that connector, store and sink calls return.
- Cursor Close calls are not counted; connector Close calls are.
- A sink write either takes the whole batch or fails; partial writes are not modelled.
- Real JSON encoding: scalars carry the token the encoder prints, object members are listed in printing order; invalid UTF-8, U+2028, U+2029 and the short escapes for backspace and form feed are not treated specially.
- DirectPayload.DirectDeliversPayload: the payload reads back when the rows consist of JSON tokens, which is what the encoder prints for scalars.
- SHA-256 and HMAC are functions without laws except where collision freedom is an explicit hypothesis.
- LikeAllValues.ExactOnlyForOneOpenLiteral: patterns that contain a newline are covered in one direction only, by OneLiteralExact.
- LikeLowering.LoweringMeaning: patterns containing regex metacharacters other than the dot are excluded, because the converted text is then not a concatenation of single-character matches.
- MongoFilter.LoweringDenotesCondition: values are scalars, so the element-wise matching of arrays is not modelled.
- MongoReadings.ExactlyReadByProbing: a pattern without '%' admits values of one length only, and then the test of ExactlyReadWithoutEscape ranges over all of them.
- MongoReadings.EqualExactInOrder: when further operators are overwritten at the same time, the one-order criterion is that of ExactInWhenLeftSuffices, over all values.
- Cursors.ReadRows: drains an eager cursor, which has no error of its own; a cursor that fails by itself is the FailCursor action of DirectMachine.
- Cursors.StreamRows: drains an eager cursor, which has no error of its own; a cursor that fails by itself is the FailCursor action of StoreMachine.
- Cursors.StreamStep: starts from an open cursor; opening the connector is part of StoreMachine.
- Signature.PublishThenVerify: the overflow of time.Unix for timestamps near the 64-bit limits is not modelled.
- SchemaCache.Resolver.Serve: the connection store is taken to answer with a connection of the name it was asked for, since the cache is written under the connection's own name.
- SchemaCache.Resolver.Serve: connections are fixed during a run; an updated connection does not invalidate its cached schema (pkg/engine/connection_ops.go:388), so the result does not extend across updates.
- SchemaValidation.ValidateSchema: the texts of failures and the discovery timeout are not modelled.
- PlanAdmission.PlanExtraction: the store, the tenant scope check and the datasources answer the same throughout one call.
- Execution status records, spans, logging and the choice of execution mode: they follow a run and do not affect what it delivers.
- Connection management, drivers, SQL building, queue consumers, the circuit breaker and the rate limiter are not part of this model.
