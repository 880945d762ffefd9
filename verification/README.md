# A verified model of the RAGFlow agent core

This Dafny project models the parts of RAGFlow whose behaviour is hardest to see from one function, and proves
what holds of them over whole runs. `dafny verify dfyconfig.toml` checks everything.

| files | what they model |
|---|---|
| `CanvasModel`, `CanvasRun` | `Canvas.run`: the batch scheduler over a growing path, once as functions on states and once as the class whose methods are proved equal to them |
| `CanvasSafety`, `CanvasEvents`, `CanvasTermination`, `CanvasPause`, `CanvasContainers`, `CanvasLoops`, `CanvasLoopRuns`, `CanvasMissedEnd`, `CanvasStops`, `CanvasRenaming` | properties of every run of that scheduler |
| `CanvasSteps`, `CanvasReports` | where one position leads, what a batch drops, and the complete event log, stated without the scheduler's own functions |
| `CanvasLoading`, `CanvasDocuments` | from a stored document to the canvas it describes, before and after migration; writing a component down and loading it back |
| `Cursor`, `ItemCollation`, `LoopConditions` | the items of iterations and loops: their cursors, collected outputs and end conditions |
| `Regex`, `References`, `MigrationText`, `MigrationMeaning`, `Migration`, `MigrationLaws`, `MigrationGraph`, `MigrationRun` | the DSL migration, its two regular expressions, and what the canvas reads before and after it |
| `CodeExecTypes` | the contract of the code execution tool |
| `ThinkStream` | the incremental differ over streamed answers |
| `Raptor` | the layers of RAPTOR summaries |
| `McpSession` | the queue, worker and close protocol of an MCP session |
| `NestedValue`, `SheetNames`, `MetadataFold` | dotted paths inside outputs, unique sheet names, metadata filters and updates |

What a foreign call answers (a model, a parser of values, a clustering library, a tool server) is an oracle: a
function parameter about which nothing is known. In the scheduler it is indexed by the path position at which a
component was launched, so the same component may behave differently every time.

## Where the code does less than one would expect

Each of these is a lemma; the model follows the code.

- The differ of `agent/component/llm.py` searches the pending text a second time after it has cut it, so an opening
  think tag that becomes pending behind other text moves the cursor back by one. For the texts the model bundle sends,
  where a closing tag at the end may be withdrawn again, the stream is lossless up to the cursor, and the cursor never
  moves back, exactly as long as that guard is never true (`CallIsSound`, `StreamIsLossless`). Once it is true the
  text in front of the tag is sent again by every call, and the cursor gets past the tag exactly if it is the first
  opening tag of the answer: then the cursor slips to -1, the next call jumps to the end, and the tag with the text
  behind it, but for one last character, is never sent; behind an earlier tag it circles for good (`FirstTagIsLost`,
  `LaterTagIsNeverReached`, `TagIsPassedIff`). The twin of the function in `api/db/services/dialog_service.py` searches
  once and is lossless on every stream (`TwinIsLossless`).
- Nothing resets an item's cursor, so a container that is entered again runs one round more, beginning with the last
  element (`IterationClosedForm`, `ReenteredActivation`); the additional round is never collated.
- A container whose item has no body stops after its first item (`EmptyBodyStalls`), and a container nested last in
  another one's body never gives control back to it (`NestedTailStalls`).
- An item ends only if its cursor stands at -1 when its batch is post-processed. A batch that launches the item more than
  once, because the branches of a body come back at different times, can lead the cursor over -1 unseen: with maximum
  m, cursor c and k launches exactly if c + k > m and m + 2 does not divide c + 1 + k (`EndIsMissedIff`). A loop of at
  most two rounds then goes on for four without an end (`FourRoundsOfTwo`), and an iteration shows its elements again.
  As long as every batch launches the item at most once the bound holds over every run (`LoopIsBounded`).
- The dependency test means "scheduled earlier in the path", in the same batch if need be, not "finished"
  (`DependenciesComeFirst`); a run that resumes at a user form does not test at all (`ResumedRunsCheckNothing`); and
  the call after a pause continues everything that was pending exactly if that is a single entry that is named like a
  form, or "begin" (`ResumeCoversOnlyASingleForm`).
- The migration changes what a text means exactly if a renamed id contains a dot inside a reference the canvas
  reads, or stands in braces with white space that the canvas does not read (`RenderingIsPreserved`, `CleanExactly`;
  `DottedReferenceBreaks` and `SpacedReferenceBreaks` are inputs of either kind). It loses a component exactly if two
  ids collide (`NoComponentIsLostIff`).
- In a RAPTOR layer of more than two chunks one failed summary ends the run at the count of the new chunks, whatever
  is left of the error budget (`LayerSucceeds`).
- The notice `close` puts for a queued MCP task is a `CancelledError`, which is not an `Exception`, so the caller gets
  it as if it were the result (a remark on `AfterClose`, spelt out in `DrainedCallersReturn`).
- Writing a dotted path stores the value one level deeper than it is named: it is read back under the path with its
  last key repeated and never under the path itself (`WriteThenRead`). A path that leaves the written one reads as
  before exactly if the write replaced nothing on the shared keys or there was nothing to read (`DivergingReadsStay`);
  a list on the path is lost (`ListOnThePathIsLost`).
- "and" over metadata filters forgets empty results that come first (`AndIsTrueIntersectionIff`).
- A Boolean loop variable takes the branch of the numbers, where "is" and "is not" raise; on an unset variable an
  operator and its negation are both false (remarks read off `LoopConditions.Evaluate`, spelt out in
  `BooleansCannotBeCompared` and `NegationIsOpposite`).

## Model

| member | source | states |
|---|---|---|
| CanvasRun.Scheduler.constructor | agent/canvas.py:425-427 | entering `run` appends "begin" unless the path ends in a user form, and starts at the last entry with no error and an empty queue |
| CanvasRun.Scheduler.RunBatch | agent/canvas.py:437-484 | popping in place while creating tasks leaves exactly the entries whose references are scheduled earlier, tested left to right against what is kept, and invokes those |
| CanvasRun.Scheduler.ReleasePartials | agent/canvas.py:572-577 | the queue's head is reported as long as its content is available, in order, and nothing behind the first one that is not |
| CanvasRun.Scheduler.PostProcess | agent/canvas.py:515-629 | one position's post-processing is the message, error, finish and branch stages in that order, errors diverting before the path grows |
| CanvasRun.Scheduler.Turn | agent/canvas.py:502-651 | one turn of the main loop: batch, post-processing of every kept position, error truncation, or moving on, or a pause |
| CanvasRun.Scheduler.Run | agent/canvas.py:502-651 | the loop is the iterated turn, stopping when the path is used up, on failure or on a pause |
| CanvasModel.PostFrame | agent/canvas.py:515-629 | post-processing only appends to the path, and raises the error flag exactly for an error nothing handles |
| CanvasSteps.PositionGoesOn | agent/canvas.py:579-629 | one position of any batch: a diverted component appends exactly its handler's branch, repeats included; any other appends, without repeats of its neighbour, the container's links behind an ending item, its choice for a Categorize or Switch, the first item in dictionary order for a container or at the end of a body, the loop's links for an ExitLoop, and else its own links |
| CanvasSteps.ChoiceGoesToNext | agent/canvas.py:620-621 | a turn of a Categorize or Switch alone extends the path by exactly what it chose, whatever it links to |
| CanvasSteps.ExitGoesBehindTheLoop | agent/canvas.py:624-625 | a turn of an ExitLoop alone extends the path by the links of its loop |
| CanvasSteps.DivertedGoesToHandler | agent/canvas.py:579-584 | a turn of a failed component whose handler names a branch extends the path by that branch and nothing else, and is no failure of the run |
| CanvasSteps.ExtendSkipsRepeats | agent/canvas.py:601-614 | extending a path adds the offered ids in order, without those that equal the entry they would follow |
| CanvasSteps.DroppedExactly | agent/canvas.py:461-474 | an entry of a batch is dropped exactly if, being no Begin and no user form, it waits for a component that is neither executed nor kept in front of it, in a path that does not begin with a form's name |
| CanvasSteps.ItemTurn | agent/canvas.py:616-619 | a turn of an item alone moves its cursor one further, to -1 at the maximum, at the end of the list or when the conditions hold, or not at all if the item was cancelled; and no other cursor |
| CanvasReports.PositionLogs | agent/canvas.py:569-619 | the complete log of one position: message end, then the queue's longest front of available components reported late, then a default answer, a direct report unless the component is a container or waits for its content, and the container of an ending item; with the queue and the error flag it leaves |
| CanvasReports.FrontIsUnique | agent/canvas.py:572-577 | the reported front is the one whose members are all available and behind which the queue is empty or not available |
| CanvasReports.RunIsBooked | agent/canvas.py:502-629 | over every run: the messages that ended, the default answers, the direct and the late reports and the queue are what reading the launched ids in order, with a first-in-first-out queue, says |
| CanvasReports.LateExactly | agent/canvas.py:572-577 | when a launch is booked, the k-th queued component is reported late exactly if the launch is a Message and the first k + 1 queued components are all available |
| CanvasReports.TurnAgrees | agent/canvas.py:503-513 | a turn announces every pending entry, dropped or not, once and in order |
| CanvasSafety.KeptIsSatisfied | agent/canvas.py:455-481 | every entry a batch keeps has its references in the path in front of it, or is exempt |
| CanvasSafety.KeptWhole | agent/canvas.py:466-474 | a batch is kept whole exactly when every entry's references are scheduled in front of it |
| CanvasSafety.StepShape | agent/canvas.py:502-651 | a turn extends the executed prefix by its batch; an error leaves exactly the prefix before the batch, a pause the reordered pending entries |
| CanvasSafety.RunIsSafe | agent/canvas.py:499-513 | in every reachable state the launched ids are exactly the path from the start to the position, once each and in order, each with its references earlier; a failed run kept exactly what was launched before the failing batch, a paused one exactly the entries pending behind everything launched, forms first |
| CanvasSafety.DependenciesComeFirst | agent/canvas.py:466-474 | unless the path begins with a user form, every executed component other than Begin and UserFillUp has all its references strictly earlier in the executed path |
| CanvasEvents.FinishesAreConserved | agent/canvas.py:572-599 | over every run the direct finish events are the launches due at once, and the deferred ones followed by the queue are the launches due through it, first in first out; the run fails exactly if an unhandled error was launched |
| CanvasEvents.FinishesBalance | agent/canvas.py:591-599 | component finish events plus the queue's length equal the launches that are not containers |
| CanvasEvents.ContainerReportsComeFromEndingItems | agent/canvas.py:616-619 | a position reports a container exactly if it holds an ending item, and then the item's parent |
| CanvasTermination.RankDecreases | agent/canvas.py:502-634 | with acyclic edges and no containers the bound on pending ranks drops with every batch |
| CanvasTermination.AcyclicRunsTerminate | agent/canvas.py:502-634 | such a run takes at most rank(start) + 1 batches, whatever the components answer |
| CanvasStops.ContainersStop | agent/canvas.py:502-634 | with containers: if every component goes on to at most one other, containers are not nested, their bodies lead to their end and all other edges are acyclic, a run takes at most (rank(start) + 1) ((R + 2)(W + 1) + 2) turns for R rounds and W places in a body |
| CanvasStops.TurnLeavesFewer | agent/canvas.py:601-629 | every such turn leaves fewer turns, in a measure of rank, rounds left and place in the body |
| CanvasTermination.FullyDroppedBatchExits | agent/canvas.py:466-484 | a batch in which everything is dropped ends the loop with the path cut back |
| CanvasTermination.StaysInCanvas | agent/canvas.py:502-651 | in a closed canvas every entry of every reachable path, of running, paused and failed runs, is a component |
| CanvasPause.PauseKeepsThePending | agent/canvas.py:636-650 | a turn pauses exactly if it did not fail and a form is pending; the new path is the pending entries, forms first, none lost and none added |
| CanvasPause.FormsKeepOrder | agent/canvas.py:637-638 | both halves of the reordered path keep the order of the old one |
| CanvasPause.FormNameIff | agent/canvas.py:425-427 | an id names a form exactly if "UserFillUp" stands anywhere in it, in any case |
| CanvasPause.ResumeCoversOnlyASingleForm | agent/canvas.py:425-427 | the next call goes on at the last entry if its text names a form, else at "begin"; it continues everything a pause left exactly if that is one entry, and the entry it goes on at |
| CanvasPause.ResumeByConvention | agent/canvas.py:425-427 | if ids contain the form's name exactly when they are forms: only the last of several forms is continued, and with any other entry pending the call starts at "begin" again |
| CanvasPause.ResumedRunsCheckNothing | agent/canvas.py:467-467 | a path that begins with a form's id drops nothing |
| CanvasContainers.SingleStep | agent/canvas.py:502-634 | a turn over a single pending component launches it, and the path grows by what it offers |
| CanvasContainers.ContainerRun | agent/canvas.py:616-629 | a container with a chain body whose item goes on for r rounds appends the container, r copies of item and body, a last item and the downstream |
| CanvasLoops.IterationClosedForm | agent/component/iterationitem.py:35-60 | over n elements a fresh iteration makes exactly n rounds, a re-entered one over a non-empty list n + 1, and the cursor is left at -1 |
| CanvasLoops.LoopBound | agent/component/loopitem.py:35-46 | for an item launched at a fixed stride, as in a chain body: at most maximum rounds when fresh and one more when re-entered, fewer only because the conditions held at the next launch |
| CanvasLoops.LoopClosedForm | agent/component/loopitem.py:123-155 | the whole run of a loop with a chain body, its length being that number of rounds |
| CanvasLoopRuns.LoopIsBounded | agent/component/loopitem.py:35-46 | over every run that launches the item at most once in a batch, whatever the canvas and the body: since the last end the scheduler saw it has gone on for at most its limit of rounds, one more if it had ended before, and its cursor is that number |
| CanvasLoopRuns.EndIsSeenIff | agent/canvas.py:616-619 | the scheduler sees an end in a batch exactly if the item is launched there and its cursor is at -1 after all launches, or the conditions hold at one of them |
| CanvasLoopRuns.EndIsMissedIff | agent/component/loopitem.py:40-46 | k launches in one batch pass the end exactly if c + k exceeds the limit, and it is seen exactly if limit + 2 divides c + 1 + k; with one launch the two agree |
| CanvasLoopRuns.LaunchesAreModular | agent/component/loopitem.py:35-46 | k launches take the cursor c to (c + 1 + k) mod (limit + 2) less one |
| CanvasLoopRuns.IterationIsLimited | agent/component/iterationitem.py:35-60 | an iteration over a fixed list that is not empty is limited in the same way |
| CanvasMissedEnd.FourRoundsOfTwo | agent/canvas.py:601-629 | a loop of at most two rounds with a branching body goes on four times in seven turns from "begin", with no end |
| CanvasLoops.ExtendsPlainly | agent/canvas.py:601-614 | a list of successors is appended whole if no two neighbours are equal |
| CanvasLoops.EmptyBodyStalls | agent/canvas.py:605-627 | a container whose item links to nothing stops behind its first item, not at its end |
| CanvasLoops.NestedTailStalls | agent/canvas.py:616-619 | behind an ending item, whose container links neither to the item nor to a user form, the run goes on exactly if the container links to something |
| CanvasRenaming.RunsCommuteWithRenaming | agent/canvas.py:502-651 | path, launches, events, queue, cursors and outcome of a renamed canvas are those of the original under the new names after every number of batches |
| CanvasRenaming.RenamedRun | agent/canvas.py:425-651 | the same for a whole call from a stored path, if renaming neither makes nor hides a form's name |
| ItemCollation.IterationItem.OutputCollation | agent/component/iterationitem.py:62-85 | the two nested loops append to each container output that refers to a component of the container exactly that component's current output, and change no other |
| ItemCollation.IterationItem.Invoke | agent/component/iterationitem.py:35-60 | collation, end, element and cursor as in the specification; it raises exactly for a value that is no list or an index out of range |
| ItemCollation.CursorAgrees | agent/component/iterationitem.py:35-60 | the scheduler's cursor is the item's, under cancellation too |
| ItemCollation.InvocationEffect | agent/component/iterationitem.py:35-60 | one invocation, cancelled at any of its three looks or not: it shows one more element exactly if it gets to it, and each collecting output grows by one value exactly if it gets to collating, also when it is cancelled right behind that |
| ItemCollation.FreshActivation | agent/component/iterationitem.py:35-85 | a fresh activation shows elements 0 to n-1 once each in order, ends exactly at invocation n + 1, and collates exactly n rounds in order |
| ItemCollation.ReenteredActivation | agent/component/iterationitem.py:50-85 | a re-entered one shows the last element first, then all of them, ends at invocation n + 2, and still collates exactly the n rounds |
| ItemCollation.ReenteredEmpty | agent/component/iterationitem.py:50-60 | over an empty list a re-entered item stays at its end and changes nothing |
| LoopConditions.LoopItem.Invoke | agent/component/loopitem.py:35-46 | the cursor moves as in the scheduler's model, with the two looks at the cancellation flag |
| LoopConditions.LoopItem.End | agent/component/loopitem.py:123-155 | the loop over the conditions answers as specified and sets the cursor to -1 exactly on a positive answer |
| LoopConditions.EndIsExact | agent/component/loopitem.py:123-155 | "and" ends exactly if every condition holds, so always without conditions, "or" exactly if some does; one condition that cannot be evaluated raises, however the others stand |
| LoopConditions.GrowingVariable | agent/component/loopitem.py:72-79 | as the variable grows ">" and "≥" stay true once they are, as it shrinks "<" and "≤" do |
| LoopConditions.ComparedAtTheNumber | agent/component/loopitem.py:68-79 | where they turn: at the compared number "≥", "≤" and "=" are true and the others false, and any way above or below it the order decides |
| LoopConditions.CountingLoopEnds | agent/component/loopitem.py:123-155 | a loop with one such condition goes on up to the number and ends behind it (">") or at it ("≥") |
| LoopConditions.TextOperators | agent/component/loopitem.py:50-65 | "start with", "end with" and "contains" hold exactly if the text is the value and a rest, a rest and the value, or the value between two texts |
| LoopConditions.ListOperators | agent/component/loopitem.py:101-113 | "contains" holds of a list exactly if some item equals the value |
| LoopConditions.EqualsByParts | agent/component/loopitem.py:58-109 | equality of lists is item by item, of dictionaries key by key, and a Boolean equals the number it stands for |
| LoopConditions.EvaluationRaisesIff | agent/component/loopitem.py:48-121 | a condition raises exactly if its operator is none of the class of the variable, or compares a text with no text or a number with no number |
| LoopConditions.EmptyIff | agent/component/loopitem.py:62-119 | "empty" holds exactly of the empty text, list and dictionary and of an unset variable, which meets no other operator |
| References.BracedIsRegex | agent/dsl_migration.py:31 | the scanner for migrated references finds what backtracking over the pattern finds, with the same groups |
| References.ReferenceIsRegex | agent/canvas.py:169 | the same for the pattern of the references the canvas reads |
| MigrationText.RewriteAtReference | agent/dsl_migration.py:62-75 | rewriting a text that begins with a reference the canvas reads rewrites its id, if the pattern can see it, and then the rest |
| MigrationMeaning.ReferencesAreRenamed | agent/dsl_migration.py:62-75 | for every text, the keys the canvas reads in the rewritten text are those of the original with plain ids renamed: none made, none lost |
| MigrationMeaning.RenderingIsPreserved | agent/canvas.py:168-193 | with outputs under the new ids, the rewritten text renders as the original exactly if the text is clean |
| MigrationMeaning.ValueIsKept | agent/canvas.py:195-210 | a value is read under the renamed key exactly if the key's id is plain or not renamed |
| MigrationMeaning.CleanExactly | agent/dsl_migration.py:62-75 | a text is clean exactly if every key the canvas reads in it names no renamed id with a dot, and no match the canvas does not read names a renamed id |
| MigrationMeaning.UnrewrittenText | agent/canvas.py:168-210 | a text left as it is renders as before exactly if none of its keys names a renamed component |
| MigrationMeaning.SpacedReferenceBreaks | agent/dsl_migration.py:31 | an input that is unclean: the text { id@name} with one space inside the brace and a renamed plain id |
| MigrationMeaning.DottedReferenceBreaks | agent/dsl_migration.py:31 | an input that is unclean: the text {id@name} with a renamed id that contains a dot |
| MigrationLaws.MigrationIsIdempotent | agent/dsl_migration.py:34-177 | migrating a migrated document changes nothing, for every document the migration accepts |
| MigrationLaws.MigrationKeepsTheGraph | agent/dsl_migration.py:86-120 | if no two ids collide, components keep their number and order, and downstream, upstream, parent and path entries that name a component name its image |
| MigrationLaws.NoComponentIsLostIff | agent/dsl_migration.py:86-114 | the migrated table has as many components as the original exactly if no two ids collide |
| MigrationLaws.ComponentKeepsLinks | agent/dsl_migration.py:86-112 | one component's links, position by position |
| MigrationLaws.IdMapIsMigrationMap | agent/dsl_migration.py:52-60 | the id map keeps plain ids plain, and never yields an id that is itself renamed |
| MigrationLaws.MigratedTextMeansTheSame | agent/dsl_migration.py:62-75 | a text that is no component id renders as before exactly if it is clean for the document's own id map |
| MigrationLaws.WholeIdText | agent/dsl_migration.py:63-64 | a text that is a component id renders as before exactly if the id stays and no key inside it names a renamed component |
| MigrationLaws.FormNamesAreKept | agent/dsl_migration.py:52-60 | renaming neither makes nor hides the name of a user form in an id |
| MigrationGraph.ClassesAndIds | agent/dsl_migration.py:22-95 | a component's class becomes "TokenChunker" exactly if it was "Splitter" or "TokenChunker", "TitleChunker" exactly if it was "HierarchicalMerger" or "TitleChunker", and no other changes; an id that is the class, a colon and a rest becomes the new class, a colon and the same rest |
| MigrationGraph.ComponentsAreMigrated | agent/dsl_migration.py:86-114 | without collisions every component keeps its place, its fields and the shape of its values, and its links name the images |
| MigrationGraph.ValueKeepsItsShape | agent/dsl_migration.py:77-84 | a rewritten value keeps its lists, keys and other scalars in place; a text that is an id becomes the new id, and in any other the references are renamed |
| MigrationGraph.DocumentIsMigrated | agent/dsl_migration.py:116-177 | path entries, node ids, parent ids and both ends of every edge name the images of what they named, node types and built-in labels and names are renamed, forms and the conversation are rewritten, and everything else is as it was |
| MigrationGraph.ReplaceRejoins | agent/dsl_migration.py:167-171 | replacing an id inside an edge's id splits it at the occurrences found from the left and joins the pieces with the new id |
| MigrationGraph.ReplacementOrder | agent/dsl_migration.py:158 | the ids are replaced longest first, those of one length in dictionary order |
| MigrationGraph.AcceptedIff | agent/dsl_migration.py:92-120 | the migration raises exactly if a list or a dictionary stands for an id in a component's links or the stored path, or for a component's class |
| MigrationRun.NormalizeChunkerDsl | agent/dsl_migration.py:34-177 | the loops over the document compute the migration the laws are about |
| CanvasLoading.ComponentIsSame | agent/dsl_migration.py:86-112 | a migrated component is loaded with the kind, links, parent, references, handler and maximum of the original under the new ids |
| CanvasLoading.MigrationRenamesTheCanvas | agent/canvas.py:96-111 | the migrated document describes the original canvas with every id renamed, if ids are plain and do not collide |
| CanvasLoading.StoredPathIsRenamed | agent/dsl_migration.py:116-120 | the migrated document stores the original path under the new ids |
| CanvasLoading.MigratedCanvasRunsAlike | agent/canvas.py:84-111 | so the two run alike, each from the path it stores: path, launches, events, queue, cursors and outcome after every number of batches |
| CanvasDocuments.WrittenThenLoaded | agent/canvas.py:96-111 | a component written down as the editor does is loaded as it was: class, links, container, error handler and maximum, with the references of its texts |
| CanvasDocuments.KindIsClass | agent/canvas.py:591-626 | a class the scheduler treats differently is told by its name in any case |
| CanvasDocuments.RefsAreNamed | agent/component/base.py:500-511 | a component waits for exactly the components that a reference in one of its texts names |
| CanvasDocuments.MaximumIsReached | agent/component/loopitem.py:39-40 | an integer cursor has reached the maximum exactly if it is not below the configured number |
| CodeExecTypes.NormalizeIsParsePrint | agent/tools/code_exec.py:132-150 | normalising a type expression is parsing it and printing the type, with the same errors |
| CodeExecTypes.PrintThenParse | agent/tools/code_exec.py:132-150 | every type an expression can denote is printed to a text that parses to it again |
| CodeExecTypes.ParseIsDenotable | agent/tools/code_exec.py:132-150 | parsing yields only such types, and no empty name inside an array |
| CodeExecTypes.NormalizeTwice | agent/tools/code_exec.py:132-150 | normalising is idempotent |
| CodeExecTypes.ValidateIsConforms | agent/tools/code_exec.py:153-188 | the validator accepts exactly the values that conform to the parsed type |
| CodeExecTypes.InferIsPrintedType | agent/tools/code_exec.py:86-105 | the inferred name is the printed type of the normalised value, the set of item names being one name exactly if all items have one type |
| CodeExecTypes.OwnTypeIsAccepted | agent/tools/code_exec.py:86-188 | every value is accepted under the type inferred for it |
| CodeExecTypes.NormalizedOnce | agent/tools/code_exec.py:78-83 | normalising a value is idempotent |
| CodeExecTypes.NormalizedIsListed | agent/tools/code_exec.py:78-83 | normalising puts lists for tuples at every depth, keeping items, keys, their order and all scalars, and leaves no tuple |
| CodeExecTypes.ListedIsSame | agent/tools/code_exec.py:78-83 | a value is left as it is exactly if there is no tuple in it |
| CodeExecTypes.ExactTypeIsInferred | agent/tools/code_exec.py:86-188 | a value without empty lists is accepted under a declared type that names a class at every depth exactly if the type, normalised, is the inferred one |
| CodeExecTypes.AnyIsInferredFor | agent/tools/code_exec.py:86-105 | "Any" is inferred exactly for values of unknown classes, and "Array<Any>" exactly for lists that are empty, mixed or all Any |
| CodeExecTypes.StripTrims | agent/tools/code_exec.py:132-133 | stripping takes blank text off both ends and nothing else |
| CodeExecTypes.ContractIsExact | agent/tools/code_exec.py:63-75 | a contract is built exactly for one usable business output, a value of a known class, and a value of the declared type |
| CodeExecTypes.ContractAgain | agent/tools/code_exec.py:191-206 | declaring the reported type accepts the contract's value again, unchanged |
| CodeExecTypes.ContractTellsTheResult | agent/tools/code_exec.py:191-206 | a built contract is named after the only output that is no system output, and its value is the raw result with lists for tuples: the raw result itself exactly if it holds no tuple |
| ThinkStream.Differ.Next | agent/component/llm.py:283-304 | the closure's call is the specified one on its three variables |
| ThinkStream.CallIsSound | agent/component/llm.py:283-304 | whatever text follows, a closing tag withdrawn or not, a call keeps the stream sound if no opening tag is pending behind text, and moves the cursor back, by one, exactly otherwise |
| ThinkStream.StreamIsLossless | agent/component/llm.py:323-344 | over a whole sequence of texts: the cursor never moves back exactly if every opening tag is first when it becomes pending, and then the text sent is the last text up to the cursor, tags removed |
| ThinkStream.WholeStream | agent/component/llm.py:277-307 | the same from the start of a stream |
| ThinkStream.AnswersArrive | api/db/services/llm_service.py:426-438 | the texts the model bundle accumulates from pieces of reasoning and answer, withdrawing a closing tag before the next piece of reasoning and dropping tool calls, follow each other as the stream law asks, if no two neighbouring pieces of the same kind share a tag |
| ThinkStream.KeepsSlipping | agent/component/llm.py:291-294 | once an opening tag is pending behind text every call moves the cursor one further back and sends the stretch before the tag again |
| ThinkStream.FirstTagIsLost | agent/component/llm.py:283-304 | for the first opening tag: after lastIdx + 1 calls the cursor is -1; the next call, after a closing tag that may be due, sends the last character only and sets the cursor behind the tag |
| ThinkStream.LaterTagIsNeverReached | agent/component/llm.py:288-294 | behind an earlier opening tag the cursor stays between the two for good |
| ThinkStream.TagIsPassedIff | agent/component/llm.py:283-304 | the cursor gets past a tag pending behind text, whatever arrives, exactly if it is the first opening tag of the answer |
| ThinkStream.TwinIsLossless | api/db/services/dialog_service.py:1298-1321 | the twin is lossless and never moves back, on every stream |
| Raptor.GatherIsScheduleFree | rag/raptor.py:119-162 | under every interleaving the completed chunks are untouched, the tasks stop the run exactly on cancellation or a used-up error budget, and otherwise add one summary for each cluster that did not fail, made from that cluster's texts |
| Raptor.DecisionPartitions | rag/raptor.py:183-196 | the clusters of a layer partition it, none is empty, and there are fewer than chunks |
| Raptor.ClustersFollowLabels | rag/raptor.py:183-196 | in a layer of more than two chunks cluster c holds exactly the chunks labelled c, so two share a cluster exactly if they have one label, or there is one cluster |
| Raptor.SplitIff | rag/raptor.py:164-199 | a layer is split exactly if the run is not cancelled and it has two chunks, or the search has a range, every chunk a label and every label a chunk |
| Raptor.UsableInOrder | rag/raptor.py:115-115 | exactly the inputs with a text and an embedding that is not empty are used, unchanged and in order |
| Raptor.LayerSucceeds | rag/raptor.py:164-213 | a turn goes on exactly if the layer can be split, no task is cancelled and no summary fails, but for a layer of two within the budget |
| Raptor.LoopKeepsTower | rag/raptor.py:164-213 | in every state the layers tile the list, strictly shrink, and hold exactly the summaries of clusters that partition the layer below |
| Raptor.FinishedCall | rag/raptor.py:112-215 | a finished call returns the usable chunks and such layers up to at most one chunk, in all at most n + m(m-1)/2 chunks |
| Raptor.EmptyTopLayer | rag/raptor.py:168-175 | an empty last layer means that the one summary of two chunks was not obtained |
| Raptor.Summarizer.Summarize | rag/raptor.py:120-162 | a task's turn on the shared chunks and the error count |
| Raptor.Summarizer.Run | rag/raptor.py:112-215 | the loop with its growing list computes that call, and the error count outlives it |
| McpSession.StepKeepsSafe | common/mcp_tool_call_conn.py:122-171 | every step keeps: the queue is the accepted tasks not yet taken, in order, and the taken ones are answered once each and in order, but for at most one |
| McpSession.RunKeepsSafe | common/mcp_tool_call_conn.py:122-243 | so does every run |
| McpSession.RepliesAreFinal | common/mcp_tool_call_conn.py:155-171 | a result is never replaced and never followed by a second one |
| McpSession.ReplyGoesToItsTask | common/mcp_tool_call_conn.py:143-158 | what the server answered or raised is put for the task that is served, whose result was empty, and no other result changes |
| McpSession.TasksGetTheirReplies | common/mcp_tool_call_conn.py:122-158 | over every run the j-th task that was served holds the j-th reply that was made: the server's answer or error, or the connection error of a worker without a session |
| McpSession.WholeSession | common/mcp_tool_call_conn.py:122-158 | a connected session asked n times gives the tasks the n replies in order |
| McpSession.WithoutSession | common/mcp_tool_call_conn.py:135-141 | without a session every waiting task is answered with the connection error |
| McpSession.CancelledTaskIsLost | common/mcp_tool_call_conn.py:143-153 | a task in flight when its worker is cancelled is never answered, whatever happens afterwards |
| McpSession.AfterClose | common/mcp_tool_call_conn.py:227-243 | after close nothing is accepted or taken, the queue is empty, the drained tasks hold the notice, and only the task in flight or dropped before can be unanswered |
| McpSession.Session.Call | common/mcp_tool_call_conn.py:160-165 | a task is queued last exactly if the session is open |
| McpSession.Session.Get | common/mcp_tool_call_conn.py:123-141 | the worker takes the first task, and answers it at once if it has no session |
| McpSession.Session.CloseSession | common/mcp_tool_call_conn.py:227-243 | the draining loop answers every queued task once, in order |
| NestedValue.WriteThenRead | agent/canvas.py:261-271 | after writing at k1...kn, that path holds a dictionary with the value under kn, and k1...kn.kn the value |
| NestedValue.ReadGoesOn | agent/canvas.py:216-239 | reading a path is reading its front and then the rest from there |
| NestedValue.TextReadsAsJson | agent/canvas.py:220-224 | a path goes on inside a text as inside the JSON value it holds, and ends at nothing if it holds none |
| NestedValue.ListReadsByIndex | agent/canvas.py:230-236 | a key of a list is an index, and one that is none, or lies outside, reads as nothing |
| NestedValue.DivergingReadsStay | agent/canvas.py:212-239 | a path that leaves the written one reads as before exactly if what is on the shared keys is a dictionary or nothing, or it read nothing before |
| NestedValue.ListOnThePathIsLost | agent/canvas.py:266-268 | an input that fails it: a list on the path |
| SheetNames.UniqueName | agent/component/message.py:378-384 | the search ends after at most one candidate more than there are used names, at the first free one |
| SheetNames.SheetNames | agent/component/message.py:376-385 | all final names differ, and have at most 31 characters if the titles do |
| SheetNames.CandidatesDiffer | agent/component/message.py:382-384 | different counters give different candidates, however the title was cut |
| SheetNames.CandidateShape | agent/component/message.py:382-384 | a candidate is a prefix of the title, an underscore and the counter: the whole title, or so much of it that the name has 31 characters |
| SheetNames.DecimalDenotes | agent/component/message.py:383-383 | the digits of a counter denote it, without leading zeros |
| MetadataFold.MetaFilter | common/metadata_utils.py:141-159 | the loop, with its early return, computes the fold |
| MetadataFold.OrIsUnion | common/metadata_utils.py:157-158 | "or" is the union of all results |
| MetadataFold.AndIsIntersectionFromFirstMatch | common/metadata_utils.py:150-156 | "and" is the intersection from the first non-empty result on |
| MetadataFold.AndIsTrueIntersectionIff | common/metadata_utils.py:150-156 | it is the intersection of all results exactly if the first is not empty, or the rest from the first match on is disjoint |
| MetadataFold.DedupeList | common/metadata_utils.py:227-236 | the loop keeps the first item of every key |
| MetadataFold.FreshKeys | common/metadata_utils.py:227-236 | the result has every key once and no other |
| MetadataFold.KeepsFirstOfEachKey | common/metadata_utils.py:230-235 | an item is kept exactly if no earlier item has its key, so the order is that of first occurrences |
| MetadataFold.UpdateMetadata | common/metadata_utils.py:239-271 | the loop merges entry by entry |
| MetadataFold.UpdateExtendsLists | common/metadata_utils.py:262-267 | a list keeps the first item of every key, in order, and gains behind them the update's items with new keys |
| MetadataFold.UpdateReplaces | common/metadata_utils.py:251-269 | a value that is no list, or is missing, is replaced by the new string, or by the strings of the new list, each once in the order of first occurrences; an update with no string changes nothing |
| MetadataFold.UnusableChangesNothing | common/metadata_utils.py:252-258 | nor does such an update change a list |
| MetadataFold.UpdateTwice | common/metadata_utils.py:239-271 | updating twice with the same dictionary is updating once |

## Left out

- The components' own work (models, retrieval, tools, code sandboxes, branching decisions) and all I/O, storage, timing, event payloads, speech and logging: oracles or not modelled.
- Which references a component has is fixed in the model; the code reads them from its input elements on every launch.
- Exceptions raised out of `run` itself (an unknown component, an unhashable reference, a loop condition that raises inside `end`), and the cancellation exception at the start of a batch, end the call and are not modelled.
- CanvasRun.Scheduler.Run: takes a bound on the number of turns, because a cyclic canvas need not stop; the bound is arbitrary and every result about runs holds for all of them.
- CanvasTermination.AcyclicRunsTerminate: says nothing about canvases with containers; `CanvasStops.ContainersStop` does, for runs with one component at a time. With several at a time the rounds of a container are not bounded by its limit, as `CanvasMissedEnd` shows, so the measure does not carry over.
- CanvasStops.ContainersStop: exception branches and nested containers are not covered; an exit from a loop, choices and failures inside bodies are.
- CanvasLoops.IterationClosedForm: covers chain bodies of ordinary components; branching, nested or failing bodies are covered by the results about every run only, and for those the bound of a loop needs that no batch launches its item twice.
- CanvasLoopRuns.LoopIsBounded: a cancelled item returns before it counts, so a cancelled run is not bounded by it. Two launches of an item in one batch are taken to run one after the other; in the code they are concurrent calls on one object.
- CanvasLoading.MigrationRenamesTheCanvas: which parameters a class reads its references from is a parameter of the model, of which is asked that reading commutes with rewriting the parameters (`TextParameterIsNatural` shows it for a prompt); class names are words, and ids with characters the migration's pattern does not match are left out there, since `DottedReferenceBreaks` shows why they fail.
- Reference patterns are matched with the case of `sys.` and `env.` as written; the flag that ignores it when a component collects its inputs is not modelled.
- The total lookup of components in the model never uses its default in a closed canvas, which is what `CanvasTermination.StaysInCanvas` proves.
- ItemCollation.IterationItem.OutputCollation: an output reference that is not of the form id@name raises in the code; the model takes references as already split. A container output that holds something other than a list or an empty value is not modelled, since `run` clears outputs first and only this method fills them. The same list object being shared with another holder is not modelled.
- LoopConditions.LoopItem.End: the lookups of the condition's values are given; a lookup that raises is not modelled.
- Migration documents are trees of fields, so sharing inside the document that is copied first is not modelled; a document whose `downstream` holds a list or an object raises, as in the code.
- Characters: lower-casing is that of the letters A to Z, white space is what Python's `\s` matches in text, and text is a sequence of characters without Unicode normalisation.
- MigrationMeaning.RenderingIsPreserved: outputs are texts; how other values are printed by the canvas does not depend on ids and is part of the value.
- CodeExecTypes.ValidateIsConforms: the texts of the error messages and the path inside them are not modelled, nor is the rendered content of a contract; numbers are reals, so infinities and NaN are one class with the others.
- ThinkStream.TwinIsLossless: the twin's early return on an unchanged text yields nothing and is not modelled.
- Raptor.GatherIsScheduleFree: after a task has raised, tasks that are still running may finish or fail before they are cancelled; the run ends in that exception either way, and what they do to the error count is not modelled. Truncation of texts and retries are part of the answer of the model.
- The clustering libraries are assumed to return a cluster count in the range that is searched and one label for every chunk.
- McpSession.RunKeepsSafe: `close` is taken to run on the session's own loop, between two suspension points; closing several sessions from another thread is not modelled.
- NestedValue.WriteThenRead: the dictionaries are values here; the code updates them in place, and sharing one dictionary between two places is not modelled. Paths are given as their keys.
- MetadataFold.MetaFilter: each filter's result is given as a set; how a single filter compares values is not modelled.
- MetadataFold.UpdateMetadata: an update given as JSON text and the sharing of a list with another holder are not modelled.
- Image handling in `agent/component/llm.py`, the Excel writer, the other components, connectors, parsers, the web and command line interfaces: not modelled.
