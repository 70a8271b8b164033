# StorageBase Studio: a verified model of its protocols and algorithms

StorageBase Studio is a database console in React and TypeScript with a Node launcher. Most of
it is user interface, but between the components run protocols whose order of events matters,
and inside them sit readers and printers whose output other programs take at its word. This
project models those in Dafny and proves what they are for, over all inputs and over all runs.

Code that changes things step by step is a class or a method with a loop here, proved against a
specification function on a value (`View()` gives a class's value, `Step` moves it by one
event). Runs are sequences of events; what every run keeps is proved about `Step` and then about
all runs by induction. Readers and printers are proved against each other.

| file | component | what it is about |
|---|---|---|
| `EditorEcho.dfy` | query editor | telling one's own late text from somebody else's |
| `CatalogReads.dfy`, `SeedMerge.dfy`, `SeedPoll.dfy` | connection manager | overlapping reads, the merge of managed connections, the bounded poll |
| `Pivot.dfy` | pivot table | a client-side pivot and the query it generates |
| `CsvReader.dfy`, `SqlText.dfy`, `ImportSql.dfy` | data import | CSV in, INSERT statements out |
| `DiagramLayout.dfy` | schema diagram | cancellable layout runs |
| `SourceTabs.dfy` | studio shell | stale and fresh definitions over tabs |
| `DialogPrimary.dfy` | shortcuts dialog | one of many instances draws it |
| `Launcher.dfy` | `bin/studio.js` | download, check, unpack and swap, with crashes |
| `TraceTail.dfy` | `trace.py` | following a growing file |
| `FixtureSplitter.dfy` | fixture builders | statements out of a file, triggers included |
| `RichText.dfy` | rich text | a model's markup as nodes and blocks |
| `ChartData.dfy` | charts | histogram bins and grouped numbers |
| `CreateTableForm.dfy` | create-table form | the form's states and the statements they print |
| `Common.dfy`, `JsText.dfy` | | an optional value; trimming and splitting of text |

## What the proofs found

Where a property does not hold of the code as it stands, the model keeps the code, a lemma names
a concrete case, and another states exactly when the property does hold.

- Query editor. The comment at `src/components/QueryEditor.tsx:188-190` says equal texts need no
  tie-break. After typing a text, another one and the first again, the echo of the second can
  stay outstanding for good, and a later outside write of that text is swallowed
  (`LeftoverEchoSwallowsOutsideWrite`; exactly when, `SettledOutsideWriteLandsIff`; typing texts
  that are all different leaves no echo, `DistinctTypingLeavesNone`).
- Pivot. NULL values count as zeros on the client and not at all in SQL: `CellAgreesIff` has the
  exact condition for each aggregate. A column key equal to the marker `__all__` loses its column
  in the query (`NoColumnLostIff`).
- CSV reader. It undoes a quoting writer exactly on cells without line feeds and outer white
  space (`ReadsBackIff`).
- Import. Column names go into the statements as they are, without quotes: one that holds a comma
  and a blank is read as more columns (`ColumnsReadBackIff`).
- Schema diagram. A layout that lands between a render and that render's effect draws the older
  cards again, and nothing is left to put it right: a second read of the schema that finds one
  more column stays unseen (`OvertakenRenderIsLost`; exactly when, `RebuiltIsDrawnIff`).
- Launcher. The comment at `bin/studio.js:199-201` promises that a previous payload's data is
  kept across the swap. A crash between the rename of `data/` into the staging directory and the
  rename of the staging directory loses it: the next run that unpacks deletes that directory first
  (`DataLostBetweenTheRenames`; exactly when, `CrashKeepsDataIff`).
- Trace follower. The offset counts a line ending of two bytes as one, so after such endings a
  later pass reads lines again (`PairsMakeItReadTwice`); and a pass that stops between the two
  characters reads the second as a line of its own (`PairReadInTwoPasses`). Over all runs,
  `ExactlyOnceIff` says when each line is read once. Lines are counted as the loop reads them; a
  blank one read again shows nothing.
- SQLite fixture reader. The rule at `docker/sqlite-init/build-fixture.ts:84` takes any line that
  ends in END and a semicolon for the end of a trigger, also one that ends a CASE expression
  inside its body: the trigger comes back as two statements (`CaseTriggerIsCut`,
  `InnerEndIsNotReadBack`; what is read back, exactly, `FileReadsBackIff`).
- Rich text. Lines are cut at line feeds, and neither the bullet nor the heading pattern reads
  over a carriage return: with CRLF line ends bullets and headings with text are paragraphs
  (`CarriageReturnHidesMarks`), while a lone dash, a paragraph otherwise, is an empty list item
  (`DashBeforeReturn`; what each line is then, exactly, `CarriageReturnIff`).
- Create-table form. Nothing holds the form to one primary key (`TwoKeysAreReachable`): the
  statement declares as many as boxes are ticked (`KeysAreTheTicks`).

## Model

| member | source | states |
|---|---|---|
| EditorEcho.QueryEditor.RunEffect | src/components/QueryEditor.tsx:198-224 | The effect leaves the editor's model, echoes, document and calls to the parent as `Reconciled` says, its own write to the model being reported like any other change |
| EditorEcho.QueryEditor.HandleEditorChange | src/components/QueryEditor.tsx:519-525 | Every change is recorded as an echo and sent up, an absent text as the empty one |
| EditorEcho.SwitchIsAuthoritative | src/components/QueryEditor.tsx:203-209 | On a new document the buffer becomes that document's text and no echo of the old one is left; the text goes up, and is waited for, exactly if the model did not hold it |
| EditorEcho.SameDocumentLandsIff | src/components/QueryEditor.tsx:211-223 | On the same document a value reaches the buffer exactly if it is no outstanding echo, or is there already; one that is no echo goes up and is the only one waited for, and of the echoes the first equal to it and all before it are dropped |
| EditorEcho.BufferIsWhatWasWrittenLast | src/components/QueryEditor.tsx:192-224 | Over every run of typing, skipping renders, effects, fresh outside writes and switches: the buffer is what was written last, and the versions not yet returned are a suffix of the echoes |
| EditorEcho.SentIsWhatWasWritten | src/components/QueryEditor.tsx:192-224 | Over the same runs: what went up, with the foreign text still on its way, is exactly the typed texts, the outside texts and the texts switched to that were not there already, each once and in order |
| EditorEcho.OwnTextsNeverMoveTheBuffer | src/components/QueryEditor.tsx:192-224 | With no outside write and no switch, the editor's own texts coming back late or with some skipped never change the buffer |
| EditorEcho.SettledOutsideWriteLandsIff | src/components/QueryEditor.tsx:211-223 | An outside write into a settled document reaches the buffer exactly if it is no leftover echo or changes nothing |
| EditorEcho.DistinctTypingLeavesNone | src/components/QueryEditor.tsx:192-224 | After typing texts that are all different, with any renders skipped, a settled session has no echo left and every outside write lands |
| EditorEcho.LeftoverIsReachable | src/components/QueryEditor.tsx:211-217 | Typing alone reaches a settled state with a leftover echo |
| EditorEcho.LeftoverEchoSwallowsOutsideWrite | src/components/QueryEditor.tsx:188-217 | There an outside write is taken for an echo and never shown |
| CatalogReads.ConnectionManager.ReadSchema | src/hooks/use-connection-manager.ts:96-100 | A read begins a generation and turns the spinner on |
| CatalogReads.ConnectionManager.FetchSchema | src/hooks/use-connection-manager.ts:194-218 | A deferred connection supersedes, clears list and error and turns the spinner off; any other is read |
| CatalogReads.ConnectionManager.OnMeta | src/hooks/use-connection-manager.ts:109-125 | What the metadata answer does: failure, no kinds to list, or the second request |
| CatalogReads.ConnectionManager.OnInventory | src/hooks/use-connection-manager.ts:127-171 | What the inventory answer does, error, refusal and success alike, each write guarded by the generation |
| CatalogReads.ConnectionManager.LoadObjects | src/hooks/use-connection-manager.ts:227-232 | Loading records the request and reads past the guard |
| CatalogReads.NewestReadDecides | src/hooks/use-connection-manager.ts:96-218 | Over every interleaving: list, error and spinner are what the newest read or deferral makes of them, and no superseded read has any say |
| CatalogReads.FetchReadsIff | src/hooks/use-connection-manager.ts:176-218 | Over every run: a fetch that saw the current request issues a read exactly if the connection's reads are not put off or it is the one asked for last; otherwise nothing is issued and list, error and spinner are cleared |
| CatalogReads.SecondRequestIff | src/hooks/use-connection-manager.ts:109-127 | The inventory is asked for exactly if the metadata came with kinds to list |
| CatalogReads.LoadAlwaysReads | src/hooks/use-connection-manager.ts:227-232 | Loading reads the connection on screen and asks for it by its id |
| CatalogReads.NothingAskedNothingShown | src/hooks/use-connection-manager.ts:96-218 | Before anything was asked for, nothing is shown |
| CatalogReads.LoadReleasesTheConnection | src/hooks/use-connection-manager.ts:189-232 | After a load request, fetching that connection reads instead of deferring |
| SeedMerge.Storage.SaveConnection | src/lib/storage/storage-facade.ts:53-65 | Saving replaces the connection of that id in place, or appends |
| SeedMerge.Storage.MergeManagedConnections | src/hooks/use-connection-manager.ts:267-301 | The merge lists and stores what `Merged` says |
| SeedMerge.Storage.LoadAll | src/hooks/use-all-connections.ts:22-52 | The other hook lists what `AllConnections` says and saves nothing |
| SeedMerge.ServedMergeIsIdempotent | src/hooks/use-connection-manager.ts:267-301 | For seeds as the server sends them, under ids of their own, and any storage the merge has kept: merging again on the storage left behind changes neither list nor storage, and that storage is one the merge keeps |
| SeedMerge.MergeIdempotentIff | src/hooks/use-connection-manager.ts:267-301 | For distinct seed ids under connection ids of any kind, merging again changes nothing exactly if the ids saved under are apart |
| SeedMerge.EachSeedIsListed | src/hooks/use-connection-manager.ts:273-290 | In the order served and without the dismissed: a managed seed as served, every field of it, an editable one as its first stored copy, or as served if there is none; the lighter hook lists each as served |
| SeedMerge.NewSeedIsStored | src/hooks/use-connection-manager.ts:281-288 | A new editable seed is in storage afterwards exactly as served, and nothing else under its seed id |
| SeedMerge.OwnAndTaken | src/hooks/use-all-connections.ts:34-47 | Whose connections count as the user's own, and which ids the lighter hook takes for taken |
| SeedMerge.NeverListsDismissed | src/hooks/use-connection-manager.ts:267-301 | No connection of a dismissed editable seed is listed, not even a stored copy |
| SeedMerge.KeepsOwnConnectionsIff | src/hooks/use-connection-manager.ts:291-300 | After the seeds come the user connections of no served seed, each once and in order, exactly if no id collides |
| SeedMerge.ServedListsKeepOwn | src/hooks/use-all-connections.ts:22-52 | For seeds as the server sends them both hooks keep the user connections of no served seed, each once and in order |
| SeedMerge.HooksAgree | src/hooks/use-all-connections.ts:22-52 | Both hooks list the same seeds, and the same remaining connections when no id collides |
| SeedMerge.SaveKeepsDistinctIds | src/lib/storage/storage-facade.ts:53-65 | Storage never comes to hold two connections of one id |
| SeedPoll.SeedPoller.OnTick | src/hooks/use-connection-manager.ts:345-376 | One tick: a request unless one is in flight |
| SeedPoll.SeedPoller.OnSettled | src/hooks/use-connection-manager.ts:345-376 | What an answer does to list, choice and timer |
| SeedPoll.BudgetHolds | src/hooks/use-connection-manager.ts:333-376 | At most thirty requests over every run, never two at once |
| SeedPoll.StopsExactlyWhen | src/hooks/use-connection-manager.ts:333-376 | The poll has stopped exactly if it was cleaned up, an answer ended the wait, or the budget is used up and settled |
| SeedPoll.EndsTheWaitIff | src/hooks/use-connection-manager.ts:333-372 | The wait ends with an answer that came through and lists nothing pending that is not dismissed, and the timer is only set while something is |
| SeedPoll.AnswersAreShown | src/hooks/use-connection-manager.ts:355-362 | Over every run the list is that of the last answer with one, and the active connection the one there was or the first ever listed |
| SeedPoll.StoppedStays | src/hooks/use-connection-manager.ts:333-376 | A stopped poll sends nothing more |
| SeedPoll.CancelledWritesNothing | src/hooks/use-connection-manager.ts:345-376 | After cleanup no answer reaches the list or the choice |
| SeedPoll.ChoiceSurvives | src/hooks/use-connection-manager.ts:345-376 | The poll never takes a chosen connection away |
| Pivot.GroupRows | src/components/PivotTable.tsx:79-98 | Grouping fills the nested maps with exactly the values of each pair of keys, in order |
| Pivot.ComputePivot | src/components/PivotTable.tsx:79-116 | The pivot's rows and columns are the distinct keys in collation order, its cells the aggregates |
| Pivot.GenerateSQL | src/components/PivotTable.tsx:142-173 | The query has the select items, grouping and ordering of the generated text |
| Pivot.PivotMeansItsQuery | src/components/PivotTable.tsx:79-173 | Any answer to the generated query is the client's pivot, row by row and cell by cell, for every aggregate |
| Pivot.PivotAddsUp | src/components/PivotTable.tsx:79-116 | The counts, or sums, over all cells add up to the count, or sum, over all rows |
| Pivot.TotalIsTheSum | src/components/PivotTable.tsx:35-44 | A total is the sum of the numbers, on either side |
| Pivot.EachRowIsInOneCell | src/components/PivotTable.tsx:83-98 | Each row puts its value, or a one, into the cell of its two keys, an absent key reading NULL, and into no other |
| Pivot.PlainItemIsNamed | src/components/PivotTable.tsx:166-169 | Without a column field the one aggregate is named after its function |
| Pivot.CellAgreesIff | src/components/PivotTable.tsx:35-50 | With NULLs among the values, exactly when a cell of the query reads as the client's |
| Pivot.TableCellAgreesIff | src/components/PivotTable.tsx:35-173 | The same for a cell of the table, with the settings SQL accepts |
| Pivot.NoColumnLostIff | src/components/PivotTable.tsx:142-173 | The query has a column for every column key exactly if `__all__` is none |
| Pivot.ListingIsUnique | src/components/PivotTable.tsx:100-104 | A set of keys has one sorted listing under a collation |
| Pivot.ArgumentIsBucket | src/components/PivotTable.tsx:142-173 | What a CASE item aggregates is the bucket without its NULLs |
| SqlText.LiteralReadsBack | src/lib/sql/values.ts:100-108 | For each of the three escape styles a quoted literal reads back as its value and ends where it should |
| CsvReader.ParseLine | src/components/DataImportModal.tsx:55-91 | The character loop splits a line as `Fields` says |
| CsvReader.ReadingTrims | src/components/DataImportModal.tsx:55-91 | On every written table without line feeds in cells, the reader gives the table with each cell trimmed, for each delimiter and line break |
| CsvReader.ReadsBackIff | src/components/DataImportModal.tsx:55-91 | The reader undoes the quoting writer of section 2 of RFC 4180 exactly on cells without line feed and outer white space |
| CsvReader.BreaksAddLines | src/components/DataImportModal.tsx:55-91 | A line feed in a cell always makes more records |
| CsvReader.EitherSpellingReads | src/components/DataImportModal.tsx:57-86 | A line in which each cell is quoted, or holds no quote and no delimiter, is read as its cells, trimmed, under comma, semicolon or tab |
| CsvReader.ColumnsAreNumbered | src/components/DataImportModal.tsx:88-91 | Without a header row the columns are column_1 and on, as many as the first row has cells |
| ImportSql.GenerateImportSQL | src/components/DataImportModal.tsx:179-242 | The generated text is `ImportText`, nothing without data or target |
| ImportSql.Inserts | src/components/DataImportModal.tsx:210-239 | The batching loop prints each batch once and in order |
| ImportSql.ImportReadsBack | src/components/DataImportModal.tsx:179-242 | Read back under the dialect's quoting, the text is exactly the matrix of the cells' meanings, in order and in its batches, whatever the rows past the sample hold |
| ImportSql.ImportGoesToItsTarget | src/components/DataImportModal.tsx:174-242 | In terms of the inputs alone: a new table's definition comes first, with each column under the name its header goes to and its type, and every other statement inserts into the object chosen, or the table named, under those columns |
| ImportSql.TypesAreNarrowest | src/components/DataImportModal.tsx:117-135 | A column's type is had by every cell of its first hundred rows that is not empty, no narrower one is, and with no such cell it is text |
| ImportSql.ColumnsReadBackIff | src/components/DataImportModal.tsx:215-239 | Read back, the column list names the same columns exactly if no name holds a comma and a blank, and else more |
| ImportSql.NumeralsIff | src/components/DataImportModal.tsx:113-115 | What may stand without quotes is exactly a decimal numeral, and an integer one without a point |
| ImportSql.MeaningKeepsTheCell | src/components/DataImportModal.tsx:113-148 | A cell means nothing exactly if empty, NULL or null, a number or a truth value exactly if its column's type and its shape both say so, and nothing of any other is lost |
| ImportSql.BatchesAre | src/components/DataImportModal.tsx:210-239 | The rows split into ceil(n/100) batches of at most 100, none empty |
| ImportSql.CellReadsBack | src/components/DataImportModal.tsx:117-148 | Each printed cell reads back as what it means and no further |
| DiagramLayout.SchemaDiagram.LayoutEffect | src/components/SchemaDiagram.tsx:222-264 | The effect compares signatures, starts a run and leaves its cleanup |
| DiagramLayout.SchemaDiagram.OnSettled | src/components/SchemaDiagram.tsx:240-258 | A settling run writes signature, positions and nodes unless cancelled |
| DiagramLayout.SpinnerMeansOneRun | src/components/SchemaDiagram.tsx:173-264 | Whenever no effect is due the spinner shows exactly if one uncancelled run for the structure on screen is in flight; ref and state agree always |
| DiagramLayout.CancelledNeverWrites | src/components/SchemaDiagram.tsx:222-264 | A cancelled run writes neither nodes nor positions |
| DiagramLayout.CompletedIsNotLaidOutAgain | src/components/SchemaDiagram.tsx:222-264 | No cosmetic rebuild lays a completed structure out again |
| DiagramLayout.RebuildKeepsPlaces | src/components/SchemaDiagram.tsx:109-112 | A rebuilt node is drawn where the user or the layout last put it |
| DiagramLayout.LandedWhereLaidOut | src/components/SchemaDiagram.tsx:240-258 | When a run lands, each card of its graph is drawn and remembered where the layout put it |
| DiagramLayout.CardsStandWherePut | src/components/SchemaDiagram.tsx:109-264 | Over every run each drawn card stands, and is remembered, where the last drag or landed result put it, read off the events; an unplaced one where the graph drawn last has it |
| DiagramLayout.DrawnIsTheGraphIff | src/components/SchemaDiagram.tsx:173-264 | Over every run the cards drawn are those of the graph on screen exactly if the graph drawn last, by a rebuild or by a landing run, has those cards |
| DiagramLayout.RebuiltIsDrawnIff | src/components/SchemaDiagram.tsx:173-264 | From one rebuild to the next the rebuilt cards are drawn exactly if the last run to draw overtook no effect, or was started on the same cards |
| DiagramLayout.OvertakenRenderIsLost | src/components/SchemaDiagram.tsx:222-264 | A layout landing between a render and its effect draws older cards for good |
| SourceTabs.Studio.OnSourceChange | src/components/Studio.tsx:223-233 | A patch reaches the tab it was bound to, if that is a Source tab, and no other |
| SourceTabs.Studio.HandleApplied | src/components/Studio.tsx:287-291 | An apply moves the counter and clears the applying tab's definition in one step |
| SourceTabs.Studio.HandleAddTab | src/components/Studio.tsx:386-392 | No tab is added while an apply is in flight |
| SourceTabs.Studio.OnTableClick | src/components/Studio.tsx:762-768 | No table is opened while an apply is in flight |
| SourceTabs.Studio.OnLoadStatement | src/components/Studio.tsx:877-880 | A statement from outside the editor pane is dropped while a Source tab is in front |
| SourceTabs.StatementLandsIff | src/components/Studio.tsx:877-880 | Over every run a statement lands on the tab in front exactly if that is no Source tab, and on no other |
| SourceTabs.NewTabOpensIff | src/components/Studio.tsx:386-392 | A new tab, with its statement, comes to the front exactly if no apply is in flight |
| SourceTabs.SourceOpensOnce | src/hooks/use-tab-manager.ts:411-465 | Opening an object's source brings its one tab to the front, a new one, still to be read, if there is none |
| SourceTabs.ClosingKeepsTheRest | src/hooks/use-tab-manager.ts:290-312 | Closing takes one tab out and keeps the rest in order, and never the last |
| SourceTabs.ReadAgainAsksAnew | src/components/object-source/ObjectSourceView.tsx:716-720 | Asking to read again clears the tab in front, which then needs a read, and no other |
| SourceTabs.ApplyStaysWithItsTab | src/components/Studio.tsx:287-300 | Until it answers an apply stays with the tab it was confirmed on, whichever comes to the front |
| SourceTabs.SourceTabsStayClean | src/components/Studio.tsx:877-900 | Over every run no tab holds a read from ahead of the counter, and no entry point puts a statement on a Source tab |
| SourceTabs.ApplyLeavesOthersStale | src/components/Studio.tsx:287-291 | After an apply every other loaded Source tab is stale, reads still in flight included |
| SourceTabs.StaleUntilReadAgain | src/components/object-source/ObjectSourceView.tsx:716-720 | And stays stale until a read issued later lands on it |
| SourceTabs.LandsFreshIff | src/components/object-source/ObjectSourceView.tsx:618-720 | A read leaves its tab fresh exactly if no statement changed the catalog and no apply succeeded between its issue and its landing |
| SourceTabs.ApplierReadsFresh | src/components/Studio.tsx:287-291 | The applying tab's next read is fresh exactly if nothing changes while it is out |
| DialogPrimary.DialogStore.SetSharedOpen | src/components/ShortcutsDialog.tsx:20-27 | Setting the flag tells every listener, and nobody when nothing changes |
| DialogPrimary.DialogStore.SubscribePrimary | src/components/ShortcutsDialog.tsx:52-57 | Mounting makes the first instance the primary |
| DialogPrimary.DialogStore.Unsubscribe | src/components/ShortcutsDialog.tsx:58-72 | Unmounting hands the primary on in order of mounting, closes the dialog with the last, and tells the rest |
| DialogPrimary.ExactlyOneRenders | src/components/ShortcutsDialog.tsx:20-73 | After every run exactly one instance renders the dialog if any is mounted, every view agrees, and the flag is false when none is |
| DialogPrimary.UnmountKeepsMountingOrder | src/components/ShortcutsDialog.tsx:58-72 | Unmounting takes one instance out and leaves the rest in mounting order |
| Launcher.Cache.Download | bin/studio.js:120-188 | The retry loop, for either destination: at most three attempts, none after a definitive answer, something new at the destination only if one completed, and nothing but the steps of `Step` on the way |
| Launcher.Cache.Extract | bin/studio.js:206-217 | Unpacking goes by the steps of `Step`: the archive's payload in place of the old one with its data kept, or, if tar fails, the old payload untouched |
| Launcher.PayloadIsVerified | bin/studio.js:120-253 | Over every run of crashes and reruns, the release payload was unpacked whole from a completed transfer whose hash is its SHA256SUMS entry, and a file at either download destination is a completed transfer |
| Launcher.ServesWhatWasAsked | bin/studio.js:353-394 | Over every run, with the last start read off the events: the local payload is served, or replaced, only under an archive whose pinned digest, if any, is its own, and then it comes from that archive; the release payload only if neither was given; nothing without a server in it |
| Launcher.WrongDigestIsRefused | bin/studio.js:362-376 | A wrong digest, or one without an archive, ends in refusal with the disk as it was |
| Launcher.LocalRunIff | bin/studio.js:353-372 | An undisturbed run with an archive serves it in place of any other exactly if no digest is pinned or its own is |
| Launcher.CheckingIff | bin/studio.js:232-252 | The cached archive is unpacked exactly if it is verified and its provenance not rejected, and removed exactly on a mismatch |
| Launcher.FromChecking | bin/studio.js:236-252 | A verified archive is unpacked and served; any other is deleted and refused |
| Launcher.MismatchDownloadsAgain | bin/studio.js:241-247 | After a mismatch no archive is left and the next run downloads |
| Launcher.RunPrepares | bin/studio.js:373-388 | From any disk, what one undisturbed run ends in |
| Launcher.RecoversInTwoRuns | bin/studio.js:206-388 | Wherever a run was cut off, two undisturbed runs, each with or without --verify-cache, serve a verified payload; one is enough exactly if it may serve the payload it finds or the cached archive is right |
| Launcher.NoStepLosesData | bin/lib/launcher-utils.mjs:186-192 | No step of a swap loses the server's data |
| Launcher.CrashKeepsDataIff | bin/lib/launcher-utils.mjs:186-192 | After a crash a next undisturbed run, with or without --verify-cache, serves the data exactly if the payload directory held it |
| Launcher.DataLostBetweenTheRenames | bin/lib/launcher-utils.mjs:186-192 | The window between the renames is reachable, and what an ordinary and a preparing rerun then serve |
| TraceTail.Follower.ReadPass | loop/scripts/trace.py:181-214 | One pass: seek, process each complete line, add its encoded length |
| TraceTail.ExactlyOnceIff | loop/scripts/trace.py:181-214 | Over every interleaving of appends and passes of any text: at every moment the lines read and the lines ahead are together the complete lines of the file, exactly if no pass took a line ended by both characters and no pass stopped between the two |
| TraceTail.ExactlyOnce | loop/scripts/trace.py:181-214 | With line feeds alone that is so for every run: each complete line is read once and in order, and the offset is a line boundary |
| TraceTail.OffsetExactIff | loop/scripts/trace.py:195-203 | What a pass adds to the offset falls short of what it took by one byte for each line ending of two characters |
| TraceTail.ByteLenIsUtf8 | loop/scripts/trace.py:202 | The bytes a line is counted for are those of its UTF-8 encoding, section 3 of RFC 3629 |
| TraceTail.PairReadInTwoPasses | loop/scripts/trace.py:181-214 | A pass between the two characters makes a second line of them |
| TraceTail.PairsMakeItReadTwice | loop/scripts/trace.py:181-214 | After three lines ended by both characters the next pass reads the last one again |
| FixtureSplitter.ReadSqliteFixture | docker/sqlite-init/build-fixture.ts:66-94 | The loop with the trigger rule gives the statements, or an error when there is none |
| FixtureSplitter.ReadDuckdbFixture | docker/duckdb-init/build-fixture.ts:87-108 | The loop without it |
| FixtureSplitter.ReadersAgreeIff | docker/duckdb-init/build-fixture.ts:87-108 | The two loops agree on a file exactly if no statement, as the simpler one cuts it, is a trigger whose body goes on |
| FixtureSplitter.FileReadsBackIff | docker/sqlite-init/build-fixture.ts:66-94 | For any statements without outer white space, printed between comments and blank lines, reading the file gives the list exactly if each is well-formed for the reader |
| FixtureSplitter.ReadIsWellFormed | docker/sqlite-init/build-fixture.ts:66-94 | From any lines whatever, only well-formed statements are read |
| FixtureSplitter.TriggerIsWellFormed | docker/sqlite-init/build-fixture.ts:82-87 | A trigger headed CREATE TRIGGER, TEMP or TEMPORARY in any case, with semicolons inside its body and END last, is well-formed, and not for the reader without the rule |
| FixtureSplitter.EndIsAWord | docker/sqlite-init/build-fixture.ts:84 | END counts only as a word of its own |
| FixtureSplitter.CommentAt | docker/sqlite-init/build-fixture.ts:73 | A comment is a line whose first two characters behind white space are dashes |
| FixtureSplitter.OnlyGapsIsAnError | docker/sqlite-init/build-fixture.ts:91-93 | A file of comments and blank lines is an error, and no file gives an empty list |
| FixtureSplitter.InnerEndIsNotReadBack | docker/sqlite-init/build-fixture.ts:82-87 | A statement with END before a semicolon at the end of an inner line is never read back |
| FixtureSplitter.CaseTriggerIsCut | docker/sqlite-init/build-fixture.ts:82-87 | A trigger whose body holds a CASE expression comes back as two statements |
| RichText.RenderInline | src/components/rich-text.tsx:18-54 | The matching loop gives the nodes of `Inline` |
| RichText.InlineIff | src/components/rich-text.tsx:18-54 | On every string the nodes print back to it, and they are the only nodes that do with no opening mark left as text and none closed late |
| RichText.RenderProse | src/components/rich-text.tsx:184-284 | The line loop gives the blocks of the text's pieces, each longest run of bullets one list |
| RichText.PiecesIff | src/components/rich-text.tsx:227-243 | Every line is in exactly one piece and in order, and there is one way to take lines for fences and prose |
| RichText.BulletIff | src/components/rich-text.tsx:59-60 | A line is a list item showing a text exactly if it is white space, a dash or asterisk, white space and that text |
| RichText.HeadingIff | src/components/rich-text.tsx:56-57 | A line is a heading exactly if it is white space, one to six hash marks, white space and its title |
| RichText.FenceIff | src/components/rich-text.tsx:72 | A line is a fence exactly if it is white space, three backticks and an info string without one |
| RichText.TagIs | src/components/rich-text.tsx:222-225 | A fence's tag is its info string trimmed and in lower case, none if blank |
| RichText.BlocksSayThePieces | src/components/rich-text.tsx:184-284 | What the blocks show, printed back, is what the pieces say, once and in order; only blank lines, empty headings, and blank or carded fences are left out |
| RichText.FencesAreVerbatim | src/components/rich-text.tsx:212-226 | A fence's code splits back into the lines it held |
| RichText.NothingShownIff | src/components/rich-text.tsx:249-276 | A line that is no bullet shows nothing exactly if it is blank or an empty heading |
| RichText.CarriageReturnIff | src/components/rich-text.tsx:56-60 | What every line is when a carriage return follows it: an empty list item exactly if a bare list mark, nothing exactly if blank or bare hash marks, else a paragraph |
| RichText.DashBeforeReturn | src/components/rich-text.tsx:56-60 | A lone dash is a paragraph, and with a carriage return an empty list item |
| RichText.CarriageReturnHidesMarks | src/components/rich-text.tsx:56-60 | A bullet or heading with text followed by a carriage return is a paragraph |
| ChartData.ComputeHistogramBins | src/components/DataCharts.tsx:317-338 | The bins, counted in place, tile the values' range and count the values each holds; one bin when all are equal |
| ChartData.IndexHolds | src/components/DataCharts.tsx:332-336 | The index computed by division is that of the one bin that holds the value |
| ChartData.BinsTileAndCount | src/components/DataCharts.tsx:317-338 | The bins lie side by side from least to greatest, each value is in exactly one, and the counts add up to the number of values |
| ChartData.AggregateData | src/components/DataCharts.tsx:341-383 | Rows unchanged without aggregation, else one result a key in order of appearance, each field by its last metric |
| ChartData.AverageIsBetween | src/components/DataCharts.tsx:359-373 | Least <= average <= greatest in every group |
| ChartData.AggregateGrows | src/components/DataCharts.tsx:359-379 | What each of the six aggregations gives for one value, and what one value more makes of it |
| ChartData.CellAdds | src/components/DataCharts.tsx:360 | A cell adds its number, and a missing or unreadable one nothing |
| ChartData.KeyReads | src/components/DataCharts.tsx:350-354 | A row's key is its text, a date's unit if dates are grouped, and empty where the field is missing |
| ChartData.SameKeyIff | src/components/DataCharts.tsx:385-407 | Two dates fall into one group exactly if they lie in the same year, month, week, day or hour |
| ChartData.ResultsAddUp | src/components/DataCharts.tsx:341-383 | A summed or counted field adds up over the results to the total over all rows |
| ChartData.FineAddsUp | src/components/DataCharts.tsx:350-358 | For any coarser key, the sums of the finer groups in it add up to its own |
| ChartData.CoarseIsSumOfFine | src/components/DataCharts.tsx:385-407 | Each year's sum or count is what its months add up to, and likewise for hours, days and months |
| CreateTableForm.CreateTableModal.Render | src/components/CreateTableModal.tsx:286-290 | Another engine starts the columns over |
| CreateTableForm.CreateTableModal.TogglePrimary | src/components/CreateTableModal.tsx:484-498 | Ticking the key forbids null; unticking takes a self-numbering column to the engine's plain key type |
| CreateTableForm.CreateTableModal.GenerateSQL | src/components/CreateTableModal.tsx:317-368 | The text printed by the loop is that of the script's statements in order |
| CreateTableForm.CreateTableModal.HandleCreate | src/components/CreateTableModal.tsx:370-389 | Statements are handed over exactly when every name is there, and the form starts again |
| CreateTableForm.TypesAreOffered | src/components/CreateTableModal.tsx:255-315 | In every reachable form a column is left and every column's type is one its dropdown lists |
| CreateTableForm.NoForeignTypes | src/components/CreateTableModal.tsx:119-246 | No reachable form holds a type its engine does not have |
| CreateTableForm.UntouchedFormPrints | src/components/CreateTableModal.tsx:119-274 | For each engine, what an untouched form prints: one self-numbering key in its own words, DuckDB's sequence first, and a plain column for Trino |
| CreateTableForm.EditsReachTheirColumn | src/components/CreateTableModal.tsx:313-315 | Every input reaches its own column's field and nothing else |
| CreateTableForm.TickingTheKey | src/components/CreateTableModal.tsx:484-498 | What ticking and unticking the key does to null and type, and that nothing else moves |
| CreateTableForm.RowsComeAndGo | src/components/CreateTableModal.tsx:292-311 | A row added is unnamed, nullable and of the engine's first type; removing takes one out, never the last |
| CreateTableForm.NamesAreKept | src/components/CreateTableModal.tsx:452 | A name keeps letters in lower case, digits and underscores, and has an underscore for all else |
| CreateTableForm.CreatesIff | src/components/CreateTableModal.tsx:370-389 | In every reachable form there is something to hand over exactly if nothing is without a name |
| CreateTableForm.SqlSaysTheForm | src/components/CreateTableModal.tsx:325-364 | In every reachable form each column's printed definition reads back as what the form shows: type, key, null, unique; the sentinel is never a type |
| CreateTableForm.SequencesComeFirst | src/components/CreateTableModal.tsx:320-368 | Every sequence a table defaults from is created before the table, whatever the database has |
| CreateTableForm.TrinoHasNoKeys | src/components/CreateTableModal.tsx:236-252 | For Trino no reachable form prints PRIMARY KEY or UNIQUE anywhere |
| CreateTableForm.KeysAreTheTicks | src/components/CreateTableModal.tsx:325-364 | The statement declares as many keys as boxes are ticked |
| CreateTableForm.TwoKeysAreReachable | src/components/CreateTableModal.tsx:484-498 | Two clicks reach a form whose statement declares two primary keys |

## Left out

- Query editor: the time before the editor is mounted, a host without a change handler, and the editor library's normalisation of line ends.
- EditorEcho.BufferIsWhatWasWrittenLast: outside writes racing with typing are left out, because the protocol can oscillate there; a write is one at a time and, in a document, fresh.
- Catalog reads: toasts, the log line about a truncated inventory, and the schema set by other callers.
- Seed poll: the first request before the poll, whose answer arrives as a parameter, and the clock, which is a tick event.
- SeedPoll.SeedPoller.OnSettled: the list of served seeds it also records, and the seed copies the merge saves, are no part of this state; the merge is `SeedMerge`.
- SeedPoll.CancelledWritesNothing: speaks of the list, the choice and the timer; an answer that comes after cleanup still runs the merge, which saves seed copies to storage before the cancellation is looked at.
- Pivot.GenerateSQL: the query is a tree that is evaluated, not a text; the quoting of identifiers and the formatting of numbers are not modelled.
- Pivot.PivotMeansItsQuery: collation is any total order, the same one for the client and the database.
- Import: the layout of the CREATE TABLE text beyond its place, mappings that name a prototype property, and JSON input.
- CsvReader.ReadsBackIff: the writer quotes every field; for one that quotes only some, `EitherSpellingReads` speaks of a line, and a line whose cells are all blank may be dropped.
- Schema diagram: highlighting, selection and adjacency, which are look-ups; the layout engine's positions are any.
- Studio: undo of a closed tab, persistence and restoration of tabs, and the viewer's own guard against asking twice, so more reads are possible here than there.
- Launcher: two launchers at once, a recursive removal cut off half way, time-outs, and what the provenance check finds, which is any answer. Hashing is any function.
- Trace follower: changing to another transcript, which resets the offset, invalid UTF-8, what is decoded at an offset inside a character, which only a run that has gone wrong can reach, and the rendering of events.
- TraceTail.Follower.ReadPass: its lines are those the loop goes round for; that a blank line or one that is no entry shows nothing is not modelled.
- Fixture builders: the database calls.
- FixtureSplitter.ReadDuckdbFixture: the substitution of the warehouse placeholder afterwards, and its two errors.
- Rich text: keys, styling and the apply control. A tag's case is folded for ASCII letters only.
- ChartData.ComputeHistogramBins: the printed range of a bin is left out, its edges are not.
- Charts: rounding, infinite numbers, and the parsing of dates and time zones; a date's local reading is given. `analyzeField` and `formatNumber` are look-ups and formatting.
- ChartData.CoarseIsSumOfFine: on rows in which a text that is no date reads like the key of a date, the two share a group and nothing is claimed; weeks fit into no month or year.
- Create-table form: lower-casing of letters outside ASCII that become ASCII letters, the submit button's own disabling, and default values, which no control sets.
- Diff, masking, dangerous-query detection, code generation, snapshots, the visual plan and the proxy: decision tables and folds that would add easy members.
