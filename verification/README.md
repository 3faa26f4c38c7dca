# Verified model of ZPan's migration, merging, parsing and caching cores

A Dafny 4.11 project that models seven parts of the repository and proves properties of them, for every input, every
run or every reachable state. `dafny verify dfyconfig.toml` checks all files.

## What is modelled

**Id normalization and its plan** (`scripts/normalize-ids.ts`). Tables are sequences of rows (finite maps from column to
cell), JSON cells carry their text and their document. `IdRegistry` is the inventory of governed columns; `IdValues`,
`JsonReferences`, `IdTables` and `IdMigration` say what each pass does; `IdCollection` collects values and draws new ones;
`LocalDatabase` is the transaction as a class that updates its tables. `D1Plan` is the statement list with an
interpreter in which a failed assertion aborts. `D1Progress` says where an interrupted replay can be: cell by cell at its
original, prepared or goal value, in an order that keeps the preparing updates and the deletions repeatable. `D1Replay`,
`D1Deletions` and `D1Refinement` prove that every statement makes progress from every such state, and from that both
refinement and safe retries. `JsonAssertions` and `D1FinalChecks` compare the plan's queries over documents with the local
scan, and `D1Retries` says when retries agree. `IdIsomorphism` and `IdValidation` say what renaming preserves and what
validation finds. `LocalImage` writes the outcome as an image of the tables before the run, `LocalReferences` turns every
query over references into a condition on those tables, and `LocalSuccess` says when the local run succeeds.
`JsonLeaves` and `IdEmbedding` describe what becomes of every embedded reference, and `LocalRows` and `LocalTokens` the whole
outcome, without the passes that compute it. `D1Safety` says what a completed plan guarantees on any copy, and
`RegistrySoundness` what the queries demand that validation and the plan share. `LocalExamples` has databases for which the
conditions of the main results fail.

**OpenAPI component import** (`server/http/better-auth-openapi.ts`): `OpenApiValues`, `OpenApiImport`,
`OpenApiOperations`, `OpenApiMerge`. Values are finite trees; the depth-first import is a class whose set of imported
roots grows towards the finite set of all roots, which is its termination measure; the merge is a class that commits only
at its end.

**WebDAV XML** (`server/domain/webdav-xml.ts`): `XmlText`, `XmlParser`, `XmlProperties`. The parser works on the matches of
the tag expression with their positions.

**Worker app cache** (`workers/bootstrap.ts`): `WorkerCache`. Promises are indices into the list of all initializations
ever begun; a step is what happens between one await and the next; the class methods are those steps.

**SQL splitter** (`scripts/backfill-admin-stats.ts`): `SqlSplitter`. **URL hosts** (`shared/url-safety.ts`): `UrlSafety`,
and `UrlHosts` for which hosts are blocked.
**API key permissions** (`shared/api-key-templates.ts`, `scripts/backfill-api-key-scopes.ts`, `shared/authorization.ts`):
`ApiKeyPermissions`, and `ApiKeyScopes` for the order, the legacy table and the change test.

## What the proofs found

- A task id with a colon inside an `initial:` event id is mapped as a whole but rewritten segment by segment, so the JSON
  scan of validation rejects the outcome; without one it never does (`CollectAfterRewrite`, both directions).
- The dangling count is not always preserved: it grows by the empty live references of a kind whose empty value was
  collected elsewhere (`DanglingReferencesAreKept`, the exact difference).
- The stale count of structured keys is zero because organization and storage ids, the only ones that can take the place
  of an opening word, are drawn with 22 characters; with short ones it need not be (`ShortIdsCanLeaveStaleKeys`). Image
  ids have 13.
- `addMappings` compares new values with the map only. For kinds that are not rotated the alphabet suffices; for rotated
  kinds the draws must avoid the live values, which is a hypothesis here (`GoodDraws`).
- The plan of a validated local run can abort: its query for opening event ids ignores letter case, the local scan does
  not. It executes exactly if the event ids in another spelling name existing tasks
  (`PlanExecutesIffOddEventIdsAreSound`; `CapitalizedEventIdAborts` is a database where they do not).
- Retries can end with other data than a single run: an owner that itself reads like an API key is resolved again. They
  agree exactly if no such owner leads to another user (`RetriesOfANormalizedDatabaseAgree`; `ChainedOwnersMakeRetriesDisagree`
  is a database where one does); a single run needs no such condition.
- Of what validation demands, most holds by construction; `NormalizationSucceedsExactlyIf` says, of the tables before the
  run, what can still fail. An empty live reference always does (`EmptyReferenceIsRejected`). An empty reference of a
  notification, which validation allows, fails only where a historical column brings the empty value into the map
  (`MappedEmptyReferenceFailsValidation`).
- An upload creator that spells `downloader:` in another letter case is not rewritten, but the query that it resolves
  ignores case: it passes only if it names a downloader by its new id already (`CreatorStands`).
- A literal is too large for a chunk depending on its position: every fragment but the first of a chunk counts two bytes
  for its separator before it is compared with the budget (`TooLarge`).
- An initialization that timed out and whose creating request never resumes keeps its slot
  (`LostRegistrationHoldsItsSlot`).
- Registering an operation on an existing path can add the parameters of its source path to that path item, beside the
  operations that were there (`PathsOnlyGrow`).

## Model

| member | source | states |
|---|---|---|
| `LocalDatabase.NormalizedDatabaseHasAFaithfulPlan` | scripts/normalize-ids.ts:1493-1669 | end to end: for every database and every successful local run whose oddly spelled event ids are sound, the plan executed on an untouched copy with empty control tables succeeds and yields the rows of the local run (JSON compared as documents), its map and its markers |
| `LocalDatabase.PlanExecutesIffOddEventIdsAreSound` | scripts/normalize-ids.ts:1733-1775 | the plan of a successful run executes on such a copy if and only if every event id that opens with initial: in another letter case names an existing task: the local scan compares case, the plan's LIKE does not |
| `LocalDatabase.RetriesOfANormalizedDatabaseAgree` | scripts/normalize-ids.ts:1443-1447 | end to end: for all lists of cut points, interrupted attempts followed by a complete one leave the application data of a single run, if and only if no resolved creator would be resolved again to another user |
| `LocalSuccess.NormalizationSucceedsExactlyIf` | scripts/normalize-ids.ts:1221-1320 | end to end: once the map is built, the validation that decides whether the transaction commits succeeds if and only if, in the tables before the run and among the rows it does not delete: no empty token is left unmapped, no opening event id carries a task id with a colon, live references, references in documents and foreign keys meet a primary value or parent (or one the map confuses with it), notification references do so unless they are empty and stay so, and upload creators name a user or a downloader; row counts, stale counts, all other formats and the JSON scan are in order by construction |
| `LocalSuccess.ValidatesExactlyIf` | scripts/normalize-ids.ts:1221-1320 | the same for any job whose map covers what was collected: the condition is on schema, map and prepared tables, validation on the outcome |
| `LocalSuccess.EmptyReferenceIsRejected` | scripts/normalize-ids.ts:1239-1259 | a live reference that is empty makes validation fail, mapped or not, in every database in which the empty value is no primary value and the draws are fresh |
| `LocalSuccess.FreshReferencesStandExactlyIf` | scripts/normalize-ids.ts:1071-1095 | with fresh draws a live reference passes both its queries if and only if every value in a remaining row is a primary value before the run |
| `LocalImage.OutcomeIsImage` | scripts/normalize-ids.ts:1355-1388 | the outcome is, cell by cell, one function of the prepared cell and its type: deleting rows and the passes over direct, embedded and credential columns commute |
| `LocalReferences.LiveReferenceExactlyIf` | scripts/normalize-ids.ts:1071-1095 | format and resolution of a live reference in the outcome, as a condition on the values it holds before the run |
| `LocalReferences.NotificationsExactlyIf` | scripts/normalize-ids.ts:1114-1140 | typed notification references resolve in the outcome if and only if before the run each is empty with the empty value unmapped, or names a primary value of its type |
| `LocalReferences.CreatorsExactlyIf` | scripts/normalize-ids.ts:1203-1219 | both queries on upload creators, before the run: a downloader in the exact spelling exists and has no colon in its id, one in another spelling must be a new id already, anyone else is a user |
| `LocalReferences.DocumentExactlyIf` | scripts/normalize-ids.ts:1154-1178 | a rewritten document resolves in the outcome if and only if every reference in the stored one names a primary value, at any depth and with keys handed down through arrays |
| `LocalReferences.KeyOfOneKindStandsExactlyIf` | scripts/normalize-ids.ts:1222-1223 | a foreign key between columns of one kind holds after the run if and only if every remaining child row has a parent before it, or one the map confuses with it |
| `LocalExamples.CapitalizedEventIdAborts` | scripts/normalize-ids.ts:1761-1773 | a concrete database, normalized successfully, whose plan aborts on every untouched copy: its event id is capitalized |
| `LocalExamples.ChainedOwnersMakeRetriesDisagree` | scripts/normalize-ids.ts:1525-1536 | a concrete database, normalized successfully, whose plan can be built whenever its one map row fits a statement, and for which some interrupted attempts end with other data than a single run: two chained keys |
| `LocalExamples.MappedEmptyReferenceFailsValidation` | scripts/normalize-ids.ts:1114-1140 | a notification with an empty team passes its queries before the run; alone its run validates, but beside a historical row with an empty organization the empty value is mapped, the reference with it, and validation fails |
| `LocalSuccess.PrimaryFormatExactlyIf` | scripts/normalize-ids.ts:1239-1259 | every primary column of every kind passes its format query if and only if no empty token remains unmapped |
| `LocalSuccess.TypedFormatHolds` | scripts/normalize-ids.ts:1275-1291 | after the run every polymorphic column passes its format query, whatever type each row names |
| `D1Retries.RetriesAgreeIffOwnersAreFinal` | scripts/normalize-ids.ts:1525-1536 | the same for any well-formed outcome: sufficiency over all cut lists, and for every failing creator one cut, right after the resolving update, whose retry ends with the new id of the wrong user |
| `D1Retries.ChainedOwnersAreNotFinal` | scripts/normalize-ids.ts:1525-1536 | the condition can fail: two keys, the first owned by a user whose id reads like the second, under every new id for that user |
| `D1Retries.RestOfPlanRenamesCreators` | scripts/normalize-ids.ts:1544-1669 | whatever owner a creator holds before the direct updates, the rest of the plan turns it into that owner's new id |
| `D1FinalChecks.PlanExecutesExactlyIf` | scripts/normalize-ids.ts:1686-1773 | a plan with further closing queries executes if and only if they hold of the local outcome; otherwise it aborts before its markers |
| `D1Safety.CompletedPlanIsChecked` | scripts/normalize-ids.ts:1438-1800 | on any copy whatever, also one that has diverged: a plan that runs to its end has copied the whole map, left no creator that names a key, no old value in a renamed column and no working downloader, and found the row counts of the local database and every validation |
| `RegistrySoundness.CompletedCopyIsSound` | scripts/normalize-ids.ts:1438-1800 | on any copy whatever, a plan that runs to its end leaves tables in which every governed column has its format, every live, typed and structured reference and every foreign key finds its target |
| `RegistrySoundness.RegistryQueriesExactly` | scripts/normalize-ids.ts:1221-1311 | the queries that validation and the plan share hold exactly if the tables are sound in that sense, column by column, with the sentinels and exceptions of the source |
| `RegistrySoundness.ValidatedTablesAreSound` | scripts/normalize-ids.ts:1221-1311 | a local run that validates leaves sound tables in that sense |
| `D1FinalChecks.DocumentQueriesHold` | scripts/normalize-ids.ts:1733-1775 | after the local validation, all json-valid, json-format and json-reference queries hold if and only if the oddly spelled event ids are sound |
| `JsonAssertions.CleanTreePasses` | scripts/normalize-ids.ts:1741-1760 | whatever the local walk accepts, which hands keys down through nested arrays, the json_tree query with its parent key accepts |
| `JsonAssertions.EventIdQueries` | scripts/normalize-ids.ts:1761-1773 | on a document the scan accepts, the two event id queries see exactly the odd spellings beyond it |
| `JsonAssertions.ReferenceKeysAgree` | scripts/normalize-ids.ts:861-876 | the keys listed for a kind are exactly those the walk takes for references of that kind |
| `JsonAssertions.CapitalizedEventIdIsOverlooked` | scripts/normalize-ids.ts:1761-1768 | a concrete document that the local validation accepts and the plan rejects |
| `D1Refinement.MigrationPlanIsFaithful` | scripts/normalize-ids.ts:1438-1801 | single-run refinement from a well-formed map and a validated outcome, for the kinds, columns and tables as listed |
| `D1Refinement.PlanRepeatsTheLocalRun` | scripts/normalize-ids.ts:1493-1669 | refinement for any lists of renamed, embedded and emptied columns and tables: direct map updates plus exact values keyed by the already renamed primary key reach the local outcome, with its map and both markers |
| `D1Refinement.RetriesConverge` | scripts/normalize-ids.ts:1443-1447 | for every list of cut points and stable owners, every interrupted attempt ends in a state from which the plan still executes, and the last complete execution gives the tables, completion time and version of a single one |
| `D1Refinement.CompletedCopyIsLeftAlone` | scripts/normalize-ids.ts:1479-1491 | on a copy whose completion marker is set, any plan executes if and only if the copy carries this validation version, and then changes no application table |
| `D1Refinement.RunWork` | scripts/normalize-ids.ts:1493-1669 | from the untouched copy, or with stable owners from every state an attempt can leave behind, all statements before the markers execute and reach exactly the final tables and the whole map |
| `D1Refinement.AttemptsStayOnTrack` | scripts/normalize-ids.ts:1438-1801 | after any number of attempts cut anywhere the copy is in progress or completed, never in another state |
| `D1Replay.SafeRunPrefix` | scripts/normalize-ids.ts:1443-1447 | after every prefix of the statements before the markers the copy is still in progress |
| `D1Replay.TowardsKeepsProgress` | scripts/normalize-ids.ts:1538-1669 | every cell is at its original, prepared or goal value; letting any cells jump to their goal keeps that and undoes no arrival, provided key ids wait for the creators that may name them |
| `D1Replay.RunRenames` | scripts/normalize-ids.ts:1544-1577 | the direct updates bring every renamed column to its goal from any partial state, including columns already renamed by an earlier attempt |
| `D1Replay.RunColumns` | scripts/normalize-ids.ts:1581-1633 | staging, applying and checking exact values brings every embedded column to its goal; staged rows and rows that join with them are in one-to-one correspondence |
| `D1Replay.RunAllCredentials` | scripts/normalize-ids.ts:1634-1657 | each downloader statement hits exactly one row, and the revocation check passes |
| `D1Replay.EverythingHasArrived` | scripts/normalize-ids.ts:1544-1657 | once renames, exact values and credentials are through, every table equals its goal or has been reduced already |
| `D1Deletions.RunDrops` | scripts/normalize-ids.ts:1661-1669 | clients, resources and registrations are deleted in an order that is safe to repeat: the registrations that identify the clients go last |
| `D1Deletions.ValidationCarriesOver` | scripts/normalize-ids.ts:1686-1773 | a validation query that holds locally holds on the replayed copy, whose JSON documents may be spelled differently |
| `D1Deletions.FinalChecksPass` | scripts/normalize-ids.ts:1670-1785 | the deferred assertions, row counts, foreign keys and validations of the plan all pass at its end, so no batch aborts |
| `D1Plan.BuildD1ApplySql` | scripts/normalize-ids.ts:1438-1801 | the plan is refused exactly without a validated local run, a stable key, literals that fit, or within 1,000 commands of at most 100,000 bytes; otherwise its statements are the specified ones in order, the completion marker last |
| `D1Plan.PlanColumn` | scripts/normalize-ids.ts:1581-1633 | one embedded column: refused exactly without a key or with a literal that is too large |
| `D1Plan.ExecuteConcatenates` | scripts/normalize-ids.ts:1438-1801 | executing two lists of statements one after the other is executing their concatenation, aborts included |
| `IdMapTable.InsertFromPrefix` | scripts/normalize-ids.ts:1505-1509 | inserting a chunk of the map over any prefix left by an earlier attempt gives the longer of the two prefixes, in order |
| `PlanChunks.ChunkSqlFragments` | scripts/normalize-ids.ts:1419-1436 | fails exactly on a fragment too large at its position; otherwise greedy packing under the running counter, where no chunk could take the next fragment |
| `PlanChunks.ChunkingConcatenates` | scripts/normalize-ids.ts:1419-1436 | the chunks hold the fragments in order, none is empty, and each joined chunk is at most 90,000 bytes |
| `PlanChunks.ChunkingIsUnique` | scripts/normalize-ids.ts:1419-1436 | only one list of chunks meets that description |
| `LocalDatabase.Database.Normalize` | scripts/normalize-ids.ts:1322-1412 | one transaction: unchanged on any failure, in a dry run and when already completed; on success the map keeps the rows that were there, every live token of the rotated kinds, well formed or not, and every malformed id in any source column has a mapping, nothing else has, the tables are the passes of the inventory over the old tables, validation holds, and both markers are set; it fails only over a creator without a key, a document that cannot be read, a generator with too few values, or validation |
| `LocalDatabase.Database.Migrate` | scripts/normalize-ids.ts:1355-1388 | the passes between the guards and the markers, each a method that updates the tables, give the specified tables, and once the map is built the run succeeds if and only if the outcome validates; an unresolvable legacy creator is an error |
| `LocalDatabase.Database.UpdateColumns` | scripts/normalize-ids.ts:1370-1373 | the updates over a list of targets amount to the specified renaming of the old tables |
| `LocalDatabase.WriteRows` | scripts/normalize-ids.ts:878-905 | row by row: every row gets its rewritten value, and the count of changes is zero exactly when no row differs |
| `LocalDatabase.Database.RewriteEmbedded` | scripts/normalize-ids.ts:1375-1377 | the row-by-row passes over embedded columns compute the specified tables, and report no change only if there is none |
| `LocalDatabase.Database.InvalidateDownloaderCredentials` | scripts/normalize-ids.ts:1052-1065 | every downloader loses its hash, takes a fresh token id and is disabled; nothing else changes |
| `LocalOutcome.LocalRunIsAGoodJob` | scripts/normalize-ids.ts:1355-1388 | whatever order visits the embedded columns once each, the outcome of the local run satisfies what the replay presupposes |
| `LocalOutcome.MigrationIsAGoodJob` | scripts/normalize-ids.ts:1355-1388 | in particular with the kinds, columns, tables and order of the migration as listed |
| `IdMigration.RenameAllCells` | scripts/normalize-ids.ts:1370-1373 | all passes over direct columns amount to one simultaneous renaming of every cell under the kind that owns its column |
| `IdMigration.RewriteAllCells` | scripts/normalize-ids.ts:1375-1377 | the passes over polymorphic, JSON and structured columns amount to one simultaneous rewrite |
| `IdMigration.RenameListIsComplete` | scripts/normalize-ids.ts:1370-1373 | every existing target of every kind is updated |
| `IdMigration.LocalOrderVisitsEachOnce` | scripts/normalize-ids.ts:342-387 | no embedded column is visited twice, and none names a type |
| `IdMigration.LocalOrderCoversEmbedded` | scripts/normalize-ids.ts:256-280 | the local run and the plan visit the same embedded columns |
| `IdRegistry.TargetsHaveOneOwner` | scripts/normalize-ids.ts:55-230 | no column is a target of two kinds |
| `IdRegistry.EmbeddedColumnsAreSeparate` | scripts/normalize-ids.ts:256-280 | a column shipped as exact values is never a direct target |
| `IdTables.EmbeddedCellMentions` | scripts/normalize-ids.ts:1593-1598 | a rewritten value prints some new value, which is the plan's test for shipping it, or still means what it meant |
| `IdCollection.CollectValues` | scripts/normalize-ids.ts:661-709 | without duplicates exactly the values that some source column, type filter, sentinel rule or JSON document yields, which the next rows describe independently; fails exactly on invalid JSON |
| `IdCollection.SourcesAreListed` | scripts/normalize-ids.ts:661-681 | the list of sources of a kind holds exactly its primary column, its historical references, the further columns that may name users, and every polymorphic column under each type that names the kind |
| `IdCollection.CollectJsonMappingValues` | scripts/normalize-ids.ts:838-859 | exactly the values of the kind that some JSON document still refers to in a wrong format |
| `IdCollection.AddMappings` | scripts/normalize-ids.ts:711-725 | into a table with any rows its constraints admit: new values are distinct among all kinds and of the right format; on completion every value has a mapping and only rows of this kind were appended; it stops early only when every draw is used up |
| `IdCollection.BuildMap` | scripts/normalize-ids.ts:1364-1369 | kind by kind: the map keeps the rows that were there, maps every live token and every malformed id and nothing that needs no mapping, to drawn values; it runs out of draws only if they are fewer than the map could come to hold |
| `IdCollection.LiveTokensAreMapped` | scripts/normalize-ids.ts:684-690 | a complete map has every non-empty value of every token column - shares, images, invitations, invite codes, verification tokens - whatever its format, unless it is itself a new value of the kind |
| `IdCollection.MalformedHaveMappings` | scripts/normalize-ids.ts:661-709 | a complete map has every malformed value of every primary, historical or typed source column, the empty text only where it is no sentinel |
| `IdCollection.AddedRowsAreNeeded` | scripts/normalize-ids.ts:661-709 | every row added to the map replaces a live token, or a malformed value that a source column or a document holds |
| `LocalTokens.NoOldTokenRemains` | scripts/normalize-ids.ts:1322-1412 | end to end: every token a run leaves is empty or drawn, and from an empty map table no token of before is left in its column, well formed or not |
| `LocalRows.OutcomeExactly` | scripts/normalize-ids.ts:1355-1392 | end to end, without naming any pass: exactly the rows outside the invalidated tables and the dynamically registered clients remain, in their order, and every cell of every column is the credential, the renamed value or the rewritten reference that its column calls for |
| `LocalRows.RemainingArePlaced` | scripts/normalize-ids.ts:1019-1050 | the rows that remain of a table are exactly those not deleted, in their order: a client or resource goes exactly if its client id is registered |
| `LocalRows.NewCellExactly` | scripts/normalize-ids.ts:743-754 | a cell is replaced under the kind whose primary column or declared reference it is; a column no kind owns is rewritten by what it embeds; downloader credentials are reset |
| `IdEmbedding.EmbeddedCellExactly` | scripts/normalize-ids.ts:878-1016 | every embedded column by its own rule - type column, event key, ledger key, free plan, upload creator, document - stated by the segments or values that are replaced; every other column is left alone |
| `IdEmbedding.EventKeyChangesExactlyIf` | scripts/normalize-ids.ts:944-963 | an event key changes exactly if its type names a kind under which one of its segments is mapped |
| `IdEmbedding.FreePlanChangesExactlyIf` | scripts/normalize-ids.ts:988-1004 | the source of an entitlement changes exactly if it is a free plan key with a mapped segment |
| `IdEmbedding.CreatorIsResolved` | scripts/normalize-ids.ts:535-564 | a creator that spells api-key: in any letter case becomes the owner of the first key with its id; any other creator stays |
| `JsonLeaves.ReplaceSegmentsExactly` | scripts/normalize-ids.ts:932-938 | a key is rewritten to exactly the join of its colon-free segments, each mapped one replaced and every other kept |
| `JsonLeaves.RewriteReplacesEveryReference` | scripts/normalize-ids.ts:771-792 | at every path of a document a reference has given way to its new value and every other text, key and shape is as before |
| `JsonLeaves.CollectExactly` | scripts/normalize-ids.ts:812-836 | a value is collected from a document exactly if at some path, under a key of the kind, it stands in a wrong format |
| `IdCollection.BuiltMapIsWellFormed` | scripts/normalize-ids.ts:711-725 | the map so built renames injectively, every new value has the generated length of its kind, and under every kind no new value is an old one: by alphabet for the kinds that are not rotated, by freshness of the draws for the others |
| `IdCollection.CollectedIsInvalid` | scripts/normalize-ids.ts:684-693 | under a kind that is not rotated only malformed values are collected |
| `IdValues.AlphabetSeparatesOldFromNew` | scripts/normalize-ids.ts:684-693 | for kinds that are not rotated the alphabet alone keeps old and new values apart |
| `IdValues.FormatChecksAgree` | scripts/normalize-ids.ts:733-741 | the SQL format predicate, with SQLite's one-based substr, rejects exactly the values the pattern test rejects, for every kind and with or without the empty sentinel |
| `IdValidation.BuiltMapCoversCollected` | scripts/normalize-ids.ts:1364-1369 | the map that was built holds everything collected from the prepared tables, which is what the validation results below start from |
| `IdValidation.FormatPassFindsNothing` | scripts/normalize-ids.ts:1239-1259 | if live references resolve and no empty token is left unmapped, then after collecting, mapping and updating no primary or reference column holds a value the format pass rejects, sentinels and kind-specific patterns included |
| `IdValidation.NothingIsStale` | scripts/normalize-ids.ts:1230-1238 | under every map of generated ids, short image ids included, the second pass of validation over polymorphic, JSON and structured columns changes nothing, so the stale counts are zero |
| `IdValidation.EmbeddedValueIsSettled` | scripts/normalize-ids.ts:907-1017 | for every way a column is embedded and every map of generated ids, a rewritten value is rewritten to itself |
| `IdValidation.ShortIdsCanLeaveStaleKeys` | scripts/normalize-ids.ts:957-970 | it hangs on the length of organization and storage ids: an organization called integrity-opening with the short new id matter leaves a key that a second pass changes again |
| `IdValidation.ShortIdMapIsWellFormed` | scripts/normalize-ids.ts:957-970 | the map of that example is otherwise well formed |
| `IdValidation.JsonScanExactlyIf` | scripts/normalize-ids.ts:1310-1313 | the JSON scan of validation finds no value of a kind in the outcome - for download tasks if and only if no opening event id carried a task id with a colon |
| `IdValidation.DocumentCellIsStored` | scripts/normalize-ids.ts:878-905 | rewriting a document keeps the invariant that the stored text reads back as the document, whatever reader undoes printing |
| `JsonText.StringifyIsInjective` | scripts/normalize-ids.ts:897-898 | two documents print the same only if they are equal, so a rewritten document that prints its stored text is unchanged |
| `JsonReferences.CollectAfterRewrite` | scripts/normalize-ids.ts:771-836 | for every document, kind and covering map: collecting from the rewritten document finds nothing if and only if, for download tasks, no task id in an initial: event id holds a colon |
| `JsonReferences.ColonTaskIdIsCollectedAgain` | scripts/normalize-ids.ts:786-788 | such a task id is mapped as a whole but rewritten by segments, so it is collected again |
| `JsonReferences.RewriteIsIdempotent` | scripts/normalize-ids.ts:771-792 | a second rewrite of any document is the identity |
| `JsonReferences.RewriteKeepsEverythingElse` | scripts/normalize-ids.ts:771-792 | shape, keys, key order and every leaf that is no reference stay as they are |
| `JsonReferences.CollectJsonValuesForKind` | scripts/normalize-ids.ts:812-836 | the recursive walk adds to the set exactly the values specified for the document |
| `JsonReferences.ChangedDocumentMentionsNewValue` | scripts/normalize-ids.ts:1593-1598 | the text of a document that changed includes some new value |
| `IdValues.ReplaceSegmentsKeepsStructure` | scripts/normalize-ids.ts:932-938 | the segments of the result are exactly the old segments, each renamed: none is split or merged |
| `IdValues.ReplaceSegmentsIsIdempotent` | scripts/normalize-ids.ts:932-938 | replacing the segments again changes nothing |
| `IdValues.SequentialIsSimultaneous` | scripts/normalize-ids.ts:970-973 | the organization-then-storage rewrite of an opening key equals one simultaneous substitution |
| `IdValues.OpeningKeysAreSettled` | scripts/normalize-ids.ts:970-973 | so a second pass over an opening key finds nothing to replace |
| `IdIsomorphism.JoinsAreKept` | scripts/normalize-ids.ts:743-754 | after all passes over direct columns, any two columns of a kind join exactly the rows they joined before |
| `IdIsomorphism.EqualityIsKept` | scripts/normalize-ids.ts:711-725 | two values are equal after renaming exactly when they were before, if and only if they do not collide; a collision is an unmapped value that equals the other's new value |
| `IdIsomorphism.DanglingReferencesAreKept` | scripts/normalize-ids.ts:1071-1095 | the dangling count of a declared reference grows by exactly the empty references to a kind whose empty value is mapped and is no target; it is kept if and only if there are none |
| `IdIsomorphism.EmptyReferenceAwakens` | scripts/normalize-ids.ts:1082-1086 | with the empty user id mapped from elsewhere, an empty live reference becomes a dangling one |
| `OpenApiMerge.ApiDocument.AddRegisteredOperations` | server/http/better-auth-openapi.ts:91-147 | succeeds exactly if the registry is valid, every operation is available with every overridden representation, its target is free and its parameters match, no reference or component is in the way, and all operation ids are distinct; otherwise the document is unchanged; on success each target holds its source operation with the id, tags, security and schemas of the registration and nothing else changed, every earlier operation and component is kept, and exactly the reachable components are added |
| `OpenApiImport.Importer.Import` | server/http/better-auth-openapi.ts:257-302 | terminates on cyclic references; afterwards every reference at any depth of the values and of each newly imported component parses, resolves and has its component imported, each new component is reachable and stands as in the source, and nothing that was there has changed; it fails only if an unsound reference or a component without room is reachable |
| `OpenApiImport.ImportedIsReachable` | server/http/better-auth-openapi.ts:257-302 | a set of components that is closed under references and reachable from the values is exactly the reachable set |
| `OpenApiImport.Importer.Place` | server/http/better-auth-openapi.ts:283-297 | a component is placed exactly if its section is absent or an object and its name is free or holds an equal value; otherwise nothing changes |
| `OpenApiImport.RootOfResolvedReference` | server/http/better-auth-openapi.ts:278-281 | a reference that resolves at all resolves in its component, so the later dangling-component error is never thrown |
| `OpenApiMerge.ImportedReferencesResolve` | server/http/better-auth-openapi.ts:319-351 | the last check never rejects: every reference at any depth of the registered operations, their parameters and the imported components resolves in the merged document |
| `OpenApiValues.ReferencesExactly` | server/http/better-auth-openapi.ts:370-382 | a string is collected exactly if some path of array indices and object keys leads to an object whose $ref it is |
| `OpenApiValues.ChildIsStep` | server/http/better-auth-openapi.ts:394-399 | one pointer step leads to what an object has under the name, to the item with that index in decimal, or to the length of an array |
| `OpenApiImport.FollowedIsNotObstructed` | server/http/better-auth-openapi.ts:257-302 | where everything reachable was followed and carried, no unsound reference and no component without room was reachable |
| `OpenApiMerge.HasRoomExactlyIf` | server/http/better-auth-openapi.ts:121-136 | after any earlier registrations a target has room exactly if it had at the start and the parameters of its path agree with theirs |
| `OpenApiOperations.PreparedExactly` | server/http/better-auth-openapi.ts:108-119 | an operation is adapted exactly if every overridden representation is an object; then its id, tags, security and overridden schemas are those of the registration and every other place holds what it held |
| `OpenApiOperations.OperationExactly` | server/http/better-auth-openapi.ts:101-118 | a registration contributes an operation exactly if its source path item has one that can be adapted, and then that one |
| `OpenApiMerge.FollowedReferenceResolves` | server/http/better-auth-openapi.ts:319-351 | a followed reference resolves in any document that carries the imported components |
| `OpenApiMerge.HasUniqueOperationIds` | server/http/better-auth-openapi.ts:353-368 | accepts exactly the paths in which no two operations share an operation id |
| `OpenApiMerge.ValidateRegistry` | server/http/better-auth-openapi.ts:149-185 | accepts exactly the registries with distinct sources, distinct targets, distinct ids, tags, and no empty requirement list |
| `OpenApiMerge.MergeOperation` | server/http/better-auth-openapi.ts:121-136 | adds one operation exactly when the path item is absent or an object, the verb is free, and the parameters agree |
| `OpenApiMerge.GrowingByOne` | server/http/better-auth-openapi.ts:200-214 | adding an operation changes nothing else in the paths but may add the parameters of its path |
| `OpenApiValues.JsonEqualIsEquality` | server/http/better-auth-openapi.ts:410-427 | the recursive comparison by key count and keys is equality of values |
| `OpenApiValues.ResolveInSteps` | server/http/better-auth-openapi.ts:394-399 | resolving a pointer is resolving its beginning and then its rest |
| `OpenApiValues.SegmentRoundTrip` | server/http/better-auth-openapi.ts:383-392 | unescaping undoes escaping of a pointer segment for every name, which needs the order of the two replacements (section 4 of RFC 6901) |
| `OpenApiImport.PointerRoundTrip` | server/http/better-auth-openapi.ts:383-392 | reading a pointer undoes writing it for every list of names that needs no percent-encoding |
| `XmlParser.ParserAcceptsWellNested` | server/domain/webdav-xml.ts:335-391 | the stack machine accepts exactly the well-nested streams with one root, comments and processing instructions anywhere, and yields that root, every element with the namespace that the opening tags around it give its prefix |
| `XmlParser.ParseXmlElement` | server/domain/webdav-xml.ts:335-391 | the loop with its mutable stack returns an element exactly if it is the one that the tags stand for |
| `XmlParser.LookupIsNamespace` | server/domain/webdav-xml.ts:365-370 | the namespace is that of the last binding of the prefix on the element itself or else on the nearest enclosing element that binds it; unbound, D and no prefix mean DAV and any other prefix none |
| `XmlParser.NamespaceIsLookedUp` | server/domain/webdav-xml.ts:365-370 | the map of bindings that the parser carries along gives that namespace for every list of opening tags |
| `XmlParser.ParsedOfItems` | server/domain/webdav-xml.ts:335-391 | for every forest of elements, parsing its tags returns the root if there is exactly one and fails otherwise |
| `XmlParser.UnreadableFails` | server/domain/webdav-xml.ts:352-362 | on a stream that is not well nested the machine stops or is left with an open element |
| `XmlParser.ParsedSpansNest` | server/domain/webdav-xml.ts:355-383 | in every parsed element, all the way down, the body lies inside the element and the children lie in order, disjoint, inside the body |
| `XmlText.UnescapeUndoesEscape` | server/domain/webdav-xml.ts:297-304 | the five chained replacements of unescaping undo the five of escaping on every string |
| `XmlText.EscapeXmlByCharacter` | server/domain/webdav-xml.ts:430-437 | the five chained replacements of escaping amount to writing each character on its own |
| `XmlText.OwnerXmlIsIdempotent` | server/domain/webdav-xml.ts:293-295 | a lock owner written once is written the same again, whatever it holds (section 14.17 of RFC 4918) |
| `XmlText.OwnerXmlExactly` | server/domain/webdav-xml.ts:293-304 | an owner that contains a tag is written as it is; any other is unescaped and written character by character with its special characters as entities |
| `XmlText.HasTagExactlyIf` | server/domain/webdav-xml.ts:294 | a tag is an angle bracket, perhaps space, a name with an optional prefix, and then space, a slash or a closing bracket |
| `XmlProperties.UniqueProperties` | server/domain/webdav-xml.ts:312-320 | the filter with a growing key set keeps the first occurrence of every property, in order |
| `XmlProperties.FirstPlacesInOrder` | server/domain/webdav-xml.ts:312-320 | what is kept are exactly the first occurrences, in their order |
| `XmlProperties.KeysAreDistinct` | server/domain/webdav-xml.ts:315 | the two-line key tells any two properties apart, because element names hold no line break |
| `XmlProperties.RequestedProperties` | server/domain/webdav-xml.ts:229-234 | named properties are answered as they were named; otherwise the answer holds every live, dead and included property once and no other |
| `WorkerCache.RunKeepsInv` | workers/bootstrap.ts:95-152 | every reachable state, over all interleavings of arrivals, settlements, timeouts, commits and clean-ups, satisfies the invariant of the three maps |
| `WorkerCache.MapsAlwaysAgree` | workers/bootstrap.ts:142-144 | auth and app maps always have the same slots, in the same order |
| `WorkerCache.SingleFlight` | workers/bootstrap.ts:121-145 | no two initializations of a slot are ever under way together, and none beside a cached app |
| `WorkerCache.RequestsResolveToTheirOwnUrl` | workers/bootstrap.ts:102-124 | in every reachable state: in preview mode a request resolves to an app under its own origin, with a configured URL to one under that URL; in preview mode or with configured origins it gets its own trusted origins, across timeouts and evictions |
| `WorkerCache.AnswerIsBuiltForAnArrival` | workers/bootstrap.ts:102-146 | after any run a request is answered with an app built for itself or for a request that arrived and shares the app: under the request's origin in preview mode, else the configured URL, else that first request's origin; trusting the configured origins, else that first origin |
| `WorkerCache.SlotsAgreeExactlyIf` | workers/bootstrap.ts:110-116 | two requests share a slot exactly if they have one origin in preview mode, always with a configured URL, and otherwise if they are of one kind |
| `WorkerCache.OwnUrlAndTrustExactlyIf` | workers/bootstrap.ts:102-124 | over all runs and requests: everyone gets their own URL - the origin in previews and without a configured URL, else that URL - if and only if the environment has preview mode or a configured URL, and their own trusted origins if and only if it has preview mode or configured origins |
| `WorkerCache.PrimarySlotCanServeAnotherOrigin` | workers/bootstrap.ts:112-118 | in every environment without preview mode and without a configured URL, a second request is handed the app of the first one's origin |
| `WorkerCache.SharedSlotCanTrustAnotherOrigin` | workers/bootstrap.ts:107-118 | in every environment without preview mode and without configured origins, with or without a configured URL, a second request is handed an app that trusts the first one's origin |
| `WorkerCache.TimedOutNeverWrites` | workers/bootstrap.ts:126-145 | once timed out an initialization stays so, and neither map ever holds what it produced |
| `WorkerCache.CacheHoldsTheLatest` | workers/bootstrap.ts:131-144 | a preview worker holds exactly the eight most recent commits, oldest first; any other worker holds every commit |
| `WorkerCache.CacheIsBounded` | workers/bootstrap.ts:131-144 | both maps stay within eight slots in preview mode, one with a configured URL, and two otherwise, however many initializations overlap |
| `WorkerCache.LostRegistrationHoldsItsSlot` | workers/bootstrap.ts:146-152 | a timed-out initialization that is still registered holds its slot through every other step |
| `WorkerCache.CleanUpFreesTheSlot` | workers/bootstrap.ts:150-152 | after its clean-up the next request of the slot starts anew |
| `WorkerCache.WorkerRuntime.AppForRequest` | workers/bootstrap.ts:102-146 | up to its first await: the answer and the new maps are those of the protocol step, the answer was built for a request that shares the app, under its URL and trusted origins, and the invariant is kept |
| `WorkerCache.WorkerRuntime.StoreApp` | workers/bootstrap.ts:131-145 | the continuation evicts the oldest slot of a full preview cache and stores auth and app together, keeping the invariant |
| `WorkerCache.WorkerRuntime.Decide` | workers/bootstrap.ts:154-164 | the race with the timeout is decided once, and keeps the invariant |
| `WorkerCache.WorkerRuntime.Release` | workers/bootstrap.ts:150-152 | the entry is removed only if it is still this initialization's |
| `SqlSplitter.SplitSqlStatements` | scripts/backfill-admin-stats.ts:1347-1370 | the scan that skips doubled quotes computes the specification by quote parity, and fails exactly on an odd number of quotes |
| `SqlSplitter.OutputsAreStatements` | scripts/backfill-admin-stats.ts:1347-1370 | every output is trimmed, not empty, quote-balanced and without a semicolon outside a literal |
| `SqlSplitter.SplitOfScript` | scripts/backfill-admin-stats.ts:1347-1370 | splitting a script of statements returns the statements, whatever white space separates them |
| `SqlSplitter.SplitOfJoinedScript` | scripts/backfill-admin-stats.ts:1347-1370 | so does splitting statements joined by semicolons, where the last one has no terminator |
| `SqlSplitter.BatchFileSplitsBack` | scripts/backfill-admin-stats.ts:1335-1340 | the text of a batch file splits back into its batch |
| `SqlSplitter.LiteralIsNeverCut` | scripts/backfill-admin-stats.ts:234-240 | a literal built by doubling its quotes is never split, whatever it holds |
| `SqlSplitter.JoinOfCut` | scripts/backfill-admin-stats.ts:1347-1370 | the pieces joined by semicolons are the text: nothing is lost |
| `SqlSplitter.Batches` | scripts/backfill-admin-stats.ts:1335-1342 | batches of eight, the last perhaps shorter and none empty, concatenate to the statements |
| `UrlSafety.SpellingIsRead` | shared/url-safety.ts:32-59 | the original eight groups are returned for every spelling: any legal placement of ::, leading zeros, any dotted tail the IPv4 reader accepts (section 2.2 of RFC 4291) |
| `UrlSafety.ReadsExactlySpellings` | shared/url-safety.ts:32-59 | a host is read as eight groups if and only if, but for letter case, it is the text of a legal spelling of those groups; nothing else is accepted |
| `UrlSafety.CaseIsIgnored` | shared/url-safety.ts:32-33 | hosts that differ only in letter case have the same groups |
| `UrlSafety.EmbeddingKeepsTheClass` | shared/url-safety.ts:61-98 | an IPv4 address is classified the same in mapped, translated, compatible, 6to4, NAT64 and Teredo form, whatever the free groups |
| `UrlSafety.CarriedHostIsBlockedLikeItsAddress` | shared/url-safety.ts:101-109 | for every legal spelling of every carrying form, the bracketed host is blocked exactly when the dotted address is |
| `UrlSafety.BlockedOctetsAreBlocks` | shared/url-safety.ts:18-30 | the octet tests are seven address blocks, and no other address |
| `UrlHosts.BlockedHostsExactly` | shared/url-safety.ts:79-110 | over every host: blocked are, in any letter case, exactly localhost and its subdomains, decimal spellings of addresses in the seven IPv4 blocks, and legal IPv6 spellings of unspecified, loopback, fe80::/10 and fc00::/7 addresses and of those that carry such an IPv4 address, bare or in brackets |
| `UrlHosts.SpelledHostIsBlockedExactlyIf` | shared/url-safety.ts:79-110 | in brackets a legal spelling is blocked exactly if its groups are internal |
| `UrlHosts.BlockedGroupsExactly` | shared/url-safety.ts:79-99 | the tests on eight groups hold exactly for ::, ::1, a first group in fe80::/10 or fc00::/7, and the carriers of an internal IPv4 address |
| `UrlHosts.ReadsExactlyDotted` | shared/url-safety.ts:11-16 | a text is read as an IPv4 address exactly if it joins four parts of one to three digits, none above 255 |
| `UrlSafety.DottedRoundTrip` | shared/url-safety.ts:11-16 | printing an address and reading it back gives the address, which is how an embedded one is classified |
| `ApiKeyPermissions.CanonicalIsIdempotent` | shared/api-key-templates.ts:83-107 | the canonical form of a canonical form is itself, on every input |
| `ApiKeyScopes.CanonicalExactlyIf` | shared/api-key-templates.ts:66-107 | the canonical form is determined by its description: proper resources, each with exactly the actions that listed actions stand for by the table of replacements or by their own name, in the order of UTF-16 code units |
| `ApiKeyScopes.BeforeIsUtf16Order` | shared/api-key-templates.ts:99 | the order of sorting is the lexicographic order of UTF-16 code units |
| `ApiKeyScopes.NeedsChangeExactlyIf` | scripts/backfill-api-key-scopes.ts:31-40 | a row is changed exactly if it can be read and some entry is no list, lists no string, names no proper resource or lists a legacy action; order and repetition play no part |
| `ApiKeyPermissions.CanonicalGrants` | shared/api-key-templates.ts:83-107 | canonical permissions grant a scope exactly if it is listed as a present action or is in the expansion of a listed legacy action |
| `ApiKeyPermissions.Canonicalize` | shared/api-key-templates.ts:83-107 | the loops over resources, actions and sorted scopes compute the canonical form |
| `ApiKeyPermissions.CanonicalIsStoredAsItIs` | shared/api-key-templates.ts:109-120 | canonical permissions are serialized and parsed back unchanged |
| `ApiKeyPermissions.SerializePermissions` | shared/api-key-templates.ts:109-120 | keys with sorted strings once each, other values as they are |
| `ApiKeyPermissions.GroupedGrants` | shared/authorization.ts:106-135 | grouping any list of scopes by their first colon grants those scopes and no others |
| `ApiKeyPermissions.BackfillReachesAFixpoint` | scripts/backfill-api-key-scopes.ts:140-149 | after one application of its changes the backfill finds nothing left to change |
| `ApiKeyPermissions.OnePassSettles` | scripts/backfill-api-key-scopes.ts:113-134 | applying the changes one by one replaces exactly the rows that need it by their canonical form |
| `ApiKeyPermissions.KeyTable.RunBackfill` | scripts/backfill-api-key-scopes.ts:140-149 | with no other writer the run always succeeds: its final failure cannot be reached; a dry run changes nothing |
| `ApiKeyPermissions.BackfillRows` | scripts/backfill-api-key-scopes.ts:31-40 | one change for exactly the readable rows whose canonical form is written differently |
| `ApiKeyPermissions.SettledRowGrants` | scripts/backfill-api-key-scopes.ts:31-40 | a changed row grants what its listed actions stand for |
| `ApiKeyPermissions.UntouchedRowIsCanonical` | scripts/backfill-api-key-scopes.ts:31-40 | a row left alone already lists exactly what its canonical form grants |

## Left out

- NormalizedDatabaseHasAFaithfulPlan: presupposes that primary keys of the outcome are unique (the database enforces it), that key columns hold no embedded values, that every row has the schema's columns, and that tasks with events have ids.
- BuildD1ApplySql: leaves out the SQL text itself; literals and statements enter only through their sizes.
- CleanTreePasses: documents repeat no key within an object (`json_tree` would list both, parsing keeps the last); whether a text is valid JSON is part of the cell.
- FinalChecksPass: a foreign key spans one column.
- Normalize: takes the guards on externally owned ids and the maintenance state as passed.
- RunDrops: does not model deletions that foreign keys cascade; the explicit deletions that give the same rows are modelled.
- AddMappings: partial correctness; the generator is a finite supply of draws, and the loop may run out of them.
- NormalizationSucceedsExactlyIf: presupposes that rows already in the map table follow the rules of the map that is built, and that stored documents are what some reader that undoes printing makes of their text; numbers in documents are their literals.
- EqualityIsKept: characters are Unicode scalar values, so strings with lone surrogates are not modelled; sorting follows UTF-16 code units all the same.
- Import: visits references in any order, so which of several errors is reported is not modelled; shared sub-objects are trees.
- ParsePointer: percent-decoding of a segment is a parameter.
- ParserAcceptsWellNested: begins after the regular expression: attribute values that hold a closing angle bracket are outside what it matches, and namespace bindings are those it extracts.
- AppForRequest: one worker has one environment; the cached runtime and the requests of one isolate share it.
- SpellingIsRead: groups are written in lower case, with `CaseIsIgnored` for the rest.
- EmbeddingKeepsTheClass: the bit masks and the exclusive or on sixteen-bit groups are written as arithmetic.
- CanonicalIsIdempotent: objects are finite maps; inherited properties and the order of integer-like keys are not modelled.
- ParseProppatchXml, lock requests and the multistatus text: thin layers over the parser and the escaping that are modelled.
- Random generation, cryptography, database drivers, processes, files, command lines and HTTP handlers.
- `isSafeHttpUrl` beyond the host: URL parsing is foreign code.
