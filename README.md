# Vocabulary sync engine — a Dafny model

This project models the decision logic of a vocabulary-sync tool for a Notion workspace.
Context pages hold notes. In those notes a bulleted list item with a **bold and italic** run marks
a vocabulary *unit*. One refresh does the following:

- It reads the context pages from the main database.
- It walks every block below each context. Nested child pages already extracted since their last
  edit are skipped, together with everything under them.
- It extracts the units.
- It routes each unit to the word database, or to the expression database when the unit has a
  space in it. There the unit either creates a page titled with its name or appends a toggleable
  "Contexts" heading to the one page with that name. The heading links back to the source block.
- Last of all, it writes the "Last extracted time" of every nested page the walk found unsynced.

The model also covers the status-code handling of the API wrapper and the older extractor in
`utilitis.py`: its walk with one shared "current page" variable, and its grouping of every
annotated run by text. It also covers the Merriam-Webster lookup: the request URL and the
classification of the response.

The Notion API becomes plain data:

- The block tree is a `Node` snapshot.
- A page's properties are a map.
- The vocabulary databases and every write are a `Store` (pages, committed extraction times and a
  write log).
- The workspace object that receives the writes is the `Workspace` class.
- Timestamps are `Instant`s (minutes since the epoch in UTC, seconds, microseconds).
- The UTC clock is a parameter.

Loops and the in-place state of the source are methods. Each method is proved equal to a
recursive specification function, and the properties are lemmas about those functions.

Modules:

- `Common`: `Option`, `Result`, error kinds, substring search, the decimal printer and the
  subsequence relation.
- `Blocks`: blocks, properties, the tree, and its pre-order.
- `SyncStatus`: the staleness test and the extraction stamp.
- `NotionApi`: the status mapping.
- `Links`: id cleaning and the deep link.
- `TreeWalk` and `TreeWalkFacts`: `unfold_block_and_mark_sync` and what it guarantees.
- `UnitFilter`: `_markdown_criteria_for_units` and `extract_units`.
- `Vocabulary`: the resolver over the store.
- `SyncRun`: the refresh run and the `Workspace` class.
- `LegacyExtractor`: the second copy of `utilitis.py`.
- `DictionaryLookup`: `wm_api_utils.py`.

Points where the code does something its own comments or names do not suggest. The model
follows the code in each:

- **Tag of later siblings.** The docstring of `unfold_block_and_mark_sync`
  (`notion_api_utils.py:369-370`) calls `parent_page_id` "the page id of the page that contains
  the block". The loop rebinds that variable to an unsynced child page (`notion_api_utils.py:389`),
  and the rebinding stays in force for every later sibling in the same child list, which that
  page does not contain. `TreeWalkFacts.TagOfSibling` states the rule for every list: the tag is
  the last unsynced child page among the earlier siblings, or the page the list was entered
  from. `TreeWalkFacts.SiblingAfterPageTaggedWithPage` shows the effect on a two-block list. In
  `utilitis.py` the variable is never restored either. There it changes only when a child page
  with children is entered, and `LegacyExtractor.FetchIsTaggedPreorder` states the rule as "the
  most recently entered page".
- **Missing "Last extracted time".** `get_sync_status` raises `NotionAPIError` when a page has no
  "Last extracted time" property (`notion_api_utils.py:310-311`), and so does
  `SyncStatus.GetSyncStatus`. The property being present with a null date is different: the
  date reads as "", and the page counts as not synced.
- **Staleness of roots.** `refresh_units_database_with_contexts` walks each context from its own
  id (`notion_api_utils.py:170-172`). The staleness test and the commit apply only to child
  pages found *below* a context. The context roots themselves are never tested and never
  committed.
- **Runs per block.** `_markdown_criteria_for_units` keeps the first bold-and-italic run of a
  block, while `extract_units_from_blocks` keeps every such run.

## Model

| member | source | states |
|---|---|---|
| SyncStatus.DateTimeCompare | notion_api_utils.py:333-349 | synced exactly when both timestamps are present and the edit's minute is at or before the extraction's minute |
| SyncStatus.SameMinuteIsSynced | notion_api_utils.py:344-349 | an edit later than the extraction but in the same minute still counts as synced |
| SyncStatus.ExactOrderImpliesSynced | notion_api_utils.py:344-349 | an edit at or before the extraction, compared exactly, is synced |
| SyncStatus.ExtractedField | notion_api_utils.py:312-315 | a null date reads as the empty timestamp; a property that is not a date raises a KeyError |
| SyncStatus.GetSyncStatus | notion_api_utils.py:305-331 | missing "Last extracted time" raises its message, a non-date one a KeyError, and a missing "Last edited time" its own message (typo included); a null date is never synced; Ok(true) exactly when both properties are present, set, and the edit minute is at or before the extraction minute |
| SyncStatus.ExtractionStamp | notion_api_utils.py:356-361 | the committed date is the current time with seconds and microseconds zeroed |
| SyncStatus.CommitThenSynced | notion_api_utils.py:351-363 | after the stamp is written, the page reads as synced exactly when its last edit is in or before the stamped minute |
| NotionApi.HandleResponse | notion_api_utils.py:54-69 | body only for 200; otherwise a NotionAPIError whose message starts with the status digits; the reason is "Unknown error." exactly for codes other than 400/401/403/404/429 |
| NotionApi.UnknownReason | notion_api_utils.py:54-68 | the reason is "Unknown error." exactly for codes other than 400, 401, 403, 404 and 429 |
| NotionApi.StatusRecoverable | notion_api_utils.py:69 | the status code reads back from the digits before ": " in every error message |
| Links.CleanId | notion_api_utils.py:435-437 | the result has no '-', keeps every other character and never grows |
| Links.CleanIdAppend | notion_api_utils.py:435-437 | cleaning distributes over concatenation |
| Links.CleanIdFixpoint | utilitis.py:353-355 | an id is left unchanged exactly when it has no '-' |
| Links.CleanIdIdempotent | utilitis.py:353-355 | cleaning twice equals cleaning once |
| Links.LinkTo | notion_api_utils.py:432 | the link is the base URL, the page id, "?pvs=4#", then the block id, segment by segment |
| Links.ParseLink | notion_api_utils.py:432 | any link it accepts is rebuilt exactly by LinkTo from the two ids it returns |
| Links.LinkRoundTrip | notion_api_utils.py:432 | every link whose page id has no '?' parses back to its page and block ids |
| Links.UrlForExtractedUnit | notion_api_utils.py:425-433 | a block without a unit raises KeyError with the source's message; otherwise the link of the cleaned page id and cleaned block id |
| Links.UnitUrlRoundTrip | notion_api_utils.py:425-433 | a unit's link parses back to its cleaned ids, neither containing '-' |
| TreeWalk.Unfold | notion_api_utils.py:374-377 | a root that is neither child_page nor child_database raises the source's message; otherwise the walk of the root's children with the root as current page |
| TreeWalk.RecursiveUnfoldBlock | notion_api_utils.py:379-395 | the loop with its recursive calls appends exactly what the walk specification yields, or returns its first error |
| TreeWalk.UnfoldBlockAndMarkSync | notion_api_utils.py:365-399 | the method returns exactly `Unfold(root)` |
| TreeWalkFacts.WalkCollectsEmittedPages | notion_api_utils.py:384-393 | the commit list is exactly the child pages among the emitted blocks, in order, each one read as unsynced |
| TreeWalkFacts.WalkTagsFromEarlierPages | notion_api_utils.py:383-389 | every emitted block is tagged with the starting page or with a child page emitted before it (`TagOfSibling` names the exact page) |
| TreeWalkFacts.WalkIsPreorder | notion_api_utils.py:381-395 | the emitted blocks are a subsequence of the tree's pre-order (`WalkIsPruned` names the exact list) |
| TreeWalkFacts.WalkIsPruned | notion_api_utils.py:381-395 | a walk that completes emits exactly the tree in pre-order with every synced child page and its subtree removed, descending only into blocks with `has_children` |
| TreeWalkFacts.WalkSplit | notion_api_utils.py:379-395 | the walk of a list split in two is the walk of the first part, then the walk of the second part from the last unsynced child page of the first part (or the starting page) |
| TreeWalkFacts.TagOfSibling | notion_api_utils.py:383-392 | in every child list, an emitted block comes right after the pruned blocks of its earlier siblings and is tagged with the last unsynced child page among those siblings, or with the page the list was entered from |
| TreeWalkFacts.ChildrenFollowSibling | notion_api_utils.py:389-395 | right after an emitted block with children comes the walk of those children, started from the block's own id when it is an unsynced page and from the current page otherwise |
| TreeWalkFacts.WalkWithoutSyncedPagesIsFullPreorder | notion_api_utils.py:381-395 | with no synced page in the tree the walk succeeds and emits the whole pre-order |
| TreeWalkFacts.SiblingAfterPageTaggedWithPage | notion_api_utils.py:388-389 | the block after an unsynced leaf page is tagged with that page |
| UnitFilter.FirstAnnotatedRun | notion_api_utils.py:418-422 | a unit exists exactly when some run is bold and italic, and it is the text of the first such run |
| UnitFilter.MarkdownCriteriaForUnits | notion_api_utils.py:412-423 | non-bulleted blocks and blocks without a bold-and-italic run give no unit; otherwise the block with "unit" set to the first such run's text |
| UnitFilter.ExtractedUnits | notion_api_utils.py:401-410 | every kept block is a bulleted list item with a unit, and the result is never longer than the input |
| UnitFilter.ExtractedUnitsExactly | notion_api_utils.py:403-407 | a marked block is kept exactly when some input block marks to it |
| UnitFilter.ExtractedUnitsAppend | notion_api_utils.py:404-407 | extraction keeps input order |
| UnitFilter.ExtractUnits | notion_api_utils.py:401-410 | the loop returns exactly the marked blocks in input order |
| Vocabulary.ContextsSection | notion_api_utils.py:222-254 | a toggleable heading whose only child is a paragraph with the unit name linked to the unit URL |
| Vocabulary.Matching | notion_api_utils.py:186-187 | the query returns exactly the pages of the database whose title equals the name |
| Vocabulary.IfUnitInDatabase | notion_api_utils.py:182-193 | no page gives "not found", one page gives its id, more than one raises "More than one page found for the unit …" |
| Vocabulary.PlanWrite | notion_api_utils.py:195-213 | no unit raises KeyError; the single write is a create into one of the two databases or an append, never an extraction-time update |
| Vocabulary.PlanWriteShape | notion_api_utils.py:203-213 | with at most one hit and non-empty ids: create when no page has the name, else append to the hit; the database is chosen by a space in the name |
| Vocabulary.AtMostOneMatch | notion_api_utils.py:188-191 | with at most one page per title, a query finds at most one page |
| Vocabulary.CreateEffect | notion_api_utils.py:257-295 | creating a missing title keeps ids distinct and titles unique, leaves exactly the new page under that title, and keeps every old page in place with the new page added after them |
| Vocabulary.AppendEffect | notion_api_utils.py:215-255 | appending changes only the found page, whose content gains the section, and keeps the store valid |
| Vocabulary.ResolveUnitEffect | notion_api_utils.py:195-213 | on a valid store a unit always resolves with exactly one create or append; afterwards exactly one page has the name and its content ends with the new section, and every page of another title or database is unchanged |
| Vocabulary.WriteEffect | notion_api_utils.py:195-213 | the create-or-append write keeps a valid store valid, adds one non-commit write to the log, and leaves one page of the title whose content is the old content (none for a new page) followed by the new children |
| Vocabulary.WriteKeepsOthers | notion_api_utils.py:195-213 | the create-or-append write leaves every page of another title or database unchanged at its position |
| Vocabulary.FreshId | notion_api_utils.py:86-92 | a created page gets a non-empty id no other page has |
| Vocabulary.AppendTo | notion_api_utils.py:141-145 | appending children changes the content of the pages with that id and nothing else |
| Vocabulary.AppendToKeepsValid | notion_api_utils.py:141-145 | appending children to a page of a valid store keeps ids non-empty and distinct and titles unique per database |
| Vocabulary.Apply | notion_api_utils.py:86-98 | every write is logged; only an update changes the committed times; only a create adds a page |
| SyncRun.GetContexts | notion_api_utils.py:297-303 | the query result is returned exactly when every item is a page; otherwise the source's NotionAPIError |
| SyncRun.GetContextsFromDatabase | notion_api_utils.py:297-303 | the loop returns exactly `GetContexts(items)` |
| SyncRun.GatherCollectsEmittedPages | notion_api_utils.py:170-172 | over all contexts, the commit list is exactly the emitted child pages, each read as unsynced |
| SyncRun.GatherContexts | notion_api_utils.py:170-172 | the loop over the contexts returns exactly the joined walks, or the first walk error |
| SyncRun.Commits | notion_api_utils.py:179-180 | one update per collected page, in order, the k-th stamped with the k-th clock reading |
| SyncRun.ResolveUnitNeverCommits | notion_api_utils.py:195-213 | resolving one unit sends at most one write and never an extraction-time update |
| SyncRun.ResolveAllNeverCommits | notion_api_utils.py:174-175 | the resolve loop sends at most one write per unit, never an update, and leaves committed times unchanged |
| SyncRun.ResolveAllOnValidStore | notion_api_utils.py:174-175 | on a valid store every unit resolves, exactly one write per unit, and the store stays valid |
| SyncRun.ResolveUnits | notion_api_utils.py:174-175 | the workspace and result after the resolve loop are exactly `ResolveAll` of the old state |
| SyncRun.CommitAllLog | notion_api_utils.py:179-180 | the commit loop leaves the vocabulary pages unchanged and appends exactly the commits, in order |
| SyncRun.CommitAllStamps | notion_api_utils.py:179-180 | after the commit loop every collected page has a stamp, and other pages' stamps are unchanged |
| SyncRun.CommittedStamp | notion_api_utils.py:179-180 | a page committed once carries the stamp of its own clock reading |
| SyncRun.CommitPages | notion_api_utils.py:179-180 | the workspace after the commit loop is exactly `CommitAll` of the old state, the k-th commit stamped with the k-th clock reading |
| SyncRun.RunFailureCommitsNothing | notion_api_utils.py:166-180 | a failing run writes no extraction time: committed times unchanged, only creates and appends logged |
| SyncRun.RunCommitsLast | notion_api_utils.py:166-180 | a successful run ends with exactly one commit per collected page, all after every resolve write, each for a page read as unsynced |
| SyncRun.RunOnValidStore | notion_api_utils.py:166-180 | on a valid store only the context check or a walk can fail; otherwise one write per unit plus one commit per page, and the store stays valid |
| SyncRun.CommittedPageReadsSynced | notion_api_utils.py:176-180 | after the run, a committed page reads as synced exactly when its last edit is in or before its stamp's minute |
| SyncRun.Workspace.QueryDatabase | notion_api_utils.py:107-119 | returns exactly the matching pages, in order |
| SyncRun.Workspace.Send | notion_api_utils.py:86-98 | the workspace after a write is `Apply` of the write to the old state |
| SyncRun.CreateUnitPage | notion_api_utils.py:257-295 | one create of a page titled with the unit holding the Contexts section |
| SyncRun.AppendNewContextToUnit | notion_api_utils.py:215-255 | one append of the Contexts section to the given page |
| SyncRun.AppendOrUpdateUnitInDatabase | notion_api_utils.py:195-213 | the workspace and result are exactly `ResolveUnit` of the old state |
| SyncRun.UpdateExtractionTime | notion_api_utils.py:351-363 | one update of the page's "Last extracted time" to the minute of `now` |
| SyncRun.RefreshUnitsDatabaseWithContexts | notion_api_utils.py:157-180 | the workspace and result are exactly `Run` of the old state |
| LegacyExtractor.UnfoldBlockSpec | utilitis.py:279-282 | nothing exactly when the root is not a child page |
| LegacyExtractor.FetchIsTaggedPreorder | utilitis.py:285-306 | the fetched blocks are the whole pre-order; each is tagged with the most recently entered page before it, and that page is also current at the end |
| LegacyExtractor.Unfolder.FetchRecursive | utilitis.py:285-314 | the shared list grows by exactly the blocks the specification fetches, and the shared current page ends as the specification says |
| LegacyExtractor.UnfoldBlock | utilitis.py:273-322 | the method returns exactly `UnfoldBlockSpec(root)` |
| LegacyExtractor.UnfoldBlockTraversal | utilitis.py:273-322 | on a page root: the output is the pre-order of the root's children, tagged by the last-entered rule |
| LegacyExtractor.RunHits | utilitis.py:331-334 | each source added is the block's (page id, block id) pair, at most one per run |
| LegacyExtractor.AddRun | utilitis.py:333-334 | a bold-and-italic run appends the source to its own text's list only; other runs change nothing; no list is ever empty |
| LegacyExtractor.AddBlockRuns | utilitis.py:331-334 | one block's runs add exactly its sources to each text's list, and no key maps to an empty list |
| LegacyExtractor.ExtractUnitsFromBlocks | utilitis.py:325-335 | each text's list is exactly its sources in block order; keys are present only with a non-empty list |
| LegacyExtractor.OccurrencesNonEmpty | utilitis.py:326-335 | a text has sources exactly when some bulleted block has a bold-and-italic run with that text |
| LegacyExtractor.OtherBlocksAddNothing | utilitis.py:328-330 | a block that is not a bulleted list item leaves every list unchanged |
| LegacyExtractor.EveryRunCounts | utilitis.py:331-334 | two qualifying runs with the same text add two sources |
| LegacyExtractor.LinkedParagraph | utilitis.py:244-265 | one paragraph whose only run is the unit text, with a link |
| LegacyExtractor.LinkedParagraphRoundTrip | utilitis.py:257 | the link parses back to the source page and block ids, used as given |
| LegacyExtractor.SameLinkFormat | utilitis.py:257 | with cleaned ids the older link equals the unit URL of the sync engine |
| DictionaryLookup.RequestUrl | wm_api_utils.py:15 | base URL, the word as given, "?key=", then the key or "None" when it is unset |
| DictionaryLookup.ParseRequestUrl | wm_api_utils.py:15 | any URL it accepts is rebuilt exactly from the word and key text it returns |
| DictionaryLookup.RequestUrlRoundTrip | wm_api_utils.py:15 | a word without '?' and its key text are recovered from the request URL |
| DictionaryLookup.ShortDefIn | wm_api_utils.py:33 | Python `in`: key of an object, substring of a string, element of a list; raises for null, booleans and numbers |
| DictionaryLookup.Classify | wm_api_utils.py:21-39 | a status other than 200 gives the fetch error with data None; the fetch error exactly for a non-200 status, a non-list or an empty list; found data is the body unchanged |
| DictionaryLookup.ClassifyFound | wm_api_utils.py:28-39 | success exactly for status 200, a non-empty list and "shortdef" in the first entry; the entries are returned unchanged |
| DictionaryLookup.ClassifyWordNotFound | wm_api_utils.py:33-37 | word not found exactly for a 200 non-empty list whose first entry lacks "shortdef" |
| DictionaryLookup.ClassifyRaises | wm_api_utils.py:33 | the `in` test raises exactly when the first entry of a 200 non-empty list is null, a boolean or a number |
| DictionaryLookup.GuardPassesOnlyNonEmptyLists | wm_api_utils.py:28 | the truthiness-and-type guard lets through exactly the non-empty lists |
| DictionaryLookup.EntryObjectsWithShortDef | wm_api_utils.py:39 | a list of entry objects whose first has "shortdef" is returned as the data |

## Left out

- HTTP transport: `requests` calls, headers, the API key check in `NotionAPI.__init__` and cursor pagination (`notion_api_utils.py:36-39, 76-145`). Block children and query results are whole sequences in the snapshot. A block's `type`, fetched by `get_block`, is the block's `kind`.
- Read failures: `get_page`, `get_block`, `get_block_children` and `query_database` raise through `_handle_response` on an error status (`notion_api_utils.py:76-84, 107-139`). Reads are not modelled as failing: each one returns the snapshot. The status mapping itself is modelled (`NotionApi.HandleResponse`).
- Write failures: every create, append and update is taken to succeed. The status mapping itself is modelled (`NotionApi.HandleResponse`).
- Debug output: response dumps, `inspect.stack` and prints (`notion_api_utils.py:45-53, 324-329, 408-409`, `wm_api_utils.py:23-25`, `utilitis.py:318-320`). These are I/O.
- ISO timestamp parsing: the `Z` replacement and `datetime.fromisoformat` are not modelled. Timestamps arrive parsed as `Instant`s in UTC.
- The clock: `datetime.utcnow()` is the `clock` parameter of the run, one reading per commit. The `strftime` text is modelled as the truncated `Instant`, not as a string.
- `unfold_block_and_mark_sync` is called twice per context (`notion_api_utils.py:171-172`). This is modelled as one walk over a fixed snapshot.
- `_clean_id` inside the API wrappers' URLs: writes carry ids as given, because cleaning happens in the transport.
- Page ids assigned by Notion: `Vocabulary.FreshId` picks an id no existing page has.
- The title filter of `query_database` is modelled as exact string equality. The Notion filter "Contexts" of `get_contexts_from_database` is not modelled: the query result is the input `items`.
- `get_page`, `get_block`, `get_database`, `_reset_sync_state`: transport wrappers or not used by the run.
- `utilitis.py`: the first copy (`:1-171`), `get_block_info` and `detect_block_type` failures (`:191-194`), the second `get_block_children` (`:206-221`), the failed-request `break` (`:296-298`), `get_database_info`, and the HTTP call of `append_linked_block_to_target_block`. These are dead code or transport.
- `test.py`, `main.py` and `settings.py` are not part of this model: broken orchestration, glue, or constants.
- DictionaryLookup.Classify: the text of the two error messages, which embed Python's `repr` of the data, is not modelled. The outcome carries the status and the data instead.
- DictionaryLookup.Json: fractional JSON numbers are not modelled.
- DictionaryLookup.ShortDefIn: the exception text of the `TypeError` is not modelled.
