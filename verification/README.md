# Verified models of the platform's stateful cores

This project models, in Dafny, the parts of the repository in which order, shared state or exact arithmetic
carry the meaning, and proves what those parts promise.

| module | what it models |
|---|---|
| `Substitution` | template variables of dashboard queries, replaced in a loop over a map |
| `JsonPath`, `PatchOrder`, `PatchApply`, `PatchMeaning`, `DashboardDocument` | the dashboard patch engine: paths, the reordering of array removals, edits of a JSON tree, what these are for, and the same edits done in place on shared objects |
| `ClientCache` | the client cache under concurrent calls and `Close` |
| `Batching`, `GraphSync`, `GraphBuilder`, `GraphMeaning` | building the graph of a repository, what the graph says of it, and pushing it to Neo4j |
| `VectorSync` | pushing embedded documents to Qdrant |
| `LogGrouping` | grouping and deduplication of log lines |
| `Sessions`, `ProxiedTools` | the life of sessions, and the registration and routing of proxied tools |
| `TextWrap`, `PdfWriter`, `Decimal` | line wrapping and the PDF file with its cross-reference table |
| `AlertRefIds` | reference ids of alert queries |
| `Common` | options and a lemma on sequences |

Code that changes things step by step is a method with loops, or a class whose methods update its fields,
proved equal to a specification function; the promises are lemmas about these functions. Concurrent parts
(`ClientCache`, `Sessions`) are state machines whose actions are single steps of single threads, so that a
lemma about reachable states speaks about every interleaving. Loops over maps take an order that the caller
does not control, or draw the next key with `:|`, so that no result depends on one order.

Four kinds of results go beyond a promise that simply holds:

* Meanings that are stated apart from the code: a patch operation by the tree it leaves (`PatchMeaning.OperationMeans`), a
  query by the pieces it is written of (`Substitution.WholeMeans`), the graph of a repository by the names in its files
  (`GraphMeaning.GraphIs`), a stored graph and a stored collection by the rows and documents pushed
  (`GraphSync.RowsAreStored`, `VectorSync.DocumentsStored`), a PDF file by a reader that begins at its last line
  (`PdfWriter.ReadsBack`, `PdfWriter.PageLayout`).
* Exact conditions. Substitution of `$`-free values for variables named by words is independent of the map order
  exactly for safe queries; calls to the cache get a client of their own key exactly when no two keys in use share a
  flight key; a graph push mirrors its payload exactly when nothing left over carries the scan id and the batch size is
  positive, or the payload was there already; a batch of removals deletes what it names exactly when it is sortable; log
  lines are merged exactly when their readings agree, and a line is never merged with one of different content exactly
  when it is unambiguous; a table entry has 20 bytes exactly below 10^10; a tool name parses back exactly when the
  datasource type has no underscore.
* Places where the code does not do what its comments, documentation or shape suggest.
  - `client_cache.go:133-134` says that `%v` gives the full key. A type with a `String` method is printed by that
    method, which redacts the secrets. Calls get clients of their own keys if and only if no two keys in use agree in
    URL, organisation, having an API key and having a user name (`ClientCache.OwnClientIffSecretsAgree`); two API keys
    for one server are enough to break it (`ClientCache.RedactedKeysShareFlights`).
  - The reordering of removals does not trim white space and the edit does. The batch " $.panels[0]", "$.panels[1]" names
    the first two of three panels and deletes the first and the last (`PatchApply.BlankBeforeFirstPanel`). A batch of
    removals of distinct elements of one array deletes these elements if and only if every removal is at its position
    from the greatest index down, or is read as of the same array as the removal at that position
    (`PatchApply.BatchRemovesAllIffSortable`).
  - Scan ids have a resolution of one second (`build_rag_artifacts.py:14-15`), so a second push within a second
    leaves stale data behind (`GraphSync.SecondPushWithinASecond`, `VectorSync.SecondPushWithinASecond`).
  - A negative batch size pushes nothing and then sweeps everything, so a new scan mirrors its payload only if that has
    no nodes (`GraphSync.NegativeBatchSizeEmptiesProject`, `GraphSync.PushGraphPayload`). A push to Qdrant then stores
    and deletes nothing and reports both (`VectorSync.PushEmbeddedPayload`).
  - Edges of the graph may begin at a configuration key that has no node; a push drops exactly these
    (`GraphBuilder.BackedEdgesAreStored`; `GraphBuilder.OneUnbackedEdge` has one).
  - A service dependency with the name of the repository turns the node of the repository into a reference
    (`GraphBuilder.RepositoryNodeIs`).
  - A label value that contains a printed line of a later label makes two label maps one group. Every map with proper
    names has the key of exactly one plain map, and is itself that map if and only if no value forges a line
    (`LogGrouping.PlainIffAlone`, `LogGrouping.KeysCoincideIffPlainFormsDo`). Every such map of two or more
    labels shares its key with another (`LogGrouping.AloneIffSinglePlainLabel`).
  - A level, message, path or error type that contains the mark by which its key is closed makes two different lines one.
    Two lines are merged if and only if their readings agree (`LogGrouping.DedupKeysCoincideIffReadingsDo`); among lines
    that forge nothing, if and only if their contents do. Every forging line is merged with one that forges nothing
    (`LogGrouping.OneUnforgedContentPerKey`). A line is never merged with one of different content if and only if it is
    unambiguous: it forges nothing, and no mark stands where another line could have forged it
    (`LogGrouping.AloneIffUnambiguous`). Lines whose fields have no newlines are.
  - `dashboard.go:37` promises that `$.panels[2]/-` appends to an array nested at index 2. The index is dropped and the
    value is appended to the panels (`PatchApply.IndexedAppendGoesToThePanels`).
  - An explicit reference id can collide with an automatic one: "B" before an id-less second query does
    (`AlertRefIds.IdsDistinctIffExplicitApart`, `AlertRefIds.ExplicitBRepeats`).
  - The wrapped text of a report is never empty, so "No content available." is never written
    (`TextWrap.WrapPdfText`).
* Isolation and atomicity: statements of different projects may interleave without effect on each other; at no
  moment of a Qdrant push is an id of the new scan missing that was there before; a failed patch operation leaves
  the dashboard unchanged.

## Model

| member | source | states |
|---|---|---|
| `Substitution.ReplaceSimpleDollarVar` | skuld-mcp-grafana/tools/dashboard_helpers.go:355-375 | the byte loop computes one left-to-right pass that replaces `$name` only where no word character follows |
| `Substitution.SubstituteSimpleVars` | skuld-mcp-grafana/tools/dashboard_helpers.go:336-340 | the map loop composes the passes in the order in which the map is visited |
| `Substitution.AnyOrderIsSimultaneous` | skuld-mcp-grafana/tools/dashboard_helpers.go:336-340 | for a safe query, variables named by words and `$`-free values every order gives the single simultaneous substitution |
| `Substitution.OrderIndependentIffSafe` | skuld-mcp-grafana/tools/dashboard_helpers.go:321-375 | for variables named by words, a query is safe if and only if no choice of `$`-free values lets two orders differ |
| `Substitution.OtherNamesAreNotCovered` | skuld-mcp-grafana/tools/dashboard_helpers.go:355-375 | for names with other characters it is not the condition: "$a-b" with the variables "a" and "a-b" |
| `Substitution.UncrowdedQueriesAreSafe` | skuld-mcp-grafana/tools/dashboard_helpers.go:355-380 | queries in which no `$` directly follows a `$` or a word character are safe |
| `Substitution.AnyValuesIffUnmentioned` | skuld-mcp-grafana/tools/dashboard_helpers.go:336-340 | for variables named by words and arbitrary values, order never shows if and only if there is at most one variable or none is mentioned |
| `Substitution.SubstituteVariables` | skuld-mcp-grafana/tools/dashboard_helpers.go:321-352 | the three steps in their order: braces, simple variables, brackets; for variables named by words, a query written of quiet text and of `$name`, `${name}`, `${name:option}` and `[[name]]` has each known one replaced by its value and each unknown one left as it is, in any map order |
| `Substitution.WholeMeans` | skuld-mcp-grafana/tools/dashboard_helpers.go:321-352 | the result for such a query is what its pieces mean, one after the other, whatever the order of the map |
| `Substitution.WholeBraced` | skuld-mcp-grafana/tools/dashboard_helpers.go:325-334 | `${name}` and `${name:option}` give the value of a known variable, all other braces themselves, and then comes the result of the rest |
| `Substitution.WholeBracketed` | skuld-mcp-grafana/tools/dashboard_helpers.go:342-349 | so does `[[name]]` |
| `Substitution.JobInBrackets` | skuld-mcp-grafana/tools/dashboard_helpers.go:342-349 | `up{job="[[job]]"}` with any value for `job` becomes that value in quotes |
| `Substitution.WordChars` | skuld-mcp-grafana/tools/dashboard_helpers.go:378-380 | the word characters, by their codes |
| `Substitution.WholeSubstitution` | skuld-mcp-grafana/tools/dashboard_helpers.go:321-352 | when the brace-expanded query is safe, the whole result does not depend on the map order (variables named by words, `$`-free values) |
| `Substitution.WholeIndependentIffSafe` | skuld-mcp-grafana/tools/dashboard_helpers.go:321-352 | where no braced variable stands directly behind a `$word`: the whole result is independent of the map order, for variables named by words and all `$`-free values, if and only if the query without its braced variables is safe |
| `AlertRefIds.IndexToRefId` | skuld-mcp-grafana/tools/alerting_manage_rules_types.go:124-134 | the right-to-left loop writes the numeral of the bijective base-26 numbering |
| `AlertRefIds.PositionOfRefId` | skuld-mcp-grafana/tools/alerting_manage_rules_types.go:121-134 | the position of an automatic id is the number it was made from |
| `AlertRefIds.RefIdOfPosition` | skuld-mcp-grafana/tools/alerting_manage_rules_types.go:121-134 | every non-empty text of letters A to Z is the id of its position, so the numbering is onto |
| `AlertRefIds.RefIdInjective` | skuld-mcp-grafana/tools/alerting_manage_rules_types.go:121-134 | two positions with one id are one position |
| `AlertRefIds.ConvertAlertQueries` | skuld-mcp-grafana/tools/alerting_manage_rules_types.go:138-180 | converts every query at its position: an automatic id where there is none, the range from 600 to 0 where there is none and the datasource is no expression, all else kept; or reports the first nil entry |
| `AlertRefIds.IdsDistinctIffExplicitApart` | skuld-mcp-grafana/tools/alerting_manage_rules_types.go:138-160 | the ids of a rule are distinct if and only if the explicit ones repeat neither each other nor an automatic one |
| `AlertRefIds.ExplicitBRepeats` | skuld-mcp-grafana/tools/alerting_manage_rules_types.go:138-160 | an explicit "B" before an id-less second query gives the rule one id twice |
| `JsonPath.ParseJSONPath` | skuld-mcp-grafana/tools/dashboard.go:533-565 | the loop over the matches of the path pattern yields exactly the segments of the scanner |
| `JsonPath.ParseJoin` | skuld-mcp-grafana/tools/dashboard.go:512-565 | printing printable segments, joining them with dots and parsing gives the segments back |
| `JsonPath.ParsedSegments` | skuld-mcp-grafana/tools/dashboard.go:533-565 | what a parse can yield: non-empty separator-free keys, and no segment both indexed and append |
| `JsonPath.RoundTrip` | skuld-mcp-grafana/tools/dashboard.go:512-565 | the round trip holds if and only if every segment is printable |
| `JsonPath.Separators` | skuld-mcp-grafana/tools/dashboard.go:533-565 | the characters that end a key, by their codes |
| `JsonPath.HugeIndexIsZero` | skuld-mcp-grafana/tools/dashboard.go:540-560 | an index is the number it denotes, or 0 if a 64-bit integer cannot hold it |
| `PatchOrder.FindRemoval` | skuld-mcp-grafana/tools/dashboard.go:160-192 | whether an operation removes an array element, of which array and at which index |
| `PatchOrder.CollectRemoves` | skuld-mcp-grafana/tools/dashboard.go:157-199 | the table of removals for each array path, in batch order |
| `PatchOrder.FindDuplicate` | skuld-mcp-grafana/tools/dashboard.go:203-210 | finds a repeated index in a group if and only if there is one |
| `PatchOrder.PlaceGroup` | skuld-mcp-grafana/tools/dashboard.go:223-238 | puts the operations of a group at its own positions, greatest index first, and moves nothing else |
| `PatchOrder.FillPositions` | skuld-mcp-grafana/tools/dashboard.go:234-237 | the assignments to the sorted positions, one after the other |
| `PatchOrder.OrderedIsUnique` | skuld-mcp-grafana/tools/dashboard.go:150-241 | at most one arrangement keeps other operations in place and lets each array descend, so map order leaves no trace |
| `PatchOrder.ArrangementPermutes` | skuld-mcp-grafana/tools/dashboard.go:219-241 | a reordering keeps the batch as a multiset |
| `PatchOrder.DuplicatesCannotDescend` | skuld-mcp-grafana/tools/dashboard.go:203-217 | a batch with a repeated removal has no such arrangement |
| `PatchOrder.SortArrayRemovesDescending` | skuld-mcp-grafana/tools/dashboard.go:150-241 | fails if and only if one index of one array is removed twice, naming a pair; otherwise yields the one reordering |
| `PatchMeaning.SameArrayIff` | skuld-mcp-grafana/tools/dashboard.go:178-192 | removals along printable segments are taken for removals from one array if and only if their paths agree but for the last index |
| `PatchMeaning.OneStays` | skuld-mcp-grafana/tools/dashboard.go:219-241 | a batch of one operation is never refused or changed |
| `PatchApply.SetChangesOnePlace` | skuld-mcp-grafana/tools/dashboard.go:471-510 | a set path reads back the new value, and every location apart from it is as before |
| `PatchApply.RemoveFieldChangesOnePlace` | skuld-mcp-grafana/tools/dashboard.go:649-667 | a removed field is gone, and every location apart from it is as before |
| `PatchApply.RemoveElementShifts` | skuld-mcp-grafana/tools/dashboard.go:649-667 | a removed element lets the later ones move down, and every location apart from the array is as before |
| `PatchApply.DescendingDeletes` | skuld-mcp-grafana/tools/dashboard.go:146-150 | deleting distinct indices one by one in descending order is deleting them all at once |
| `PatchApply.SequentialIffDescending` | skuld-mcp-grafana/tools/dashboard.go:146-150 | on distinct elements, deleting distinct indices one by one deletes what they name if and only if they descend |
| `PatchApply.RemovalsRun` | skuld-mcp-grafana/tools/dashboard.go:97-111 | removals on one array, in any order, delete by position from that array, up to the first index out of range, and do nothing else |
| `PatchApply.SeenWithItsIndex` | skuld-mcp-grafana/tools/dashboard.go:160-192 | whatever white space surrounds a path: what the reordering takes for a removal has the index that the edit removes |
| `PatchApply.DescendsIffSortable` | skuld-mcp-grafana/tools/dashboard.go:150-241 | the reordering puts distinct removals into descending order if and only if the batch is sortable |
| `PatchApply.BatchRemovesAllIffSortable` | skuld-mcp-grafana/tools/dashboard.go:77-111 | reordered removals of distinct elements of one array, with any paths, leave exactly the elements not named, in order, and the rest unchanged, if and only if the batch is sortable |
| `PatchApply.TidyIsSortable` | skuld-mcp-grafana/tools/dashboard.go:160-192 | a batch whose paths have no surrounding white space is sortable |
| `PatchApply.RemovalsRightIffDescending` | skuld-mcp-grafana/tools/dashboard.go:97-111 | removals applied in the order they are in delete the named elements if and only if they descend |
| `PatchApply.BlankChangesArrayPath` | skuld-mcp-grafana/tools/dashboard.go:160-171 | a blank in front of a path leaves the edit the same and moves the removal to another group |
| `PatchApply.UntidyBatchDeletesWrongElement` | skuld-mcp-grafana/tools/dashboard.go:160-241 | two ascending removals, the first with a blank in front, never delete the two elements they name |
| `PatchApply.BlankBeforeFirstPanel` | skuld-mcp-grafana/tools/dashboard.go:77-241 | the batch " $.panels[0]", "$.panels[1]" deletes the first and the last of three panels |
| `PatchApply.AppendDropsIndex` | skuld-mcp-grafana/tools/dashboard.go:533-565 | the path pattern reads `key[i]/-` as an append to `key`, without the index |
| `PatchApply.AppendIgnoresIndex` | skuld-mcp-grafana/tools/dashboard.go:618-631 | an append with an index edits any dashboard as the append without it |
| `PatchApply.IndexedAppendGoesToThePanels` | skuld-mcp-grafana/tools/dashboard.go:618-631 | `$.panels[i]/-` appends the value to the panels, whatever `i` is |
| `PatchMeaning.SetIff` | skuld-mcp-grafana/tools/dashboard.go:471-510 | setting along a path succeeds if and only if there is a dashboard with the value at the addressed place and all apart from it as before, and yields that one dashboard |
| `PatchMeaning.RemoveIff` | skuld-mcp-grafana/tools/dashboard.go:471-510 | so does removing, with the field gone or the later elements moved up |
| `PatchMeaning.WhyEditFails` | skuld-mcp-grafana/tools/dashboard.go:568-667 | an edit fails with an error if and only if the first segment that cannot be followed or edited has that reason |
| `PatchMeaning.OperationMeans` | skuld-mcp-grafana/tools/dashboard.go:97-111 | a batch of one operation leads to a dashboard if and only if the operation asks for it: "add" and "replace" for its value at the place, "remove" for nothing there; no other word leads anywhere |
| `PatchMeaning.OperationFails` | skuld-mcp-grafana/tools/dashboard.go:97-111 | and it is reported as unsupported, or with the error of its path or of its edit, exactly when that is the reason |
| `PatchMeaning.BatchInParts` | skuld-mcp-grafana/tools/dashboard.go:97-111 | a batch in two parts acts as the first and then the second |
| `PatchMeaning.BatchMeans` | skuld-mcp-grafana/tools/dashboard.go:97-111 | a batch leads to a dashboard if and only if a chain of dashboards, one operation a step, does |
| `PatchMeaning.PathsRefused` | skuld-mcp-grafana/tools/dashboard.go:473-491 | filters, wildcards and paths without a key are refused, each with its own error, and nothing else is |
| `PatchMeaning.TrimOf` | skuld-mcp-grafana/tools/dashboard.go:471-473 | trimming gives the text that has only white space around it and none at its ends |
| `PatchApply.SpaceCodes` | skuld-mcp-grafana/tools/dashboard.go:471-473 | white space, by its codes |
| `PatchMeaning.PathReads` | skuld-mcp-grafana/tools/dashboard.go:471-492 | printable segments behind "$.", with white space around, are the segments of the path |
| `PatchMeaning.BareRoot` | skuld-mcp-grafana/tools/dashboard.go:474-477 | "$." with nothing behind it is a field |
| `PatchMeaning.FieldSet` | skuld-mcp-grafana/tools/dashboard.go:97-103 | "add" and "replace" at `$.key` set the field, whether it was there or not |
| `PatchMeaning.FieldAppended` | skuld-mcp-grafana/tools/dashboard.go:618-631 | at `$.key/-` they append to the array that must be there |
| `PatchMeaning.FieldRemoved` | skuld-mcp-grafana/tools/dashboard.go:649-667 | "remove" at `$.key` takes the field away, or changes nothing |
| `DashboardDocument.FollowNavigates` | skuld-mcp-grafana/tools/dashboard.go:587-615 | following references from an object is navigating the tree the object stands for |
| `DashboardDocument.ChangeBelow` | skuld-mcp-grafana/tools/dashboard.go:471-510 | changing the one object a path reaches writes the tree at that location and nowhere else |
| `DashboardDocument.EditMatches` | skuld-mcp-grafana/tools/dashboard.go:618-667 | setting and removing in place edit the fields of the object's tree |
| `DashboardDocument.Document.FindHolder` | skuld-mcp-grafana/tools/dashboard.go:494-502 | the walk ends at the object that holds the target, or with the error of the tree's navigation |
| `DashboardDocument.Document.ApplyJSONPath` | skuld-mcp-grafana/tools/dashboard.go:471-510 | an in-place operation has the effect of the edit on the tree; an operation that fails leaves the dashboard unchanged |
| `DashboardDocument.Document.ApplyOperations` | skuld-mcp-grafana/tools/dashboard.go:97-111 | the loop over the operations: the contents pass through a chain of dashboards in which each operation does what it asks for, up to the end or to one that cannot be done, which is reported as it fails |
| `DashboardDocument.UpdateWithPatches` | skuld-mcp-grafana/tools/dashboard.go:77-111 | reorders the batch and passes through the chain of its operations in place, or is rejected with the dashboard unchanged; an update of one operation succeeds if and only if there is a dashboard it asks for, and ends with it, and otherwise leaves the dashboard as it was |
| `DashboardDocument.RemoveElements` | skuld-mcp-grafana/tools/dashboard.go:77-111 | an update of removals of distinct elements of one array is never rejected, and leaves exactly the other elements if and only if the batch is sortable |
| `ClientCache.CountersAndStores` | skuld-mcp-grafana/client_cache.go:117-160 | in every interleaving misses equal stores, hits and misses never exceed lookups, and a key is stored once between two closes |
| `ClientCache.CachedIsHit` | skuld-mcp-grafana/client_cache.go:117-136 | after any run, a new call for a cached key takes the cached client as a hit, without a flight, and one for any other key goes on to a flight |
| `ClientCache.StoresNeverOverwrite` | skuld-mcp-grafana/client_cache.go:148-154 | no action replaces a stored client; only `Close` takes one out |
| `ClientCache.ReturnsWithinFlightKey` | skuld-mcp-grafana/client_cache.go:122-159 | a call returns a client that was created for a key with its flight key |
| `ClientCache.OwnClientIffSeparated` | skuld-mcp-grafana/client_cache.go:122-159 | every call in every run that asks for these keys only gets a client of its own key, if and only if no two of them have one flight key |
| `ClientCache.RedactedKeysCoincideIff` | skuld-mcp-grafana/client_cache.go:45-49 | two keys print the same if and only if they agree in URL, organisation, having an API key and having a user name |
| `ClientCache.OwnClientIffSecretsAgree` | skuld-mcp-grafana/client_cache.go:122-159 | with the flight key of the program calls get their own clients if and only if no two keys in use differ in secrets only |
| `ClientCache.RedactedKeysShareFlights` | skuld-mcp-grafana/client_cache.go:45-49 | with two API keys for one server in use, some run hands a call the client of the other key |
| `ClientCache.RefinesMemoTable` | skuld-mcp-grafana/client_cache.go:117-160 | with a flight key that separates the keys in use and no `Close` there is one client per key and every call for the key gets it |
| `ClientCache.MemoTableSteps` | skuld-mcp-grafana/client_cache.go:117-160 | each action leaves the sequential memo table alone or makes the first client of a key |
| `ClientCache.NobodyIsStuck` | skuld-mcp-grafana/client_cache.go:117-160 | a call that has not returned can step, or waits for a leader that can |
| `Batching.Gather` | chunk&graph/push_graph_to_neo4j.py:110-114 | the dictionary of lists: keys in order of first use, under each key its values in order |
| `Batching.FirstSeenInOrder` | chunk&graph/push_graph_to_neo4j.py:110-114 | a key listed before another is first used before it |
| `Batching.MembersStand` | chunk&graph/push_graph_to_neo4j.py:110-114 | the values under a key are those at all places that have it, in the order of the places |
| `Batching.Chunked` | chunk&graph/push_graph_to_neo4j.py:11-13 | consecutive batches of the given size, the last of which may be smaller; none for a negative size |
| `Batching.ConcatChunks` | chunk&graph/push_graph_to_neo4j.py:11-13 | the batches put together are the values |
| `Batching.GroupsConserve` | skuld-mcp-grafana/tools/loki.go:866-878 | gathering under keys loses and invents nothing |
| `GraphSync.PushNodes` | chunk&graph/push_graph_to_neo4j.py:110-127 | groups by label and merges batch by batch; a batch size of zero is refused before any merge; with a positive one every row with a label for a kind is stored under that kind, as the last row of its id says |
| `GraphSync.PushEdges` | chunk&graph/push_graph_to_neo4j.py:130-147 | the same for relationships, grouped by type: between all stored nodes with the ids of a row there is a relationship of its kind |
| `GraphSync.SanitizedIsLabel` | chunk&graph/push_graph_to_neo4j.py:16-22 | every sanitized kind is a label: of the same length with `_` for what is no label character, `_` in front of a leading digit, and "GraphNode" for nothing |
| `GraphSync.LabelsStay` | chunk&graph/push_graph_to_neo4j.py:16-22 | a label is its own sanitized kind |
| `GraphSync.KindsAreLabels` | chunk&graph/push_graph_to_neo4j.py:113-133 | rows are merged under their kind where that is a label, and under "GraphNode" or "RELATED_TO" where they have none |
| `GraphSync.RowsAreStored` | chunk&graph/push_graph_to_neo4j.py:110-147 | after a push in any mode every row with a label for a kind is stored under that kind, an edge between the nodes of its ends, as the last row of its id or ends says |
| `GraphSync.KindsKeptApart` | chunk&graph/push_graph_to_neo4j.py:130-147 | edges of two kinds between the same nodes are two relationships |
| `GraphSync.NodesPushed` | chunk&graph/push_graph_to_neo4j.py:110-127 | whatever the batch size, the last row of each label and id overwrites that node and no other changes |
| `GraphSync.MergesMean` | chunk&graph/push_graph_to_neo4j.py:110-147 | after the merges: the payload over what was there, and an edge between any two stored nodes that bear the ids of a row |
| `GraphSync.RunKeepsWellFormed` | chunk&graph/push_graph_to_neo4j.py:110-169 | every statement keeps relationships between stored nodes of their own project, so an aborted push does too |
| `GraphSync.PushedAndSwept` | chunk&graph/run_full_workflow.py:314-319 | what a push with sweep does to any one node and relationship, leftovers included |
| `GraphSync.MirrorsIffNoLeftovers` | chunk&graph/run_full_workflow.py:314-319 | the project's stored graph is exactly the payload if and only if nothing left over carries the scan id |
| `GraphSync.NewScanMirrors` | chunk&graph/run_full_workflow.py:314-319 | with a new scan id it is, after any history of statements, for every batch size, and when nodes changed label |
| `GraphSync.SecondPushWithinASecond` | chunk&graph/run_full_workflow.py:314-319 | two pushes under one scan id: a node that the second one does not have stays |
| `GraphSync.ProjectsAreIsolated` | chunk&graph/push_graph_to_neo4j.py:110-169 | however statements of several projects interleave, each project's part is what its own statements make of it |
| `GraphSync.MirrorsAmongOthers` | chunk&graph/run_full_workflow.py:314-319 | the exact condition of a push, for every batch size, also holds with pushes of other projects between its batches |
| `GraphSync.OthersUntouched` | chunk&graph/run_full_workflow.py:314-319 | a push, complete or broken off anywhere, leaves every other project as it was |
| `GraphSync.EmptyStoreMirrors` | chunk&graph/run_full_workflow.py:300-315 | into a cleared store the payload goes exactly, without a sweep |
| `GraphSync.MirrorsIffAlreadyPushed` | chunk&graph/push_graph_to_neo4j.py:11-13 | with a batch size that is not positive a push with sweep mirrors the payload if and only if what carries the scan id is the payload already |
| `GraphSync.NegativeBatchSizeEmptiesProject` | chunk&graph/push_graph_to_neo4j.py:11-13 | with a new scan id it leaves nothing of the project, and mirrors exactly the payloads without nodes |
| `GraphSync.PushGraphPayload` | chunk&graph/run_full_workflow.py:276-327 | the whole push: its error cases, the store it ends with for every batch size and every combination of recreate and delete-missing, that every row is stored under its own kind, and exactly when the store mirrors the payload |
| `GraphBuilder.Builder.AddNode` | chunk&graph/build_rag_artifacts.py:38-44 | the last description of an id wins, and the id is listed once, at its first place |
| `GraphBuilder.Builder.AddEdge` | chunk&graph/build_rag_artifacts.py:46-54 | a triple is listed once and keeps its first metadata |
| `GraphBuilder.ReplayMeans` | chunk&graph/build_rag_artifacts.py:33-54 | whatever is inserted into a graph: what was there keeps its place, edges keep their metadata, nodes get their last description, and ids and triples stay listed once |
| `GraphBuilder.AddFiles` | chunk&graph/build_rag_artifacts.py:583-650 | the first pass inserts the nodes of files, types, methods and endpoints with kinds and titles, and their edges, in this order, and fills the tables |
| `GraphBuilder.FilesResolvable` | chunk&graph/build_rag_artifacts.py:531-552 | whatever the tables of the first pass resolve a name to has a node |
| `GraphBuilder.LinkFiles` | chunk&graph/build_rag_artifacts.py:765-794 | the second pass inserts exactly the edges of references that resolve, those of parameters with the parameter name |
| `GraphBuilder.AddConfigs` | chunk&graph/build_rag_artifacts.py:796-837 | inserts the nodes and edges of the configuration chunks in order; the table has the methods that use each key |
| `GraphBuilder.AddServices` | chunk&graph/build_rag_artifacts.py:839-909 | inserts the nodes and edges of service dependencies, of their direct users and of the users of their keys, the latter with the key |
| `GraphBuilder.BuildGraph` | chunk&graph/build_rag_artifacts.py:563-909 | the loops end with the graph of the analysis: ids and triples listed once, every id with its last description, every triple with its first metadata |
| `GraphBuilder.ClassNodeIs` | chunk&graph/build_rag_artifacts.py:591-606 | a type name has a node if and only if a type bears it, with the kind and name of the last one |
| `GraphBuilder.ConfigNodeIs` | chunk&graph/build_rag_artifacts.py:797-808 | a configuration key has a node if and only if a chunk has the key |
| `GraphBuilder.RepositoryNodeIs` | chunk&graph/build_rag_artifacts.py:564-566 | the node of the repository is one of a repository unless a service dependency bears its name; then it is a reference |
| `GraphBuilder.AcceptsNamesFirstParameter` | chunk&graph/build_rag_artifacts.py:791-794 | an edge to an accepted type is there if and only if a parameter resolves to the type, and names the first that does, of the first method of the id |
| `GraphBuilder.CallsTellHow` | chunk&graph/build_rag_artifacts.py:866-890 | a call of an external service is there if and only if a dependency reaches the caller, and carries no key if the first one that does names the caller, else its first key that the caller uses |
| `GraphBuilder.OtherEdgesCarryNothing` | chunk&graph/build_rag_artifacts.py:565-909 | edges of all other kinds carry no metadata |
| `GraphMeaning.GraphIs` | chunk&graph/build_rag_artifacts.py:563-909 | for every analysis: an edge or a node is in the graph if and only if a file, type, method, configuration chunk or service dependency asks for it, by the names they contain, with metadata or a description that is asked for |
| `GraphMeaning.TypeReferenceIs` | chunk&graph/build_rag_artifacts.py:531-541 | a reference resolves to the type of its clean name, or else to the first type of its simple name |
| `GraphMeaning.MethodReferenceIs` | chunk&graph/build_rag_artifacts.py:544-552 | a reference `owner.name` resolves to the methods of that name of the type `owner`, or else of all types of that simple name |
| `GraphMeaning.CleanNames` | chunk&graph/build_rag_artifacts.py:531-537 | a plain type name, the array over it, and the generic type with any arguments have that name as their clean name |
| `GraphMeaning.NextWord` | chunk&graph/build_rag_artifacts.py:103-106 | collapsing the white space of a type keeps its words, with one blank between any two |
| `GraphMeaning.BlankCodes` | chunk&graph/build_rag_artifacts.py:103-106 | white space, by its codes |
| `GraphMeaning.SimpleIs` | chunk&graph/build_rag_artifacts.py:540-541 | the simple name is what stands behind the last dot |
| `GraphMeaning.MethodsTellApart` | chunk&graph/build_rag_artifacts.py:109-116 | for owners without `#`, names without `(` and non-empty types without commas, two methods share an id if and only if owner, name and parameter types are the same |
| `GraphMeaning.RunIsWritten` | chunk&graph/build_rag_artifacts.py:73-121 | how the ids and titles of an exposed method, of its endpoint and of the other nodes are written |
| `GraphBuilder.EdgesJoinNodes` | chunk&graph/build_rag_artifacts.py:563-909 | for every analysis each edge ends at a node, and begins at one unless it comes from a configuration key that a service names and no chunk has |
| `GraphBuilder.OneUnbackedEdge` | chunk&graph/build_rag_artifacts.py:863-864 | a repository with one service dependency, whose key has no chunk, has an edge that begins at no node |
| `GraphBuilder.NodesStoredOnce` | chunk&graph/push_graph_to_neo4j.py:110-127 | a push stores one node for each id of a graph, under the label of its kind and with its title |
| `GraphBuilder.BackedEdgesAreStored` | chunk&graph/push_graph_to_neo4j.py:130-147 | of the built edges a push stores exactly those with a node at either end |
| `VectorSync.BuildQdrantPoints` | chunk&graph/push_to_qdrant.py:136-179 | builds for every document in order a point with its id and its content, or fails exactly when one has no id or no vector |
| `VectorSync.ResolvedIsIdentified` | chunk&graph/push_to_qdrant.py:121-150 | the id of a point is the qdrant id of its document if the store accepts that, or else its id if the store accepts that, or else the name-based uuid of the text of its id |
| `VectorSync.ChunksShareIdIff` | chunk&graph/build_rag_artifacts.py:29-30 | under an injective `uuid5` the points of two chunks have one id if and only if project and chunk id print alike |
| `VectorSync.ChunksOfOneProjectApart` | chunk&graph/build_rag_artifacts.py:29-30 | so the documents of one project with different chunk ids have different ids |
| `VectorSync.NamedDocumentsApart` | chunk&graph/push_to_qdrant.py:145-150 | and so have documents with different ids that are no uuids and without a qdrant id |
| `VectorSync.DocumentsStored` | chunk&graph/run_full_workflow.py:257-265 | documents with different ids, labelled with project and scan: after the upserts and after the deletions each has its point, with its vector and its content |
| `VectorSync.AsManyAsDocuments` | chunk&graph/run_full_workflow.py:257-265 | and a mirrored project has as many points as there are documents |
| `VectorSync.NamesCollideIffExtended` | chunk&graph/build_rag_artifacts.py:29-30 | two projects can share a text of this form if and only if one id extends the other by a colon and more |
| `VectorSync.ChunksCollideIffExtended` | chunk&graph/build_rag_artifacts.py:662-914 | and with the ids of chunks that the program makes if and only if one project id goes on like the id of a chunk |
| `VectorSync.PrefixTexts` | chunk&graph/build_rag_artifacts.py:662-914 | how the ids of chunks begin |
| `VectorSync.ColonFreeProjectsApart` | chunk&graph/build_rag_artifacts.py:29-30 | the points of chunks of two projects without colons never have one id |
| `VectorSync.QdrantClient.ScrollPoints` | chunk&graph/push_to_qdrant.py:83-105 | the store's contract for a page: the next filtered ids in order, and the first one left over |
| `VectorSync.CollectStalePointIds` | chunk&graph/push_to_qdrant.py:192-218 | the paged loop returns exactly the stale ids, each once |
| `VectorSync.DeleteStale` | chunk&graph/run_full_workflow.py:260-265 | deletes exactly the stale points, passing only through states in which some of them are gone |
| `VectorSync.SweptCounts` | chunk&graph/run_full_workflow.py:260-265 | as many points go as are counted, and these are the project's points of other scans |
| `VectorSync.UpsertBatches` | chunk&graph/run_full_workflow.py:257-258 | upserts all points in order, passing only through states in which a first part of them is in place |
| `VectorSync.PushEmbeddedPayload` | chunk&graph/run_full_workflow.py:190-273 | the whole push, for every batch size: exactly when it fails in which way, the collection and the counts it ends with, the vector length a new collection is made for, the point of every labelled document with an id of its own, and every state of the collection on the way |
| `VectorSync.NothingMissingOnTheWay` | chunk&graph/run_full_workflow.py:257-265 | at no moment is an id of the new scan missing that was there, and once an old point is gone all new ones are in place |
| `VectorSync.MirrorsIff` | chunk&graph/run_full_workflow.py:257-265 | the project ends with exactly the pushed points if and only if these carry project and scan and no leftover has the scan id |
| `VectorSync.SecondPushWithinASecond` | chunk&graph/run_full_workflow.py:257-265 | two pushes under one scan id: a point that the second one does not have stays |
| `VectorSync.OthersUntouchedIff` | chunk&graph/run_full_workflow.py:257-265 | other projects' points stay as they are if and only if the push uses none of their ids |
| `LogGrouping.LabelsGroupKey` | skuld-mcp-grafana/tools/loki.go:840-857 | the printed key is a function of the label map, whatever the order of traversal |
| `LogGrouping.LessIs` | skuld-mcp-grafana/tools/loki.go:840-857 | texts are in the order of the first character in which they differ, the shorter one first where none does |
| `LogGrouping.GroupKeyTellsPlainMapsApart` | skuld-mcp-grafana/tools/loki.go:840-857 | among plain label maps keys are equal if and only if the maps are |
| `LogGrouping.NewlineFreeIsPlain` | skuld-mcp-grafana/tools/loki.go:840-857 | maps without newlines, and without `=` in names, are plain |
| `LogGrouping.PlainFormIsUnique` | skuld-mcp-grafana/tools/loki.go:840-857 | every label map with proper names shares its key with exactly one plain map |
| `LogGrouping.KeysCoincideIffPlainFormsDo` | skuld-mcp-grafana/tools/loki.go:840-857 | two maps with proper names have one key if and only if they have one plain form |
| `LogGrouping.PlainIffAlone` | skuld-mcp-grafana/tools/loki.go:840-857 | a map with proper names is plain if and only if no other plain map has its key |
| `LogGrouping.AloneIffSinglePlainLabel` | skuld-mcp-grafana/tools/loki.go:840-857 | among maps with proper names exactly the plain ones of at most one label share their key with no other |
| `LogGrouping.GroupLogEntriesByLabels` | skuld-mcp-grafana/tools/loki.go:859-881 | one group for each key, in first-seen order, with all lines under the key in order |
| `LogGrouping.GroupsPartitionByLabels` | skuld-mcp-grafana/tools/loki.go:859-881 | for plain labels the groups are the stable partition of the entries by label map |
| `LogGrouping.GroupingConservesLines` | skuld-mcp-grafana/tools/loki.go:859-881 | every entry's line is in exactly one group |
| `LogGrouping.DedupKeyTellsContentApart` | skuld-mcp-grafana/tools/loki.go:883-901 | for lines whose fields do not contain the marks that close them, keys are equal if and only if level, message and, for errors, path and error fields are |
| `LogGrouping.ReadingIsUnforged` | skuld-mcp-grafana/tools/loki.go:883-901 | every line has the key of a line that forges nothing |
| `LogGrouping.DedupKeysCoincideIffReadingsDo` | skuld-mcp-grafana/tools/loki.go:883-901 | any two lines have one key if and only if their readings have the same content |
| `LogGrouping.OneUnforgedContentPerKey` | skuld-mcp-grafana/tools/loki.go:883-901 | among lines that forge nothing a key has one content; a line that forges something is merged with such a line of different content |
| `LogGrouping.AloneIffUnambiguous` | skuld-mcp-grafana/tools/loki.go:883-901 | a line is never merged with a line of different content if and only if it is unambiguous |
| `LogGrouping.SingleLinesAreUnambiguous` | skuld-mcp-grafana/tools/loki.go:883-901 | lines whose fields have no newlines are |
| `LogGrouping.SummarizeLineTimestamps` | skuld-mcp-grafana/tools/loki.go:1020-1043 | the running start and end are the earliest and latest timestamp |
| `LogGrouping.SummarySpans` | skuld-mcp-grafana/tools/loki.go:1020-1043 | the list as it is, or for info and debug its minimum and maximum, or one value when they coincide |
| `LogGrouping.MergedCollects` | skuld-mcp-grafana/tools/loki.go:917-938 | the merged line is the first one with the count of all and their non-empty timestamps in order |
| `LogGrouping.MergeLines` | skuld-mcp-grafana/tools/loki.go:909-938 | the loop with its index table yields one merged line for each key, in first-seen order, skipping nil lines |
| `LogGrouping.DeduplicationConserves` | skuld-mcp-grafana/tools/loki.go:903-947 | occurrences add up to the lines, and the survivors have distinct keys in first-seen order |
| `LogGrouping.TimestampsKept` | skuld-mcp-grafana/tools/loki.go:903-947 | what is left of the timestamps of a key for lines fresh from Loki |
| `LogGrouping.DeduplicateGroupedLines` | skuld-mcp-grafana/tools/loki.go:903-947 | deduplicates every group and keeps its labels |
| `LogGrouping.PipelineConservesEntries` | skuld-mcp-grafana/tools/loki.go:859-947 | after grouping and deduplication the occurrences count every entry that has a line, once |
| `Sessions.CleanedAtMostOnce` | skuld-mcp-grafana/session.go:139-188 | in every run each session state is in exactly one place, so it is cleaned up at most once, by the remover that took it out |
| `Sessions.CloseCleansAll` | skuld-mcp-grafana/session.go:168-188 | when Close is through, everything it found in the map is cleaned up once and the reaper is gone |
| `Sessions.CloseCanFinish` | skuld-mcp-grafana/session.go:139-226 | from every state of every run some continuation ends with the manager closed, the reaper gone and every state that is out of the map cleaned up exactly once |
| `Sessions.ReaperTakesTheIdle` | skuld-mcp-grafana/session.go:212-226 | in every run a pass takes exactly the sessions not created or touched within the TTL before it read the clock |
| `Sessions.ReaperIffTtl` | skuld-mcp-grafana/session.go:71-108 | a TTL of zero or less disables the reaper: in every run a session then leaves the map only when it is removed or the manager is closed; with a positive one the reaper is there |
| `Sessions.IdleTime` | skuld-mcp-grafana/session.go:191-226 | a live session is never idle for longer than the TTL and the time since the last pass read the clock |
| `Sessions.IntervalIs` | skuld-mcp-grafana/session.go:194-197 | the period of the reaper is half the TTL, and at least a tenth of a second |
| `Sessions.IdleTimeOnTime` | skuld-mcp-grafana/session.go:191-209 | in a run in which the reaper reads the clock once a period and gets the lock within a lag, at every moment that is at most the TTL, max(TTL/2, 100 ms) and the lag |
| `Sessions.SessionManager.CreateSession` | skuld-mcp-grafana/session.go:117-126 | a known id keeps its state; a new one gets a fresh state; this is the step of the machine |
| `Sessions.SessionManager.GetSession` | skuld-mcp-grafana/session.go:128-137 | finds the state and touches it; this is the step of the machine |
| `Sessions.SessionManager.RemoveSession` | skuld-mcp-grafana/session.go:139-152 | takes the session out and cleans it up once; these are the two steps of the machine |
| `Sessions.SessionManager.TakeIdle` | skuld-mcp-grafana/session.go:216-226 | the critical section of a pass takes out exactly the idle sessions; this is the step of the machine |
| `Sessions.SessionManager.ReapStaleSessions` | skuld-mcp-grafana/session.go:212-238 | exactly the idle sessions go, each cleaned up once; the others stay as they are; this is a run of the machine |
| `Sessions.SessionManager.CloseSessions` | skuld-mcp-grafana/session.go:173-185 | empties the map and cleans up every session in it once; this is a run of the machine |
| `ProxiedTools.ParseUndoesPrefix` | skuld-mcp-grafana/proxied_tools.go:191-221 | a prefixed name parses back to its parts if and only if the datasource type has no underscore |
| `ProxiedTools.KeysTellDatasourcesApart` | skuld-mcp-grafana/proxied_tools.go:366-368 | keys of datasources with underscore-free types are equal only for the same type and uid |
| `ProxiedTools.LastOfKeyConnects` | skuld-mcp-grafana/proxied_tools.go:357-369 | a key has a client if and only if a discovered datasource of the key was connected to, and it is that of the last such |
| `ProxiedTools.Session.Connect` | skuld-mcp-grafana/proxied_tools.go:345-374 | discovery runs once, and leaves the clients of the connected datasources, or none where it fails |
| `ProxiedTools.CollectTools` | skuld-mcp-grafana/proxied_tools.go:390-410 | in any order of the clients: a key is recorded for a name exactly when its client offers the tool |
| `ProxiedTools.RegisteredTakeUid` | skuld-mcp-grafana/proxied_tools.go:191-212 | every registered tool is a tool of a client under its prefixed name, and has and requires the parameter `datasourceUid` besides its own |
| `ProxiedTools.Session.Register` | skuld-mcp-grafana/proxied_tools.go:376-428 | the server gets tools at most once, and they and the table fit the clients; without clients nothing happens |
| `ProxiedTools.Session.InitializeAndRegister` | skuld-mcp-grafana/proxied_tools.go:328-428 | the clients after the first discovery, the tools that follow from them, and that a session whose tools are registered is never changed again |
| `ProxiedTools.CallTool` | skuld-mcp-grafana/proxied_client.go:94-110 | forwards a call exactly when the client has the tool |
| `ProxiedTools.Handle` | skuld-mcp-grafana/proxied_handler.go:28-87 | the error cases, and routing with the arguments less the uid |
| `ProxiedTools.CallOutcome` | skuld-mcp-grafana/proxied_handler.go:51-86 | a call under `kind_tool` goes to the session's client for `kind_uid`, or else to the server's, and is served if that client has the tool; which error it gives otherwise |
| `ProxiedTools.RecordedIsRouted` | skuld-mcp-grafana/proxied_handler.go:51-86 | a registered tool called with the uid of a recorded datasource reaches its client under a tool the client has |
| `ProxiedTools.RoutedIsRecorded` | skuld-mcp-grafana/proxied_handler.go:51-86 | without server-wide clients a call is served if and only if some client with that uid offers the tool |
| `ProxiedTools.TableServes` | skuld-mcp-grafana/proxied_tools.go:390-410 | the table of a registration lists exactly the datasources for which calls are served |
| `TextWrap.WordsAreSolid` | skuld-slash-cmd/index.js:63-70 | the words of a line are the line without its white space; only the first can be empty |
| `TextWrap.WordsCut` | skuld-slash-cmd/index.js:63-71 | words have no white space, and a line is its words with white space between any two |
| `TextWrap.BlankCodes` | skuld-slash-cmd/index.js:63-71 | white space, by its codes |
| `TextWrap.LaidIsCut` | skuld-slash-cmd/index.js:71 | any words without white space, none empty but the first, laid out with any gaps, are the words of that line |
| `TextWrap.FillWords` | skuld-slash-cmd/index.js:71-90 | words fill lines greedily: in order, none lost, none too long but single words, none that had room for the next |
| `TextWrap.SpacedIsLaid` | skuld-slash-cmd/index.js:73-80 | a written line is its words with one space between any two |
| `TextWrap.RawLinesCut` | skuld-slash-cmd/index.js:61 | the raw lines have no newline and make up the text with newlines between them |
| `TextWrap.PairBecomesNewline` | skuld-slash-cmd/index.js:59 | a carriage return with a newline becomes a newline |
| `TextWrap.NoPairNoChange` | skuld-slash-cmd/index.js:59 | a text without such a pair stays as it is |
| `TextWrap.WrapPdfText` | skuld-slash-cmd/index.js:58-94 | every line is wrapped by itself and the result is never empty |
| `TextWrap.WrappedLinesFit` | skuld-slash-cmd/index.js:58-94 | no line of the result is longer than 90 units unless it has no white space |
| `PdfWriter.EscapeOne` | skuld-slash-cmd/index.js:50-56 | the four replacement passes together escape unit by unit |
| `PdfWriter.ReadUndoesEscape` | skuld-slash-cmd/index.js:50-56 | a reader of literal strings gets back the line with `?` for unprintable units, and stops at the closing parenthesis |
| `PdfWriter.StreamShowsPage` | skuld-slash-cmd/index.js:115-135 | what a content stream shows are the lines of its page |
| `PdfWriter.ObjectAtOffset` | skuld-slash-cmd/index.js:162-175 | the bytes at the offset of an object are the object |
| `PdfWriter.EntryDenotesOffset` | skuld-slash-cmd/index.js:181-184 | an entry denotes its offset, and has 20 bytes if and only if the offset is below 10^10 |
| `PdfWriter.TableIsExact` | skuld-slash-cmd/index.js:177-190 | the file ends with startxref and the byte of the table, entries are 20 bytes apart, and each denotes the byte where its object begins |
| `PdfWriter.ObjectsAreNumbered` | skuld-slash-cmd/index.js:136-160 | every object begins with the number under which the table lists it |
| `PdfWriter.PageIsFound` | skuld-slash-cmd/index.js:140-143 | at the offset of a page's content object lies its stream, of the length `/Length` denotes, showing the page's lines |
| `PdfWriter.EntryIsFound` | skuld-slash-cmd/index.js:177-190 | a reader that begins with the last line of the file finds in the entry of an object its offset |
| `PdfWriter.PageTreeIsFound` | skuld-slash-cmd/index.js:151-188 | the trailer leads it to the catalog, and that to the page tree |
| `PdfWriter.PagesAreFound` | skuld-slash-cmd/index.js:152-157 | which counts the pages and lists their objects in order |
| `PdfWriter.PageIsRead` | skuld-slash-cmd/index.js:145-149 | each of which names its own content object, the page tree and the font |
| `PdfWriter.FontIsRead` | skuld-slash-cmd/index.js:158-160 | which is Helvetica in the encoding of Windows |
| `PdfWriter.ContentIsRead` | skuld-slash-cmd/index.js:140-143 | and the content object has the stream of the page, cut at the length it gives |
| `PdfWriter.ReadsBack` | skuld-slash-cmd/index.js:136-190 | so reading a file back gives the lines of its pages, page by page |
| `PdfWriter.SizeIsFound` | skuld-slash-cmd/index.js:162-188 | the file begins with its version, and the trailer gives the number of entries |
| `PdfWriter.PageLayout` | skuld-slash-cmd/index.js:97-135 | a reader of the drawing operators: line `k` of a page is drawn in font F1 of size 11 at 50, 782 - 14 `k`, and at most 51 lines stay 60 above the lower edge |
| `PdfWriter.Characters` | skuld-slash-cmd/index.js:50-56 | printable ASCII stays, everything else becomes a question mark |
| `PdfWriter.CreatePdfBuffer` | skuld-slash-cmd/index.js:96-193 | writes the file of the wrapped text, cut into at least one page, each of at most 51 lines; below 10^10 bytes, what the pages of the file show in their order are the wrapped lines |
| `Decimal.ValueOfShow` | skuld-slash-cmd/index.js:182-188 | a decimal numeral denotes the number it was printed from |
| `Decimal.Digits` | skuld-slash-cmd/index.js:182-188 | digits, by their codes and values |

## Left out

- HTTP, TLS, authentication, environment variables, logging, metrics exporters and timeouts: input and output over libraries that are not part of this model.
- The servers themselves: Neo4j, Qdrant and the singleflight library appear as contracts (merge, match and delete as functions on maps, pages of a filtered set, one leader for each flight key); an execution that a server refuses is not modelled. Node and relationship properties that are null, and Cypher constraints, are not modelled.
- Regular expressions: each is replaced by a scanner for the same language; `buildEffectiveVariables` and the extraction of variables from a dashboard are left out.
- Substitution.WholeIndependentIffSafe: for a braced variable directly behind a `$word`, or a `$`, only the one direction of `Substitution.WholeSubstitution` is given; its value extends the word, so that the condition is which variable names can be spelled with the values of variables that stand in several places at once.
- Substitution.OrderIndependentIffSafe: names with characters other than letters, digits and underscores, which Grafana does not give to variables, are left out; the program accepts them in its map.
- JSON decoding and encoding: documents are trees of values already decoded, and alert models pass through unchanged.
- DashboardDocument.Document.ApplyJSONPath: objects are shared by reference, slices are not; a slice that is written is the slice of the field it was read from, as in the program, so that two fields with one backing array are not modelled.
- Error texts: errors are cases of datatypes with the data that the texts are made from.
- ClientCache: the two kinds of clients have caches of the same shape, of which one is modelled; `createFn` that panics is left out. The cache is a machine of atomic steps, in place of a class with locks.
- GraphBuilder: chunks, the metadata of nodes and the extraction of endpoint paths from code are left out; what is guessed about external endpoints, the bucket of a type and the last component of a file path come with the analysis. Missing fields of the analysis are empty texts. The nested loops of `build_artifacts` are one method for each loop.
- GraphSync.PushGraphPayload: rows without an id are left out.
- VectorSync: `uuid` parsing and printing and `uuid5` are parameters, of which is assumed, where a lemma says so, that a printed uuid is parsed back and that `uuid5` is injective; a point's payload is its project, its scan, its source id and one opaque rest. The page size is the one of the program, the order of ids is that of the store.
- `applyLogLevelResponseCaps`, hint texts, limits and metric results of Loki: not part of the grouping.
- LogGrouping: lists of timestamps are values, so that two lines never share the memory of one; timestamps and labels are compared as sequences of characters, which is the order of their bytes for UTF-8.
- Sessions: a client added to a session after its cleanup is left out; what is claimed is the cleanup of session states.
- ProxiedTools: the sharing of a tool's property map between the listed and the registered tool is left out, and so is the registration for the server as a whole, which has the same loops without the session.
- PdfWriter: the readers know the syntax the writer uses: a key of a dictionary is looked for as a text, and of the escapes those of the writer are known; fonts and layout are constants of the text.
- The drain service, the Java services, Discord handling and language-model calls.
