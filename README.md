# Document dashboard: a verified Dafny model of its core

The dashboard browses, uploads, searches and visualises tagged text documents.
All of them live in an in-memory store. This project models four parts of it:

- **The document store** (`mock_api.dfy`, `types.dfy`).
  - The store is a list of documents whose ids are `doc_1` .. `doc_n` in position order.
  - It provides statistics, lookup by id, upload, the three-criterion query (text / category / any tag) and the derived log list.
  - The store is the class `MockApi.Store`: upload reassigns its `documents` field, and the query and log operations are methods.
  - The log list is sorted in place on an array by a stable newest-first insertion sort (`sorting.dfy`). Like `Array.prototype.sort`, it keeps entries with equal timestamps in their original order.
- **The graph view** (`document_visualization.dfy`).
  - Building nodes and links from documents.
  - The clamp that keeps a drawn circle inside the viewport.
  - The drag handlers that pin a node and set the simulation's `alphaTarget`.
- **The pages' client-side logic.** Each page's state is a class whose methods are the page's handlers.
  - All-documents filter and tag toggling (`all_documents.dfy`).
  - Search snapshot and query-argument mapping (`query_documents.dfy`).
  - Upload form validation and duplicate-free tag list (`upload_document.dfy`).
  - Log search (`document_logs.dfy`).
- **The dashboard's recent documents** (`dashboard_home.dfy`): a fetched copy of the store, sorted newest first in place, cut to five, and the "Last Upload" value.

Shared list and string operations are in `common.dfy`:

- JavaScript's `filter`;
- `Array.from(new Set(...))`;
- the include/exclude toggle;
- `includes`;
- ASCII `toLowerCase`;
- `substring` plus an ellipsis;
- decimal rendering of numbers.

A `createdAt` value is a `Timestamp`: the text that is shown and searched, plus the instant it denotes, which every newest-first ordering compares.

Some details of the graph code that the model keeps as the code has them:

- Node ids are `category-<name>`, `document-<id>` and `tag-<name>`.
- A drag start reheats the simulation (`alphaTarget` 0.3, `restart()`) whenever no other drag gesture is active, whatever the simulation's state. A drag end sets `alphaTarget` to 0 only under the same condition.
- The viewport clamp applies only to the drawn circle centre (`cx`, `cy`). It does not change the simulated position, and labels and link endpoints are drawn at the unclamped position.
- Node ids are unique only when the documents' ids are unique. `DocumentVisualization.NodeIdsUnique` proves uniqueness under that condition, and `MockApi.SequentialIdsUnique` shows that the store meets it.

## Model

| member | source | states |
|---|---|---|
| Common.Distinct | src/lib/mock-api.ts:41-42 | `Array.from(new Set(s))` holds no value twice and holds exactly the values of `s` |
| Common.DistinctFirstAppearanceOrder | src/lib/mock-api.ts:41-42 | the deduplicated values appear in the order of their first occurrence in the input |
| Common.Toggle | src/pages/AllDocuments.tsx:33-39 | after toggling, the tag is selected exactly when it was not selected before; every other tag keeps its membership |
| Common.ToggleKeepsNoDuplicates | src/pages/AllDocuments.tsx:33-39 | toggling keeps a duplicate-free selection duplicate-free |
| Common.ToggleTwiceRestores | src/pages/AllDocuments.tsx:33-39 | toggling an unselected tag twice gives back the original list |
| Common.Truncate | src/components/visualization/DocumentVisualization.tsx:39 | the result starts with the first `n` characters; it equals the text when the text is at most `n` long; it is exactly `n` characters plus "..." exactly when the text is longer |
| Common.NatToStringInjective | src/lib/mock-api.ts:24 | two numbers render to the same decimal string exactly when they are equal |
| Types.UniqueCategories | src/lib/mock-api.ts:41 | the category list is duplicate-free, and a value is in it exactly when some document has that category |
| Types.UniqueTags | src/lib/mock-api.ts:42 | the tag list is duplicate-free, and a value is in it exactly when some document carries that tag |
| Types.UniqueCategoriesOrder | src/lib/mock-api.ts:41 | categories appear in the order in which the documents first mention them |
| Types.UniqueTagsOrder | src/lib/mock-api.ts:42 | tags appear in the order of their first occurrence in the flattened tag list |
| Types.TagsOfMembership | src/components/visualization/DocumentVisualization.tsx:26 | the flattened tag list has one entry per tag occurrence and holds exactly the tags some document carries |
| Types.TitleShape | src/pages/QueryDocuments.tsx:226 | a result title is the text when it has at most 60 characters, and otherwise its first 60 characters followed by "..." |
| Sorting.SortDescSorted | src/lib/mock-api.ts:126 | the newest-first sort yields a list whose keys never increase |
| Sorting.SortDescStable | src/lib/mock-api.ts:126 | entries with equal keys keep their original relative order (the sort is stable) |
| Sorting.SortDescNoDuplicates | src/pages/DashboardHome.tsx:18-19 | sorting a list without repeats yields a list without repeats |
| Sorting.InsertDescAt | src/lib/mock-api.ts:126 | inserting after the last element whose key is at least the new key puts the new element exactly at the gap |
| Sorting.InsertLastInPlace | src/lib/mock-api.ts:126 | the in-place step inserts `a[i]` into the sorted prefix `a[..i]` and leaves the rest of the array alone |
| Sorting.SortNewestFirst | src/lib/mock-api.ts:126 | sorting the array in place leaves it equal to the stable newest-first order of its old contents |
| MockApi.NumberedInjective | src/lib/mock-api.ts:24 | `doc_${m}` equals `doc_${n}` exactly when `m == n` (likewise for `log_`) |
| MockApi.SequentialIdsUnique | src/lib/mock-api.ts:75-79 | in a store whose ids are `doc_1..doc_n` by position, no two documents share an id |
| MockApi.SequentialIdsNoDuplicates | src/lib/mock-api.ts:75-79 | such a store holds no document twice |
| MockApi.FindIndex | src/lib/mock-api.ts:64-65 | lookup finds the first position with the given id, and finds none exactly when no document has it |
| MockApi.FindById | src/lib/mock-api.ts:64-65 | the result is the first document with the given id, and nothing exactly when no document has it |
| MockApi.FindSequentialId | src/lib/mock-api.ts:64-65 | in a valid store `doc_n` finds the `n`-th document, and finds something exactly when `1 <= n <= length` |
| MockApi.AbsentSameAsEmpty | src/lib/mock-api.ts:91-108 | an absent category selects what an empty one selects, and likewise for tags; with no criteria every document matches |
| MockApi.LogsNewestFirst | src/lib/mock-api.ts:118-126 | the delivered logs have one entry per document, newest first; each entry is `log_{i+1}`, the document's id, "Uploaded document" and the document's timestamp; there are no others |
| MockApi.LogIdsUnique | src/lib/mock-api.ts:119 | no two delivered log entries share an id |
| MockApi.LogsStable | src/lib/mock-api.ts:126 | log entries with equal timestamps stay in store order |
| MockApi.UploadThenFind | src/lib/mock-api.ts:75-79 | uploading to a valid store keeps it valid, makes the new record findable by its id and leaves every earlier lookup unchanged |
| MockApi.Store.constructor | src/lib/mock-api.ts:35 | the store starts as a list of documents with ids `doc_1..doc_n` |
| MockApi.Store.FetchDocumentStats | src/lib/mock-api.ts:41-47 | the total is the store length; categories and tags are duplicate-free and hold exactly the values occurring in the store |
| MockApi.Store.FetchAllDocuments | src/lib/mock-api.ts:56 | the result is a fresh array equal to the store, so sorting it cannot reorder the store |
| MockApi.Store.FetchDocumentById | src/lib/mock-api.ts:61-67 | the result is the first stored document with the given id, and nothing (`null`) exactly when no stored document has it |
| MockApi.Store.UploadDocument | src/lib/mock-api.ts:70-80 | exactly one record is appended: id `doc_{n+1}`, the given timestamp and the caller's fields; earlier records are unchanged; the id invariant is preserved |
| MockApi.Store.QueryDocuments | src/lib/mock-api.ts:85-113 | the three filter stages give the documents passing all three criteria in store order; a document is in the result exactly when it is in the store and matches; the result is a subsequence of the store; the store is not changed |
| MockApi.Store.FetchLogs | src/lib/mock-api.ts:115-131 | the result is the stable newest-first order of the per-document log entries |
| DocumentVisualization.BuildGraph | src/components/visualization/DocumentVisualization.tsx:16 | nothing is built exactly when there are no documents |
| DocumentVisualization.CategoryNodesFirst | src/components/visualization/DocumentVisualization.tsx:30-52 | there are as many nodes as categories, documents and tags together, and category nodes come first |
| DocumentVisualization.DocumentNodesInOrder | src/components/visualization/DocumentVisualization.tsx:37-52 | after the category nodes comes one document node per document, in order, carrying that document |
| DocumentVisualization.TagNodesLast | src/components/visualization/DocumentVisualization.tsx:45-52 | the remaining nodes are tag nodes |
| DocumentVisualization.NodesWellFormed | src/components/visualization/DocumentVisualization.tsx:30-50 | every node has radius 40, 25 or 15 and the id prefix `category-`, `document-` or `tag-`, according to its kind |
| DocumentVisualization.DocumentNodeLabels | src/components/visualization/DocumentVisualization.tsx:39 | a document node's label is the text when it has at most 30 characters, and otherwise its first 30 characters followed by "..." |
| DocumentVisualization.TagLinksCount | src/components/visualization/DocumentVisualization.tsx:63-69 | there is one document-tag link per tag occurrence |
| DocumentVisualization.TagLinksFrom | src/components/visualization/DocumentVisualization.tsx:63-69 | every document-tag link joins a document to one of its own tags |
| DocumentVisualization.TagLinkAt | src/components/visualization/DocumentVisualization.tsx:63-69 | the link for tag `j` of document `i` sits at position (tag occurrences of the documents before `i`) + `j` of the flatMap, joining that document to that tag |
| DocumentVisualization.CategoryLinkAt | src/components/visualization/DocumentVisualization.tsx:57-61 | the `i`-th link joins document `i` to its category node |
| DocumentVisualization.GraphTagLinkAt | src/components/visualization/DocumentVisualization.tsx:55-70 | after the category links, the tag links follow in flatMap order: document by document, each in its tag order |
| DocumentVisualization.LinkCount | src/components/visualization/DocumentVisualization.tsx:55-70 | there are as many links as documents plus tag occurrences |
| DocumentVisualization.LinksResolve | src/components/visualization/DocumentVisualization.tsx:55-70 | every link's source and target is the id of some node |
| DocumentVisualization.KindsHaveDistinctIds | src/components/visualization/DocumentVisualization.tsx:31-46 | nodes of different kinds never share an id |
| DocumentVisualization.NodeIdsUnique | src/components/visualization/DocumentVisualization.tsx:30-52 | node ids are unique when the documents' ids are |
| DocumentVisualization.ClampCentre | src/components/visualization/DocumentVisualization.tsx:138-139 | the drawn centre is at least `r`; it lies in `[r, extent - r]` when the viewport is at least `2r` wide; it equals the position when that is already in range; it is `r` in a viewport narrower than `2r` |
| DocumentVisualization.ClampIdempotent | src/components/visualization/DocumentVisualization.tsx:138-139 | clamping an already clamped centre changes nothing, for every viewport size |
| DocumentVisualization.Simulation.DragStarted | src/components/visualization/DocumentVisualization.tsx:148-152 | the node is pinned at its current position; with no other active gesture, `alphaTarget` becomes 0.3 and the simulation restarts, otherwise both are unchanged |
| DocumentVisualization.Simulation.Dragged | src/components/visualization/DocumentVisualization.tsx:154-157 | the pin moves to the pointer |
| DocumentVisualization.Simulation.DragEnded | src/components/visualization/DocumentVisualization.tsx:159-163 | the pin is cleared; with no other active gesture `alphaTarget` becomes 0, otherwise it is unchanged |
| AllDocuments.FilteredAsWritten | src/pages/AllDocuments.tsx:42-53 | a document is shown exactly when it passes the text test on the processed text, the category test with "all" compared literally, and the all-tags test; the shown list is a subsequence of the documents |
| AllDocuments.Filtered | src/pages/AllDocuments.tsx:42-53 | the corrected filter: the same tests except that "all" imposes no category restriction; membership both ways and the subsequence property |
| AllDocuments.EmptyCriteriaShowAll | src/pages/AllDocuments.tsx:43-50 | with empty text, no category and no tags every document is shown, in order, by the filter as written and by the corrected one |
| AllDocuments.AllCategoriesHidesEverything | src/pages/AllDocuments.tsx:46-47 | as written, the category "all" hides every document when no document's category is "all" |
| AllDocuments.AllCategoriesMeansNoCategory | src/pages/AllDocuments.tsx:75 | with the correction, "All categories" shows exactly what no category shows |
| AllDocuments.CorrectionOnlyAffectsAll | src/pages/AllDocuments.tsx:46-47 | for every category other than "all", the corrected filter is the filter as written |
| AllDocuments.PageNarrowerThanQuery | src/pages/AllDocuments.tsx:42-53 | a document shown by the page (as written) also matches the store query with the same criteria, for every category |
| AllDocuments.AnyTagIsNotAllTags | src/pages/AllDocuments.tsx:49-50 | a document carrying one of two selected tags matches the store query but is not shown by the page |
| AllDocuments.Page.constructor | src/pages/AllDocuments.tsx:24-26 | the page starts with empty text, no category and no tags |
| AllDocuments.Page.Categories | src/pages/AllDocuments.tsx:29 | the category choices are duplicate-free and are exactly the categories of the received documents |
| AllDocuments.Page.Tags | src/pages/AllDocuments.tsx:30-31 | the tag choices are duplicate-free and are exactly the tags the received documents carry |
| AllDocuments.Page.FilteredDocuments | src/pages/AllDocuments.tsx:42-53 | the shown list holds exactly the received documents passing the page's tests as written, in their order |
| AllDocuments.Page.HandleTagToggle | src/pages/AllDocuments.tsx:33-39 | the selection becomes the toggled list and stays duplicate-free; the other criteria are unchanged |
| AllDocuments.Page.SelectCategory | src/pages/AllDocuments.tsx:70 | the selector sets the category and nothing else |
| AllDocuments.Page.SetSearchQuery | src/pages/AllDocuments.tsx:65 | the search box sets the text and nothing else |
| AllDocuments.Page.Clear | src/pages/AllDocuments.tsx:81-85 | every criterion is reset, and the filtered list is the full list again |
| AllDocuments.Page.CardTagClick | src/pages/AllDocuments.tsx:129-133 | a card tag click selects the tag if it is unselected, and never deselects anything |
| QueryDocuments.QueryCallFor | src/pages/QueryDocuments.tsx:35-41 | no snapshot means no query; otherwise the query is passed as is, and an empty category or tag list is passed as absent |
| QueryDocuments.Results | src/pages/QueryDocuments.tsx:33-44 | no snapshot gives no results; otherwise a document is a result exactly when it is stored and matches the snapshot's criteria; results keep store order |
| QueryDocuments.ResultsMatchSnapshot | src/pages/QueryDocuments.tsx:37-41 | passing empty criteria as absent does not change the results: they are the documents matching the snapshot |
| QueryDocuments.Page.constructor | src/pages/QueryDocuments.tsx:18-26 | the page starts with empty criteria, no snapshot and not searching |
| QueryDocuments.Page.HandleTagToggle | src/pages/QueryDocuments.tsx:46-52 | the selection becomes the toggled list and stays duplicate-free; nothing else changes |
| QueryDocuments.Page.HandleSearch | src/pages/QueryDocuments.tsx:54-66 | the search is accepted exactly when some criterion is non-empty; a refused search changes nothing; an accepted one sets `isSearching` and snapshots the criteria |
| QueryDocuments.Page.HandleClear | src/pages/QueryDocuments.tsx:68-74 | criteria, snapshot and searching flag are reset |
| QueryDocuments.Page.FetchResults | src/pages/QueryDocuments.tsx:33-44 | no snapshot gives no results; otherwise the results are exactly the store documents matching the snapshot |
| UploadDocument.Validate | src/pages/UploadDocument.tsx:67-83 | an empty document is reported first, then an empty category; a valid submission carries the document, category and tags, with the original text equal to the document |
| UploadDocument.ButtonMatchesValidation | src/pages/UploadDocument.tsx:233 | with no upload pending, the button is enabled exactly when validation accepts; while one is pending it is disabled |
| UploadDocument.Form.constructor | src/pages/UploadDocument.tsx:26-29 | the form starts empty |
| UploadDocument.Form.HandleTagAdd | src/pages/UploadDocument.tsx:56-61 | a non-empty new tag is appended and the input cleared; otherwise nothing changes; the tag list stays duplicate-free |
| UploadDocument.Form.HandleTagRemove | src/pages/UploadDocument.tsx:63-65 | the tag is removed, the other tags keep their order and membership, and the list stays duplicate-free |
| UploadDocument.Form.StatsTagClick | src/pages/UploadDocument.tsx:130 | a panel tag is appended unless it is already chosen; the list stays duplicate-free |
| UploadDocument.Form.StatsCategoryClick | src/pages/UploadDocument.tsx:114 | a panel category becomes the chosen category |
| UploadDocument.Form.OnUploadSuccess | src/pages/UploadDocument.tsx:43-47 | document, category, tags and tag input are reset |
| UploadDocument.Form.HandleSubmit | src/pages/UploadDocument.tsx:67-83 | a rejected submission changes neither the form nor the store; an accepted one appends exactly the validated record to the store and then resets the form |
| DocumentLogs.FilterLogs | src/pages/DocumentLogs.tsx:19-23 | no logs gives no result; otherwise a log is kept exactly when the lower-cased term occurs in its lower-cased document id, action or timestamp, in original order |
| DocumentLogs.EmptyTermKeepsAll | src/pages/DocumentLogs.tsx:19-23 | an empty term keeps every log |
| DocumentLogs.FilterLogsIdempotent | src/pages/DocumentLogs.tsx:19-23 | searching the result again with the same term changes nothing |
| DocumentLogs.ActionTermKeepsAll | src/pages/DocumentLogs.tsx:21 | a term occurring in "uploaded document" keeps every delivered log |
| DashboardHome.RecentDocuments | src/pages/DashboardHome.tsx:16-21 | the recent list is the first min(5, n) documents in newest-first order of a copy of the store |
| DashboardHome.RecentShape | src/pages/DashboardHome.tsx:18-20 | the list has exactly min(5, n) entries, newest first, each one of the store's documents |
| DashboardHome.RecentNoDuplicates | src/pages/DashboardHome.tsx:17-20 | no document appears twice when the store has no repeats |
| DashboardHome.RecentOfStoreNoDuplicates | src/pages/DashboardHome.tsx:17-20 | the store's sequential ids rule out repeats in the recent list |
| DashboardHome.RecentAreNewest | src/pages/DashboardHome.tsx:18-20 | a document left out is no newer than any document shown |
| DashboardHome.LastUpload | src/pages/DashboardHome.tsx:91-95 | a value is shown exactly when the recent list is loaded and non-empty, and it is the timestamp of one of its documents |
| DashboardHome.LastUploadIsNewest | src/pages/DashboardHome.tsx:91-95 | "Last Upload" is shown exactly when the store is non-empty, and it is the newest timestamp in the store, taken from a stored document |

## Findings

| source | as written | input that shows it | evidently intended | confidence | as-written member | corrected member |
|---|---|---|---|---|---|---|
| src/pages/AllDocuments.tsx:75 | The "All categories" entry sets the category filter to the literal "all". Lines 46-47 compare that with each document's category. | Choose "All categories" while the documents' categories are "Finance" and "Legal": the page shows nothing. | "All categories" lifts the category restriction, like the initial empty selection. | high; not executed | AllDocuments.AllCategoriesHidesEverything | AllDocuments.AllCategoriesMeansNoCategory |

The page model (`AllDocuments.Page.FilteredDocuments`) runs the filter as written, `AllDocuments.FilteredAsWritten`, so choosing "All categories" on the modelled page shows nothing, as on the real one. The corrected filter, `AllDocuments.Filtered`, is defined beside it, and `AllDocuments.CorrectionOnlyAffectsAll` shows that the two differ only for the category "all".

## Left out

- The d3 force simulation: forces, alpha decay, tick scheduling and `stop()`. It is a foreign library doing floating-point physics. Only the fields the drag handlers set are modelled: the pin, `alphaTarget`, and `restart()` as a `running` flag.
- SVG and DOM rendering: colours, sizes, tooltips, and drawing labels and link endpoints at the unclamped position. No rendering is modelled.
- The early return when the SVG element is not mounted yet (src/components/visualization/DocumentVisualization.tsx:16). Only the empty-document case is modelled.
- `VisualNode` and `VisualLink` are imported from src/lib/types.ts, which does not declare them. The model declares them from the fields the graph code uses.
- Real-number arithmetic stands in for floating point in `DocumentVisualization.ClampCentre`. NaN and infinite positions are not modelled.
- `setTimeout` delays and Promises: every store operation is a synchronous method.
- Random document generation (src/lib/mock-api.ts:9-32): `MockApi.Store.constructor` accepts any list whose ids are `doc_1..doc_n`.
- `recalculateDocuments`: it always returns the same success value.
- Date handling. Formatting `createdAt` and parsing it with `new Date(...)` are replaced by the `Timestamp` pair of text and instant, and the upload time is a parameter. An unparsable date, whose `getTime()` is NaN, is not modelled.
- Case folding: `toLowerCase` is modelled for ASCII letters only.
- Common.Truncate: lengths and cuts are counted in characters (Unicode scalar values), not in the UTF-16 code units that JavaScript's `length` and `substring` count. A text with characters outside the Basic Multilingual Plane is therefore cut later than in the page, and a cut that splits a surrogate pair is not modelled.
- React Query caching and invalidation, toasts, dialogs and the upload error callback. A refused search and a rejected submission are returned as values instead of shown as toasts. The mock upload never fails, so `UploadDocument.Form.HandleSubmit` runs the success reset directly after the upload.
- Setters that only copy an input value into page state, other than those listed in the table: the query box of the query page, and the document, category and tag inputs of the upload form.
- UI-only files: routing, layout, the visualization wrapper, the document detail page and the recalculate page.
