# ContentEditor content-link synchronisation, in Dafny

This project models the core of the `ContentEditor` React component of the
Geist note-taking client (`client/app/components/ContentEditor/index.js`).
The component wraps a Draft.js editor. Spans of text can be linked to other
nodes of the knowledge graph. Each link is a Draft entity of type
`CONTENT_LINK`, and the server keeps one edge per link. On every edit the
component does four things:

- it extracts the content-link entity keys of the new snapshot;
- it diffs them against the keys it recorded last time;
- it calls `addEdge` for every added key and `removeEdge` for every removed key;
- it folds the returned edge ids into the entities, then hands the content to
  `persistState`.

A `saveInProgress` flag drives a navigation guard while this runs. The model
also covers the small pure pieces the component uses:

- the inline toolbar's selection rule;
- the block style function;
- the placeholder test.

Modules:

- `Draft`: the slice of Draft.js the component relies on. A snapshot
  (`Content`) is the ordered block list plus the entity table its character
  keys resolve through. Draft 0.10 keeps that table in one store shared by
  every snapshot. `mergeEntityData` is a map update (`MergeEdgeId`).
- `Extractor`: `getAllEntities`. `BlockLinks` and `AllLinks` are the
  reference definitions, written as the pairwise `reduce` over the character
  list. `Positions` is an independent characterisation by emitting positions.
  `ScanBlock` and `GetAllEntities` are the loops, proved equal to the
  reference.
- `Diff`: lodash's `_.difference` and its properties.
- `Reconciler`: one run of `persistContentLinks` as a value, `Reconcile`. It
  gives the remote calls issued, the key list recorded, the resulting entity
  table, and whether the returned promise delivers a content state, together
  with the lemmas about it. The outcomes of the `addEdge` calls are an input
  (`created[i]` is `Some(edgeId)` or `None` for a rejected call).
- `Toolbar`: the toolbar action's `rule(editorState, selectionState)`.
- `Editor`: the component as a class. Its fields are the props it reads
  (`id`, `saved`, `readOnly`) and its state (`editorState`, `entities`,
  `collapsed`, `saveInProgress`). It also has two logs: the remote calls
  issued (`calls`) and the contents handed to `persistState` (`persisted`).
  It has the constructor, `componentWillReceiveProps`, `persistContentLinks`,
  `onChange`, `persistState`, `focus` and `handleClickOutside`, plus the
  render-time predicates.
- `Scenarios`: worked cycles on a two-block document. They cover adding a
  link, removing a link with and without an edge id, and a rejected create.

### Behaviour the model keeps from the code

- **Removing a link with no edge id.** The code calls `removeEdge(edgeId)`
  even when the entity never received an edge id, so `edgeId` is undefined
  (index.js:313-316). `RemoveCalls` issues `RemoveEdge(None)` in that case,
  and `Scenarios.RemoveWithoutEdgeScenario` shows it.
- **A rejected create.** The create's `.catch` returns `undefined`
  (index.js:307). Destructuring `[entityKey, edgeId]` from that value in the
  reduce then throws (index.js:332). At that point:
  - the merges before the failing element have already written to the
    shared entity store;
  - the new key list has already been recorded;
  - `persistState` is never called, and `saveInProgress` is never reset.

  `Reconcile` yields `Failure(CreateFailed(k))`, and `OnChange` leaves
  `saveInProgress` true, so the navigation guard stays armed.
- **A removed key the table does not hold.** `getEntity` on such a key
  throws synchronously (index.js:313). By then the adds have been issued,
  and the removes before the missing key as well. The key list is not
  recorded. `persistContentLinks` taken alone has this path, and
  `PersistContentLinks` models it. The component never reaches it, because
  Draft's entity store is shared by all snapshots and never drops an
  entity. The model states that store in two places:
  - `Draft.SharesStore` is a precondition of `OnChange`: the next snapshot
    holds every entity of the current one, with the edge ids merged so far;
  - the class invariant `Valid` says every recorded key resolves.

  Under these, `OnChange` proves that every cycle records its key list and
  never fails on an unknown entity, by `SharedTableNeverUnknown`.

## Model

| member | source | states |
|---|---|---|
| Extractor.GetAllEntities | client/app/components/ContentEditor/index.js:114-138 | the loop over all blocks returns exactly `AllLinks(c)`, the per-block keys concatenated in block-map order |
| Extractor.ScanBlock | client/app/components/ContentEditor/index.js:123-134 | the loop over one block's character pairs appends exactly that block's `BlockLinks` to the accumulator |
| Extractor.BlockLinks | client/app/components/ContentEditor/index.js:125-134 | every key pushed for a block names a `CONTENT_LINK` entity |
| Extractor.AllLinksOf | client/app/components/ContentEditor/index.js:121-135 | every key collected over the blocks names a `CONTENT_LINK` entity |
| Extractor.AllLinks | client/app/components/ContentEditor/index.js:114-138 | every key `getAllEntities` returns for a snapshot names a `CONTENT_LINK` entity of that snapshot |
| Extractor.ShortBlockSilent | client/app/components/ContentEditor/index.js:125-134 | a block of at most one character contributes no key: the seedless `reduce` never calls its callback |
| Extractor.Positions | client/app/components/ContentEditor/index.js:125-131 | the emitting positions below `n` in strictly increasing order: each listed position emits, and every emitting position is listed |
| Extractor.BlockLinksAtPositions | client/app/components/ContentEditor/index.js:125-134 | each prefix of the pairwise scan emits one key per emitting position, in position order, namely the key at that position |
| Extractor.BlockLinksExact | client/app/components/ContentEditor/index.js:125-134 | a block's keys are exactly the keys at its emitting positions, in order. A position emits iff its key is set, differs from the next character's and names a content link. The last character never emits, so a span that reaches the end of its block is not collected |
| Extractor.BlockLinksMembership | client/app/components/ContentEditor/index.js:126-129 | `k` is collected from a block iff some character other than the last has key `k`, the next character's key differs, and `k` is a content link |
| Extractor.AllLinksAppend | client/app/components/ContentEditor/index.js:121-135 | blocks are scanned in order: the keys of `xs + ys` are the keys of `xs` followed by those of `ys` |
| Diff.Difference | client/app/components/ContentEditor/index.js:295-296 | `x` is in `_.difference(xs, ys)` iff it is in `xs` and not in `ys`. The result is no longer than `xs` |
| Diff.DifferenceCount | client/app/components/ContentEditor/index.js:295-296 | each element outside `ys` keeps its multiplicity from `xs`, and elements of `ys` occur zero times |
| Diff.DifferenceAppend | client/app/components/ContentEditor/index.js:295-296 | the difference distributes over concatenation of its left operand, so the order of `xs` is kept |
| Diff.DifferenceCovered | client/app/components/ContentEditor/index.js:295-296 | a list all of whose elements are in `ys` yields the empty difference |
| Diff.DifferenceSelf | client/app/components/ContentEditor/index.js:295-296 | diffing a key list against itself yields nothing (no spurious add or remove) |
| Diff.DifferenceDisjoint | client/app/components/ContentEditor/index.js:295-296 | a list sharing nothing with `ys` is returned unchanged |
| Diff.AddedRemovedDisjoint | client/app/components/ContentEditor/index.js:295-296 | no key is both added and removed in one diff |
| Diff.Conservation | client/app/components/ContentEditor/index.js:295-296 | the keys that are neither added nor removed are exactly those in both the previous and the current list, seen from either side |
| Draft.MergeEdgeId | client/app/components/ContentEditor/index.js:332 | `mergeEntityData(k, { edgeId })` sets `k`'s edge id, keeps its type, node and text, and leaves every other entity and the key set unchanged |
| Draft.HasText | client/app/components/ContentEditor/index.js:427 | a content state has no text iff it is a single block with empty text |
| Draft.WellFormedRetabled | client/app/components/ContentEditor/index.js:332 | replacing the entity table by one with the same keys (as the merge does) keeps every character key resolvable |
| Reconciler.AddCalls | client/app/components/ContentEditor/index.js:298-308 | one `addEdge(id, nodeId, text)` per added key, in order, with node and text from that key's entity data |
| Reconciler.RemoveCalls | client/app/components/ContentEditor/index.js:310-320 | one `removeEdge(edgeId)` per removed key, in order, with the entity's edge id or `undefined` |
| Reconciler.FirstMissing | client/app/components/ContentEditor/index.js:310-314 | the first removed key with no entity, before which every key resolves; this is where `getEntity` throws |
| Reconciler.MergeEdges | client/app/components/ContentEditor/index.js:331-332 | the fold of `mergeEntityData` over `[key, edgeId]` pairs keeps the table's key set |
| Reconciler.MergeEdgesSpec | client/app/components/ContentEditor/index.js:331-332 | after the fold, every entity carries the edge id of the last pair naming it, or its own if none does |
| Reconciler.LastEdgeOfPairs | client/app/components/ContentEditor/index.js:329-332 | after `Promise.all`, the last pair naming a key carries the result of that key's last create. Keys that were never added have no pair |
| Reconciler.MergeResults | client/app/components/ContentEditor/index.js:329-332 | the fold over the create results keeps the key set. It completes iff every create succeeded, and otherwise breaks at the first failed create |
| Reconciler.MergedTable | client/app/components/ContentEditor/index.js:329-332 | when every create succeeded, the fold is the merge of all `[key, edgeId]` pairs |
| Reconciler.BrokenTable | client/app/components/ContentEditor/index.js:305-332 | when a create failed, the shared table holds the merges of the pairs before the failure, which had already been applied when the destructuring threw |
| Reconciler.MergeAllSpec | client/app/components/ContentEditor/index.js:329-332 | with all creates successful, each added key gets the edge id of its last create, and every other entity is unchanged |
| Reconciler.Added | client/app/components/ContentEditor/index.js:292-295 | a key is added iff it is linked in the new snapshot and was not recorded before, and every added key names an entity of the new snapshot |
| Reconciler.Removed | client/app/components/ContentEditor/index.js:296 | a key is removed iff it was recorded before and is not linked in the new snapshot |
| Reconciler.Reconcile | client/app/components/ContentEditor/index.js:283-337 | one cycle keeps the table's key set, records (when it does) exactly the new snapshot's keys, and on success delivers the new blocks over the cycle's table |
| Reconciler.FirstMissingNone | client/app/components/ContentEditor/index.js:310-314 | when every removed key resolves, no lookup throws and every remove is issued |
| Reconciler.ReconcileResolved | client/app/components/ContentEditor/index.js:324-336 | once every removed key resolves, the key list is recorded and the outcome is the merge fold's: the merged content on success, `CreateFailed` at the fold's break otherwise |
| Reconciler.ReconcileCalls | client/app/components/ContentEditor/index.js:298-320 | all adds come first, one per added key, then one remove per removed key up to the first unknown one. All removes are issued iff no removed key is unknown; when they stop early, they stop exactly at a key the table does not hold, and the cycle's error names that key |
| Reconciler.ReconcileRecords | client/app/components/ContentEditor/index.js:287-326 | the new key list is recorded iff every removed key resolves, and what is recorded is exactly `getAllEntities` of the new snapshot |
| Reconciler.ReconcileSucceeds | client/app/components/ContentEditor/index.js:298-336 | the cycle delivers a content state iff every removed key resolves and every create succeeds. Remove outcomes play no part |
| Reconciler.ReconcileMerge | client/app/components/ContentEditor/index.js:329-336 | on success the delivered content is the new blocks over the merged table. The key set is unchanged, entities that were not added are unchanged, and each added key carries the edge id of its last create |
| Reconciler.ReconcileCreateFailed | client/app/components/ContentEditor/index.js:305-332 | a failed create yields `CreateFailed` at the first failed key (at or before any given failure) after the key list was recorded. Only entities added before that key are touched |
| Reconciler.SharedTableNeverUnknown | client/app/components/ContentEditor/index.js:310-326 | when every previously recorded key still resolves, the key list is always recorded and the cycle never fails on an unknown entity |
| Reconciler.ReconcileStable | client/app/components/ContentEditor/index.js:292-337 | a snapshot whose keys equal the recorded list issues no remote call and yields itself unchanged |
| Toolbar.IndexOf | client/app/components/ContentEditor/index.js:225-232 | the first block at or after `from` with the given key, or the end of the list |
| Toolbar.SelectedRun | client/app/components/ContentEditor/index.js:223-242 | the selection is no longer than the block list, and a non-empty selection starts at a block with the start key |
| Toolbar.IndexOfPast | client/app/components/ContentEditor/index.js:225-240 | scanning past block `i`: the first match is `i` when its key matches, and lies beyond `i` otherwise |
| Toolbar.SelectedRunSpec | client/app/components/ContentEditor/index.js:223-242 | the selected blocks are empty iff no block has the start key. Otherwise they form the contiguous run from the first start-key block, up to the first end-key block after it or to the last block |
| Toolbar.SelectBlocks | client/app/components/ContentEditor/index.js:223-242 | the `filter` with its `seenFirst`/`seenLast` flags keeps exactly `SelectedRun` |
| Toolbar.FoldTypesSpec | client/app/components/ContentEditor/index.js:245-248 | the `reduce` keeps the first block's type iff every selected block has it, else it yields `false` |
| Toolbar.FoldTypes | client/app/components/ContentEditor/index.js:245-248 | the `reduce` ends with its seed type or with `false`, never with another type |
| Toolbar.Accepts | client/app/components/ContentEditor/index.js:244-254 | an accepted selection has only allowed types and non-empty texts, and a non-empty type |
| Toolbar.AcceptsIff | client/app/components/ContentEditor/index.js:244-254 | a non-empty selection is accepted iff all its blocks share one type, that type is one of the eight allowed types, and no selected block has empty text |
| Toolbar.Rule | client/app/components/ContentEditor/index.js:208-255 | `rule` throws (`None`) iff no block has the start key, and otherwise returns whether the selected run is accepted |
| Editor.BlockStyle | client/app/components/ContentEditor/index.js:140-151 | the two list types map to their CSS classes, and every other type maps to the empty string |
| Editor.HidePlaceholder | client/app/components/ContentEditor/index.js:426-427 | the placeholder is hidden iff the document is one empty block whose type is not `unstyled` |
| Editor.ContentChanged | client/app/components/ContentEditor/index.js:340-343 | unchanged content has the same blocks, one by one, and content with a different number of blocks has changed |
| Editor.ContentEditor.NavigationGuard | client/app/components/ContentEditor/index.js:438-441 | the prompt is armed iff the editor is not read-only and the document is unsaved or a save is running |
| Editor.ContentEditor.constructor | client/app/components/ContentEditor/index.js:157-164 | the initial snapshot, its content-link keys, `collapsed == !withToolbar`, not saving, and empty call and persistence logs |
| Editor.ContentEditor.ReceiveProps | client/app/components/ContentEditor/index.js:272-281 | on a new document id, snapshot, keys and collapsed flag are reset from the new props. On the same id they are kept. `saveInProgress` is never touched |
| Editor.ContentEditor.PersistContentLinks | client/app/components/ContentEditor/index.js:283-337 | keeps the snapshot well formed with the same entity keys, and issues exactly `Reconcile`'s calls. It records its key list when it does, writes the merged table into the current snapshot, returns its outcome, and changes nothing else |
| Editor.ContentEditor.PersistState | client/app/components/ContentEditor/index.js:357-359 | appends the content to what has been handed to `persistState` |
| Editor.ContentEditor.OnChange | client/app/components/ContentEditor/index.js:339-355 | given a next snapshot that shares the entity store, the snapshot is always replaced, and a cycle starts iff forced or the content changed. A started cycle follows `Reconcile`, always records the new key list, never fails on an unknown entity, persists only on success, and leaves `saveInProgress` (and the navigation guard) on iff it failed |
| Editor.ContentEditor.Focus | client/app/components/ContentEditor/index.js:361-369 | afterwards the editor is expanded |
| Editor.ContentEditor.HandleClickOutside | client/app/components/ContentEditor/index.js:371-378 | afterwards the editor is collapsed |
| Scenarios.LinksOfScenarios | client/app/components/ContentEditor/index.js:114-138 | on the worked two-block documents the extractor yields `["1"]`, `["2", "1"]` and `[]` |
| Scenarios.AddScenario | client/app/components/ContentEditor/index.js:298-336 | adding a link issues one `addEdge(doc, "n2", "foo")`, records `["2", "1"]`, and stamps `edge123` on entity "2" only |
| Scenarios.RemoveScenario | client/app/components/ContentEditor/index.js:310-320 | deleting a linked span issues one `removeEdge("edge9")` and keeps the content |
| Scenarios.RemoveWithoutEdgeScenario | client/app/components/ContentEditor/index.js:313-316 | deleting a link that never got an edge id still issues `removeEdge(undefined)` |
| Scenarios.FailedCreateScenario | client/app/components/ContentEditor/index.js:305-332 | a rejected create still records the new key list, and the cycle fails at that key |

## Left out

- The `debounce` wrapper around `persistContentLinks` (index.js:172) is not
  modelled. Its timing and promise semantics live in a helper that is not
  part of this model. `OnChange` runs the cycle at once on the latest
  snapshot.
- Concurrent cycles, the interleaving of promise continuations, and React's
  batching of `setState` are not modelled. A cycle is one sequential step,
  so the race between overlapping cycles is not represented.
- `removeEdge` outcomes are not an input. The code swallows their
  rejections, so they cannot change the result.
- `createInitialEditorState` and the JSON/raw conversion
  (index.js:107-111) are not modelled. The initial snapshot is a parameter
  of the constructor and of `ReceiveProps`.
- `componentWillMount`'s plugin wiring, `customBlockRendering`, `render`'s
  JSX, and the window components are not modelled. Only the two predicates
  render computes are modelled, and the toolbar `rule` as a function of
  blocks and selection keys.
- `Editor.ContentEditor.Focus` does not model the DOM call
  `this.editor.editor.focus()`.
- `Editor.ContentChanged` compares block lists, because object identity
  (`prevContent !== content`) has no value-level counterpart. A new but
  equal content object therefore starts no cycle in the model.
- `Extractor.GetAllEntities` and `Editor.ContentEditor.OnChange` require
  that every character's entity key resolves (`Draft.WellFormed`). Draft
  guarantees this, and `getEntity` throws otherwise.
  `Editor.HidePlaceholder` and `Draft.HasText` require at least one block.
  Draft's content state always has one.
- `Editor.ContentEditor.OnChange` requires `Draft.SharesStore` of the next
  snapshot. The model has no global store, so it cannot derive this: each
  new snapshot is assumed to read through the same store, which is what
  Draft 0.10 provides.
- `Editor.ContentEditor.OnChange` requires one create outcome per added key
  when a cycle starts, since the outcomes are given up front.
- `Reconciler.Reconcile` does not require a well-formed snapshot. On a
  snapshot with a character key that does not resolve, `AllLinks` skips
  that key, whereas `getAllEntities` would throw (index.js:128). Every
  caller in `Editor` requires `Draft.WellFormed`, so this never matters
  there.
- `Editor.ContentEditor.constructor` takes `withToolbar` as a plain
  boolean. `ContentEditor.defaultProps` (index.js:516-518) makes an absent
  `withToolbar` prop mean `true`, so the editor starts expanded. That
  defaulting is not modelled.
- `Draft.Block` keeps `text` and `chars` independent. Draft guarantees one
  character record per character of text (`|chars| == |text|`), and the
  model does not state this.
- `Editor.ContentEditor.PersistState` cannot fail. A synchronous throw from
  the `persistState` prop (index.js:358) would skip the reset of
  `saveInProgress` and leave it on. That case is not modelled.
- The graph-physics simulation and the server auth configuration are not
  part of this model.
