# Copying elements in the page editor's content tree

This project models the copy logic of the page editor's composite element model,
`CompositeModel` in `assets/js/src/entities/models/elements/model-composite.js`, and proves
properties about it. The logic has two parts.

- **Clone engine.**
  - `cloneContainer` deep-copies the subtree shown by a source view. The root copy gets a fresh
    cid as its id, plus an explicitly passed parent and order.
  - `cloneChildren` walks the child views depth-first. It pushes one copy per view onto a shared
    accumulator. Each copy gets a fresh cid and its copied parent's id, and keeps every other
    attribute of its source, `order` included.
  - The descendant copies are added to the collection silently. The root copy is added after
    them, with notification. Last, the source view is refreshed.
- **Placement policy.**
  - `copyBefore` and `copyAfter` place the copy under the target's parent, at the target's order
    minus one or at the target's order.
  - `copyColumnBefore` and `copyColumnAfter` branch on whether the target is a `tailor_column`.
    - A column target gets a new sibling column, and the copy becomes that column's first child.
    - Any other target is wrapped in a new two-column row. The target itself moves into one
      column and the copy goes into the other.

The model is in three modules:

- `Elements` (`elements.dfy`)
  - Data: element records, and views as a rose tree of models.
  - Pure descriptions: `CloneForest` is the flat pre-order list `cloneChildren` builds.
    `CopyForest` is the tree-shaped copy it is judged against. `CopyRecords` is what
    `cloneContainer` adds.
  - The lemmas about these.
- `TreeCollection` (`collection.dfy`)
  - The collection as a class with three fields: the records, the cid counter, and a trace of
    the notifications raised during a copy.
  - `add` is modelled as an append that skips records whose id is already present.
  - `createRow`, `createColumn` and `insertChild` have stand-in bodies. Their contracts are the
    ones the copy logic relies on.
- `Composite` (`composite.dfy`)
  - The class `CompositeModel`, with one method per source function. Each method is proved
    against the pure descriptions.
  - `ColumnCopy`, the record list the column placements produce, and its lemmas.

Views are values here. The source code calls `set` only on copies, so a copy never changes its
source. In the source, a view's model is the collection's own record object. So, in the wrap
branch of the column placements, `insertChild` moves the target's record before the subtree is
copied. If the target lies inside the copied subtree, the copy sees the moved record.
`MovedView` models this: it is the source view as it shows after the move, and the copy is taken
from it.

## Model

| member | source | states |
|---|---|---|
| Elements.CopyForest | assets/js/src/entities/models/elements/model-composite.js:56-74 | The tree-shaped copy of sibling views has the source's shape and sibling order. Every model keeps all attributes but `id` and `parent`. Every top-level copy has the passed parent. Every copy below has as parent the id of the copy directly above it. |
| Elements.CloneViewLength | assets/js/src/entities/models/elements/model-composite.js:58-70 | Copying a view pushes exactly one record per view of its subtree. |
| Elements.CloneForestLength | assets/js/src/entities/models/elements/model-composite.js:58-70 | Copying sibling views pushes exactly one record per view of their subtrees. |
| Elements.CloneViewEntries | assets/js/src/entities/models/elements/model-composite.js:59-68 | Entry k of a view's copies is the k-th model of its subtree in pre-order, with cid next + k, and with every attribute but `parent` unchanged (`order` and `tag` included). |
| Elements.CloneForestEntries | assets/js/src/entities/models/elements/model-composite.js:58-70 | The same for sibling views: entry k is the k-th source model in pre-order, with id next + k and only its parent changed. |
| Elements.CloneViewParentsPrecede | assets/js/src/entities/models/elements/model-composite.js:59-68 | Every copy in a view's subtree has as parent either the passed parent or the id of a copy pushed before it. |
| Elements.CloneForestParentsPrecede | assets/js/src/entities/models/elements/model-composite.js:58-68 | A node is pushed before its children are recursed into, so every copy's parent is the copied parent passed in or an earlier copy's id. |
| Elements.CloneViewIsFlattenedCopy | assets/js/src/entities/models/elements/model-composite.js:59-68 | The flat copies of a view are exactly the pre-order listing of its tree-shaped copy. |
| Elements.CloneForestIsFlattenedCopy | assets/js/src/entities/models/elements/model-composite.js:56-74 | The flat list `cloneChildren` builds is exactly the pre-order listing of the tree-shaped copies: same nodes, same sibling order, same nesting. |
| Elements.CopyRecordsShape | assets/js/src/entities/models/elements/model-composite.js:25-36 | `cloneContainer` adds one record per view of the subtree. The root copy comes last, with the first fresh cid, the passed parent and index, and the source root's other attributes. The descendant copies come before it, with the following cids, each under a copy with a smaller id. |
| TreeCollection.MergeKeeps | assets/js/src/entities/models/elements/model-composite.js:35-36 | Adding a batch keeps the existing records in place, and every record it appends comes from the batch. Every id of the batch is present afterwards. Unique ids stay unique. |
| TreeCollection.MergeFresh | assets/js/src/entities/models/elements/model-composite.js:35-36 | A batch with distinct ids, none of them present yet, is appended whole and in order. |
| TreeCollection.Collection.NewCid | assets/js/src/entities/models/elements/model-composite.js:25-27 | `clone()` draws the next cid from the counter and advances it. Records and trace stay unchanged. |
| TreeCollection.Collection.Add | assets/js/src/entities/models/elements/model-composite.js:35-36 | `collection.add` merges the batch into the records and logs one add event with the batch's ids and its silent flag. The counter is unchanged and ids stay unique. |
| TreeCollection.Collection.CreateColumn | assets/js/src/entities/models/elements/model-composite.js:112 | Assumed contract: one column record is appended under the given parent at the given order, with the next cid. Notifications may be appended to the trace. |
| TreeCollection.Collection.CreateRow | assets/js/src/entities/models/elements/model-composite.js:116 | Assumed contract: a row is appended under the given parent at the given order, followed by its two columns (orders 0 and 1). The two columns are returned left to right. Notifications may be appended to the trace. |
| TreeCollection.Collection.InsertChild | assets/js/src/entities/models/elements/model-composite.js:117 | Assumed contract: the existing record of the model (not a copy) moves to order 0 of the column. Every other record is unchanged. Notifications may be appended to the trace. |
| Composite.DescendantIds | assets/js/src/entities/models/elements/model-composite.js:59-60 | The descendant copies carry the consecutive cids after the root copy's, so they are pairwise distinct and below the counter afterward. |
| Composite.CommitIsAppend | assets/js/src/entities/models/elements/model-composite.js:35-36 | Into records whose ids all predate the copy, the silent add appends every descendant copy, and then the second add appends the root copy. |
| Composite.CopyIdsFresh | assets/js/src/entities/models/elements/model-composite.js:25-36 | Every copy gets a cid in the block drawn for this copy. After the commit no two records share an id: neither an existing record's id nor another copy's. |
| Composite.ColumnTargetGetsSiblingColumn | assets/js/src/entities/models/elements/model-composite.js:111-136 | Column target (lines 111-113 and 134-136): the existing records are untouched and the target is not moved. A new column follows them under the target's parent, at the target's order minus one for "before" and at the target's order for "after". The root copy is that column's child at order 0. |
| Composite.OtherTargetWrappedInRow | assets/js/src/entities/models/elements/model-composite.js:116-141 | Non-column target (lines 116-118 and 139-141): a row is added at the target's parent and order, with two columns at orders 0 and 1. The target's record moves to order 0 of the last column for "before" and of the first column for "after"; every other existing record is unchanged. The root copy goes to order 0 of the other column, and the two columns always differ. |
| Composite.OtherTargetCopiedAfterMove | assets/js/src/entities/models/elements/model-composite.js:116-141 | Non-column target: the descendant copies are taken after `insertChild` moved the target (lines 117/140 before 118/141). A copy of the target's own record has order 0. Every other descendant copy keeps its source's order. All other attributes but id and parent are the source's. |
| Elements.MovedViewShows | assets/js/src/entities/models/elements/model-composite.js:117 | A view after the move shows exactly the moved records, in the same pre-order: the collection's move applied to the subtree's models. |
| Elements.MovedForestShows | assets/js/src/entities/models/elements/model-composite.js:117 | The same for a list of sibling views. |
| Elements.CopyAfterMove | assets/js/src/entities/models/elements/model-composite.js:25-36 | Copying after the record `id` moved keeps the root copy, the count, the cids and the parent links. A descendant copy of the moved record has order 0, and every other descendant keeps its source's order. |
| Composite.CopyTraceAfterMove | assets/js/src/entities/models/elements/model-composite.js:31-43 | A move before the copy changes no id, so the copy's notifications are the same. |
| Composite.NewColumnHoldsOnlyCopy | assets/js/src/entities/models/elements/model-composite.js:111-136 | Column target, when neither an existing record's parent nor the target's parent reaches the cids the copy draws: the root copy is the only child of the new column. |
| Composite.NewRowHoldsColumnsAndCopy | assets/js/src/entities/models/elements/model-composite.js:116-141 | Non-column target, under the same condition, with the target's id also older: the new row's only children are its two columns, and the root copy is the only child of the column it goes to. |
| Composite.CompositeModel.CreateTemplate | assets/js/src/entities/models/elements/model-composite.js:31 | The template hook only logs that it ran for the copy's cid. Records and counter are unchanged. |
| Composite.CompositeModel.CloneChildren | assets/js/src/entities/models/elements/model-composite.js:56-74 | The result is the accumulator followed by the flat pre-order copies of the child views. An empty list returns the accumulator unchanged. The counter advances by the number of views copied, the records are unchanged, and one template hook per copy is logged in push order. |
| Composite.CompositeModel.CloneContainer | assets/js/src/entities/models/elements/model-composite.js:23-44 | The records become the old records followed by the subtree's copy records. Ids stay unique. The counter advances by the subtree's size. The trace is: the hook for the root, the hooks for the descendants, the silent add of the descendants, the notifying add of the root, then the refresh of the source view. |
| Composite.CompositeModel.CopyBefore | assets/js/src/entities/models/elements/model-composite.js:84-86 | The copy is committed under the target's parent at the target's order minus one. |
| Composite.CompositeModel.CopyAfter | assets/js/src/entities/models/elements/model-composite.js:96-98 | The copy is committed under the target's parent at the target's order. |
| Composite.CompositeModel.CopyColumnBefore | assets/js/src/entities/models/elements/model-composite.js:108-121 | The records become `ColumnCopy(..., Before)`, whose two branches the lemmas above describe. In the wrap branch the copy is taken after the target's move. The counter advances by the container cids plus the subtree's size. The trace starts with the old trace and ends with the copy's events, whose cids start after the container cids. Events the factory calls may raise come in between. |
| Composite.CompositeModel.CopyColumnAfter | assets/js/src/entities/models/elements/model-composite.js:131-143 | The same with `ColumnCopy(..., After)`. |

## Left out

- createTemplate (lines 153-170): DOM work, recorded only as a `TemplateCreated(cid)` event with no effect on records. It runs for every copied node (lines 31 and 63). For each one it:
  - reads the `is-editing` class of the view it is given, which is the source view, not the copy;
  - detaches the markup of that view's children;
  - appends the copy's template;
  - reattaches the markup;
  - adds `is-editing` back to that source view if it was there.
- beforeCopyElement, appendTemplate, afterCopyElement: base-model and view calls whose bodies are not part of this model. Only `element:refresh` on the source view is recorded, as a `Refreshed` event.
- TreeCollection.Collection.CreateRow: the collection's source is not part of this model. The body is a stand-in that meets an assumed contract. The row tag `tailor_row` is an assumption.
- TreeCollection.Collection.CreateColumn: a stand-in body with an assumed contract, for the same reason.
- TreeCollection.Collection.InsertChild: a stand-in body with an assumed contract. It sets the moved record's parent and order 0 and renumbers no siblings.
- The factory calls may raise notifications, so their contracts only say that the trace is extended. For the column placements, the model therefore promises that the trace ends with the copy's events, not that those are the only new ones.
- Views are values. The one change the copy logic makes to a record before copying is the move by `insertChild`, and `MovedView` carries it into the copied subtree. The view tree itself is taken unchanged by `createRow` and `insertChild`. If the target lies inside the copied subtree and the views re-render on collection changes, the source would also copy the new row and columns. The model does not. Any renumbering of other records that the real factory calls might do is not part of this model either, and neither is its effect on the copy.
- TreeCollection.Collection.CreateColumn: the model does not prove that the new column, or the new row, is childless in every valid state. `Valid` bounds ids, not parents, so an existing record may already name the next cid as its parent. `NewColumnHoldsOnlyCopy` and `NewRowHoldsColumnsAndCopy` prove childlessness when every existing parent, and the target's parent and id, come before the cids the copy draws.
- No claim is made that sibling `order` values stay contiguous after a copy, because that depends on the collection's renumbering, which is not part of this model.
- TreeCollection.Collection.Add: Backbone's sorting by comparator, `merge` options and change events are not modelled. A record whose id is already present is skipped. Silencing is recorded only as a flag on the add event.
- Cids are naturals drawn from one counter. Backbone's `c123` string format, and where the counter lives, are not modelled. In the source the counter is global. The hooks, the factory calls and the model and view constructors outside this file could draw from it too. The model takes them to draw no cids, so the exact numbering (consecutive cids, `next + k`) belongs to the model. Freshness and uniqueness hold whatever else draws.
- TreeCollection.Collection.Valid: assumes that every existing record's id is a cid drawn from the same counter, below its current value. The source only guarantees that a new cid is new among the models created in this page load. An existing record could carry an id that equals a fresh cid. Backbone's `add` would then silently drop the copy, and `Merge` models that drop. The freshness results (`CopyIdsFresh`, `CommitIsAppend`, and the "old records followed by all copies" of `CloneContainer`) rest on this assumption.
- `parent` is an `Id` like any other. How the collection marks a top-level element's parent is not part of this model. The copy logic only passes on the parent it is given or sets a fresh cid, so it never needs that marker. Nothing here rules out the marker colliding with a cid.
- `clone()` is modelled as "same attributes". Backbone's shallow copying of nested attribute values is not modelled.
- A view without a child container is a view with no children. At the root, the source would throw when it reads the length of a missing container. This model does not.
- No guard exists for `order - 1` going negative. `order` is an `int`, and no claim is made about its range.
- The source has no error handling and no rollback, so neither does the model. Errors from the hook or the collection are not modelled.
- Where one might expect atomic commit and abort on failure, the code differs, and the model follows the code:
  - Every hook call (lines 31 and 63) comes before both adds (lines 35-36). So a hook that throws propagates out of `cloneChildren` and `cloneContainer` before any record is committed. What stays behind are the cids already drawn and the templates already appended for earlier nodes. The model has no failing hook, so it does not show this.
  - The descendants' adds are silent rather than invisible. Each direct child copy points at the root copy before the root is added.
