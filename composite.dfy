/**
 * The composite element model's copy logic: the clone engine
 * (cloneContainer, cloneChildren) and the placement policy (copyBefore,
 * copyAfter, copyColumnBefore, copyColumnAfter).
 */
module Composite {
  import opened Elements
  import opened TreeCollection

  /** The template hook events for a list of copies, one per copy, in order. */
  function Templates(cs: seq<Element>): (r: seq<Event>)
    ensures |r| == |cs|
    ensures forall k :: 0 <= k < |cs| ==> r[k] == TemplateCreated(cs[k].id)
  {
    seq(|cs|, k requires 0 <= k < |cs| => TemplateCreated(cs[k].id))
  }

  lemma TemplatesAppend(a: seq<Element>, b: seq<Element>)
    ensures Templates(a + b) == Templates(a) + Templates(b)
  {
    assert forall k :: 0 <= k < |a + b| ==> Templates(a + b)[k] == (Templates(a) + Templates(b))[k];
  }

  /** What an observer sees during cloneContainer for `source` when the next
      fresh cid is `next`: the hook for the root copy, the hooks for the
      descendant copies in pre-order, the silent add of all descendants, the
      notifying add of the root copy, and last the refresh of the source view. */
  function CopyTrace(source: View, next: nat): seq<Event>
  {
    var descendants := CloneForest(source.children, next, next + 1);
    [TemplateCreated(next)] + Templates(descendants)
      + [Added(Ids(descendants), true), Added([next], false), Refreshed(source.model.id)]
  }

  /** Which side of the target the copy goes to. */
  datatype Side = Before | After

  /** The records after copyColumnBefore (`Before`) or copyColumnAfter
      (`After`) of `source` beside `target`, starting from records `es` with
      next fresh cid `next`. A column target gets a new sibling column holding
      the copy; any other target is wrapped in a new two-column row, the
      target moved into one column and the copy put into the other; the copy
      is taken after the move, so it sees the target's record where the move
      put it when the target lies inside the copied subtree. */
  function ColumnCopy(es: seq<Element>, next: nat, target: Element, source: View, side: Side): seq<Element>
  {
    if target.tag == ColumnTag then
      var order := if side == Before then target.order - 1 else target.order;
      es + [ColumnRecord(next, target.parent, order)] + CopyRecords(source, next, 0, next + 1)
    else
      var moved := if side == Before then next + 2 else next + 1;
      var copyInto := if side == Before then next + 1 else next + 2;
      Reparent(es + RowRecords(next, target.parent, target.order), target.id, moved)
        + CopyRecords(MovedView(source, target.id, moved), copyInto, 0, next + 3)
  }

  /** The cids copyColumnBefore/After draws: the new column, or the new row
      and its two columns, and then one per view of the copied subtree. */
  function ColumnCopyCids(target: Element, source: View): nat
  {
    (if target.tag == ColumnTag then 1 else 3) + |FlattenView(source)|
  }

  /** Column target: the existing records are untouched (the target is not
      moved), a new column follows them under the target's parent, at the
      target's order minus one for `Before` and at the target's order for
      `After`, and the copy of the source root closes the list as the first
      child (order 0) of that column. */
  lemma ColumnTargetGetsSiblingColumn(es: seq<Element>, next: nat, target: Element, source: View, side: Side)
    requires target.tag == ColumnTag
    ensures var r := ColumnCopy(es, next, target, source, side);
      |r| == |es| + 1 + |FlattenView(source)| &&
      r[..|es|] == es &&
      r[|es|] == Element(next, target.parent,
                         if side == Before then target.order - 1 else target.order,
                         ColumnTag, map[]) &&
      r[|r| - 1] == source.model.(id := next + 1, parent := next, order := 0)
  {
    var rs := CopyRecords(source, next, 0, next + 1);
    CopyRecordsShape(source, next, 0, next + 1);
    var r := ColumnCopy(es, next, target, source, side);
    assert r == es + [ColumnRecord(next, target.parent, if side == Before then target.order - 1 else target.order)] + rs;
    assert r[|r| - 1] == rs[|rs| - 1];
  }

  /** Any other target: a new row follows the existing records under the
      target's parent at the target's order, then its two columns (orders 0
      and 1); the target's record moves to order 0 of the last column for
      `Before` and of the first column for `After`, every other existing
      record is unchanged, and the copy of the source root closes the list at
      order 0 of the other column. The descendant copies, which come between,
      are taken after the move: a copy of the target's record has order 0. */
  lemma OtherTargetWrappedInRow(es: seq<Element>, next: nat, target: Element, source: View, side: Side)
    requires target.tag != ColumnTag
    requires target.id < next
    ensures var r := ColumnCopy(es, next, target, source, side);
      var moved := if side == Before then next + 2 else next + 1;
      var copyInto := if side == Before then next + 1 else next + 2;
      |r| == |es| + 3 + |FlattenView(source)| &&
      (forall k :: 0 <= k < |es| ==>
         r[k] == if es[k].id == target.id then es[k].(parent := moved, order := 0) else es[k]) &&
      r[|es|] == Element(next, target.parent, target.order, RowTag, map[]) &&
      r[|es| + 1] == Element(next + 1, next, 0, ColumnTag, map[]) &&
      r[|es| + 2] == Element(next + 2, next, 1, ColumnTag, map[]) &&
      r[|r| - 1] == source.model.(id := next + 3, parent := copyInto, order := 0) &&
      moved != copyInto
  {
    var moved := if side == Before then next + 2 else next + 1;
    var copyInto := if side == Before then next + 1 else next + 2;
    var grid := Reparent(es + RowRecords(next, target.parent, target.order), target.id, moved);
    var rs := CopyRecords(MovedView(source, target.id, moved), copyInto, 0, next + 3);
    CopyAfterMoveRoot(source, target.id, moved, copyInto, 0, next + 3);
    var r := ColumnCopy(es, next, target, source, side);
    assert r == grid + rs;
    assert forall k :: 0 <= k < |grid| ==> r[k] == grid[k];
    assert forall k :: 0 <= k < |es| ==> (es + RowRecords(next, target.parent, target.order))[k] == es[k];
    assert r[|r| - 1] == rs[|rs| - 1];
  }

  /** Any other target, the copies between the root copy and the new row:
      they are taken after insertChild moved the target, so a copy of the
      target's own record (the target lying inside the copied subtree) has
      order 0, and every other descendant copy keeps its source's order; all
      other attributes but id and parent are the source's. */
  lemma OtherTargetCopiedAfterMove(es: seq<Element>, next: nat, target: Element, source: View, side: Side)
    requires target.tag != ColumnTag
    ensures var r := ColumnCopy(es, next, target, source, side);
      |r| == |es| + 3 + |FlattenView(source)| &&
      forall k :: 0 <= k < |FlattenView(source)| - 1 ==>
        var d := Flatten(source.children)[k];
        r[|es| + 3 + k] == d.(id := next + 4 + k, parent := r[|es| + 3 + k].parent,
                               order := if d.id == target.id then 0 else d.order)
  {
    var moved := if side == Before then next + 2 else next + 1;
    var copyInto := if side == Before then next + 1 else next + 2;
    var grid := Reparent(es + RowRecords(next, target.parent, target.order), target.id, moved);
    var rs := CopyRecords(MovedView(source, target.id, moved), copyInto, 0, next + 3);
    CopyAfterMove(source, target.id, moved, copyInto, 0, next + 3);
    var r := ColumnCopy(es, next, target, source, side);
    assert |grid| == |es| + 3;
    assert r == grid + rs;
    forall k | 0 <= k < |FlattenView(source)| - 1
      ensures var d := Flatten(source.children)[k];
        r[|es| + 3 + k] == d.(id := next + 4 + k, parent := r[|es| + 3 + k].parent,
                               order := if d.id == target.id then 0 else d.order)
    {
      assert r[|es| + 3 + k] == rs[k];
    }
  }

  /** Children of `p` in a record list: the positions whose record has parent p. */
  predicate ChildAt(r: seq<Element>, j: int, p: Id)
  {
    0 <= j < |r| && r[j].parent == p
  }

  /** Column target, when no existing record and not the target's parent
      already points at a cid the copy draws: the root copy is the only child
      of the new column. */
  lemma NewColumnHoldsOnlyCopy(es: seq<Element>, next: nat, target: Element, source: View, side: Side)
    requires target.tag == ColumnTag
    requires target.parent < next
    requires forall k :: 0 <= k < |es| ==> es[k].parent < next
    ensures var r := ColumnCopy(es, next, target, source, side);
      forall j :: ChildAt(r, j, next) <==> j == |r| - 1
  {
    var r := ColumnCopy(es, next, target, source, side);
    var rs := CopyRecords(source, next, 0, next + 1);
    CopyRecordsShape(source, next, 0, next + 1);
    var head := es + [ColumnRecord(next, target.parent, if side == Before then target.order - 1 else target.order)];
    assert r == head + rs;
    forall j | 0 <= j < |r| ensures r[j].parent == next <==> j == |r| - 1 {
      if j < |es| {
        assert r[j] == es[j];
      } else if j == |es| {
        assert r[j] == head[|es|];
      } else {
        assert r[j] == rs[j - |head|];
      }
    }
  }

  /** Any other target, under the same condition: the new row's only children
      are its two columns, and the root copy is the only child of the column
      it goes to. */
  lemma NewRowHoldsColumnsAndCopy(es: seq<Element>, next: nat, target: Element, source: View, side: Side)
    requires target.tag != ColumnTag
    requires target.id < next && target.parent < next
    requires forall k :: 0 <= k < |es| ==> es[k].parent < next
    ensures var r := ColumnCopy(es, next, target, source, side);
      var copyInto := if side == Before then next + 1 else next + 2;
      (forall j :: ChildAt(r, j, next) <==> j == |es| + 1 || j == |es| + 2) &&
      (forall j :: ChildAt(r, j, copyInto) <==> j == |r| - 1)
  {
    var moved := if side == Before then next + 2 else next + 1;
    var copyInto := if side == Before then next + 1 else next + 2;
    var grid := Reparent(es + RowRecords(next, target.parent, target.order), target.id, moved);
    var mv := MovedView(source, target.id, moved);
    var rs := CopyRecords(mv, copyInto, 0, next + 3);
    CopyRecordsShape(mv, copyInto, 0, next + 3);
    var r := ColumnCopy(es, next, target, source, side);
    assert |grid| == |es| + 3;
    assert r == grid + rs;
    forall j | 0 <= j < |r|
      ensures (r[j].parent == next <==> j == |es| + 1 || j == |es| + 2) &&
              (r[j].parent == copyInto <==> j == |r| - 1)
    {
      if j < |grid| {
        assert r[j] == grid[j];
        if j < |es| {
          assert (es + RowRecords(next, target.parent, target.order))[j] == es[j];
        }
      } else {
        assert r[j] == rs[j - |grid|];
      }
    }
  }

  lemma Regroup<T>(x: seq<T>, a: seq<T>, b: seq<T>, c: seq<T>)
    ensures x + ((a + b) + c) == ((x + a) + b) + c
  {
  }

  lemma TemplatesRegroup(t: seq<Event>, clone: Element, below: seq<Element>, rest: seq<Element>)
    ensures t + Templates(([clone] + below) + rest)
         == ((t + [TemplateCreated(clone.id)]) + Templates(below)) + Templates(rest)
  {
    TemplatesAppend([clone] + below, rest);
    TemplatesAppend([clone], below);
    assert Templates([clone]) == [TemplateCreated(clone.id)];
    Regroup(t, [TemplateCreated(clone.id)], Templates(below), Templates(rest));
  }

  /** The descendant copies of `source` carry the consecutive cids after
      `next`, so no two share an id and none reaches the counter after them. */
  lemma DescendantIds(source: View, next: nat)
    ensures var ds := CloneForest(source.children, next, next + 1);
      UniqueIds(ds) &&
      forall k :: 0 <= k < |ds| ==> ds[k].id == next + 1 + k < next + |FlattenView(source)|
  {
    var ds := CloneForest(source.children, next, next + 1);
    CloneForestEntries(source.children, next, next + 1);
    assert |FlattenView(source)| == 1 + |ds|;
    assert forall k :: 0 <= k < |ds| ==> ds[k].id == next + 1 + k;
  }

  /** Committing a copy to records whose ids are all below `next` adds it
      whole: the silent add appends every descendant copy and the second add
      appends the root copy after them. */
  lemma CommitIsAppend(es: seq<Element>, source: View, parent: Id, index: int, next: nat)
    requires UniqueIds(es)
    requires forall k :: 0 <= k < |es| ==> es[k].id < next
    ensures var ds := CloneForest(source.children, next, next + 1);
      var root := source.model.(id := next, parent := parent, order := index);
      (forall k :: 0 <= k < |ds| ==> ds[k].id < next + |FlattenView(source)|) &&
      Merge(es, ds) == es + ds &&
      Merge(es + ds, [root]) == es + CopyRecords(source, parent, index, next)
  {
    var ds := CloneForest(source.children, next, next + 1);
    var root := source.model.(id := next, parent := parent, order := index);
    DescendantIds(source, next);
    IdsBelow(es, next);
    MergeFresh(es, ds);
    var es' := es + ds;
    assert forall k :: 0 <= k < |es'| ==> es'[k].id != next by {
      forall k | 0 <= k < |es'| ensures es'[k].id != next {
        if k >= |es| { assert es'[k] == ds[k - |es|]; }
      }
    }
    IdAbsent(es', next);
    MergeFresh(es', [root]);
    assert (es + ds) + [root] == es + (ds + [root]);
  }

  /** The copies take the cids next .. next + n - 1 for a subtree of n views,
      so after the commit no two records share an id: none of the copies
      reuses an id of an existing record, and no two copies share one. */
  lemma CopyIdsFresh(es: seq<Element>, source: View, parent: Id, index: int, next: nat)
    requires UniqueIds(es)
    requires forall k :: 0 <= k < |es| ==> es[k].id < next
    ensures var rs := CopyRecords(source, parent, index, next);
      (forall k :: 0 <= k < |rs| ==> next <= rs[k].id < next + |FlattenView(source)|) &&
      UniqueIds(es + rs)
  {
    var rs := CopyRecords(source, parent, index, next);
    CommitIsAppend(es, source, parent, index, next);
    MergeKeeps(es, CloneForest(source.children, next, next + 1));
    MergeKeeps(es + CloneForest(source.children, next, next + 1),
               [source.model.(id := next, parent := parent, order := index)]);
    DescendantIds(source, next);
    CopyRecordsShape(source, parent, index, next);
    forall k | 0 <= k < |rs| ensures next <= rs[k].id < next + |FlattenView(source)| {
      if k < |rs| - 1 { assert rs[k] == CloneForest(source.children, next, next + 1)[k]; }
    }
  }

  /** Every id listed is below `bound` when every record's id is. */
  lemma IdsBelow(es: seq<Element>, bound: nat)
    requires forall k :: 0 <= k < |es| ==> es[k].id < bound
    ensures forall x :: x in Ids(es) ==> x < bound
  {
  }

  lemma IdAbsent(es: seq<Element>, id: Id)
    requires forall k :: 0 <= k < |es| ==> es[k].id != id
    ensures id !in Ids(es)
  {
  }

  /** The trace of cloneContainer, event by event. */
  lemma CopyTraceRegroup(t: seq<Event>, source: View, next: nat)
    ensures var ds := CloneForest(source.children, next, next + 1);
      t + CopyTrace(source, next)
        == ((((t + [TemplateCreated(next)]) + Templates(ds)) + [Added(Ids(ds), true)])
            + [Added([next], false)]) + [Refreshed(source.model.id)]
  {
  }

  /** Moving a record changes what the copies carry, never their ids, so the
      notifications of a copy are the same whether it is taken before or
      after the move. */
  lemma CopyTraceAfterMove(source: View, id: Id, column: Id, next: nat)
    ensures CopyTrace(MovedView(source, id, column), next) == CopyTrace(source, next)
  {
    var mv := MovedView(source, id, column);
    var d0 := CloneForest(source.children, next, next + 1);
    var d1 := CloneForest(mv.children, next, next + 1);
    CloneForestEntries(source.children, next, next + 1);
    CloneForestEntries(mv.children, next, next + 1);
    MovedForestShows(source.children, id, column);
    assert Ids(d1) == Ids(d0);
    assert Templates(d1) == Templates(d0);
  }

  /** `r` starts with `t` and ends with `tail`, which do not overlap. */
  predicate Extends(t: seq<Event>, r: seq<Event>, tail: seq<Event>)
  {
    |t| + |tail| <= |r| && r[..|t|] == t && r[|r| - |tail|..] == tail
  }

  /** A trace that the factory calls may have extended and a copy then
      appended to still starts with the old trace and ends with the copy's. */
  lemma TraceEndsWith(t: seq<Event>, mid: seq<Event>, done: seq<Event>)
    requires t <= mid
    ensures Extends(t, mid + done, done)
  {
    assert (mid + done)[..|t|] == mid[..|t|];
  }

  class CompositeModel {
    /** The collection the element belongs to (`this.collection`). */
    const collection: Collection

    constructor (collection: Collection)
      ensures this.collection == collection
    {
      this.collection := collection;
    }

    /** createTemplate(id, view): rebuilds the markup of the copy `id` from
        `view`. Only the fact that it ran is modelled. */
    method CreateTemplate(id: Id, view: View)
      modifies collection`trace
      ensures collection.trace == old(collection.trace) + [TemplateCreated(id)]
    {
      collection.Notify(TemplateCreated(id));
    }

    /** cloneChildren(childViews, parent, clones): pushes onto `clones` a copy
        of every view of the subtrees `childViews`, in depth-first pre-order,
        each with a fresh cid as id and the id of its copied parent as
        parent. The records themselves are not touched. */
    method CloneChildren(childViews: seq<View>, parentId: Id, clones: seq<Element>)
      returns (result: seq<Element>)
      requires collection.Valid()
      modifies collection`nextCid, collection`trace
      ensures collection.Valid()
      ensures result == clones + CloneForest(childViews, parentId, old(collection.nextCid))
      ensures collection.nextCid == old(collection.nextCid) + |Flatten(childViews)|
      ensures collection.trace
           == old(collection.trace) + Templates(CloneForest(childViews, parentId, old(collection.nextCid)))
      decreases childViews
    {
      ghost var n0 := collection.nextCid;
      result := clones;
      var i := 0;
      while i < |childViews|
        invariant 0 <= i <= |childViews|
        invariant collection.Valid()
        invariant |clones| <= |result|
        invariant clones + CloneForest(childViews, parentId, n0)
               == result + CloneForest(childViews[i..], parentId, collection.nextCid)
        invariant collection.nextCid + |clones| == n0 + |result|
        invariant collection.trace + Templates(CloneForest(childViews[i..], parentId, collection.nextCid))
               == old(collection.trace) + Templates(CloneForest(childViews, parentId, n0))
      {
        var childView := childViews[i];
        ghost var before := result;
        ghost var t := collection.trace;
        ghost var c := collection.nextCid;
        // childView.model.clone(): the same attributes under a fresh cid
        var cid := collection.NewCid();
        var clone := childView.model;
        clone := clone.(id := cid);
        clone := clone.(parent := parentId);
        CreateTemplate(clone.id, childView);
        result := result + [clone];
        result := CloneChildren(childView.children, clone.id, result);
        i := i + 1;
        ghost var below := CloneForest(childView.children, c, c + 1);
        ghost var rest := CloneForest(childViews[i..], parentId, collection.nextCid);
        CloneForestLength(childView.children, c, c + 1);
        CloneForestStep(childViews, i - 1, parentId, c);
        assert CloneView(childView, parentId, c) == [clone] + below;
        assert c + |CloneView(childView, parentId, c)| == collection.nextCid;
        assert CloneForest(childViews[i - 1..], parentId, c) == ([clone] + below) + rest;
        Regroup(before, [clone], below, rest);
        TemplatesRegroup(t, clone, below, rest);
      }
      assert childViews[i..] == [];
      assert clones + CloneForest(childViews, parentId, n0) == result + [];
      assert collection.trace + [] == old(collection.trace) + Templates(CloneForest(childViews, parentId, n0));
      CloneForestLength(childViews, parentId, n0);
    }

    /** cloneContainer(sourceView, parent, index): copies the subtree of
        `sourceView` under `parent` at `index`, adds the descendant copies
        silently, then the root copy, and refreshes the source view. */
    method CloneContainer(sourceView: View, parent: Id, index: int)
      requires collection.Valid()
      modifies collection
      ensures collection.Valid()
      ensures collection.elements
           == old(collection.elements) + CopyRecords(sourceView, parent, index, old(collection.nextCid))
      ensures collection.nextCid == old(collection.nextCid) + |FlattenView(sourceView)|
      ensures collection.trace == old(collection.trace) + CopyTrace(sourceView, old(collection.nextCid))
    {
      ghost var n := collection.nextCid;
      ghost var es := collection.elements;
      ghost var t := collection.trace;
      // sourceView.model.clone(), then the new id, parent and order
      var cid := collection.NewCid();
      var clone := sourceView.model.(id := cid, parent := parent, order := index);
      CreateTemplate(clone.id, sourceView);
      var clonedChildren := CloneChildren(sourceView.children, clone.id, []);
      assert clonedChildren == CloneForest(sourceView.children, n, n + 1);
      CommitIsAppend(es, sourceView, parent, index, n);
      collection.Add(clonedChildren, true);
      collection.Add([clone], false);
      assert Ids([clone]) == [n];
      collection.Notify(Refreshed(sourceView.model.id));
      CopyTraceRegroup(t, sourceView, n);
    }

    /** copyBefore(targetView, sourceView): the copy goes under the target's
        parent at the target's order minus one. */
    method CopyBefore(targetView: View, sourceView: View)
      requires collection.Valid()
      modifies collection
      ensures collection.Valid()
      ensures collection.elements
           == old(collection.elements)
              + CopyRecords(sourceView, targetView.model.parent, targetView.model.order - 1,
                            old(collection.nextCid))
      ensures collection.nextCid == old(collection.nextCid) + |FlattenView(sourceView)|
      ensures collection.trace == old(collection.trace) + CopyTrace(sourceView, old(collection.nextCid))
    {
      CloneContainer(sourceView, targetView.model.parent, targetView.model.order - 1);
    }

    /** copyAfter(targetView, sourceView): the copy goes under the target's
        parent at the target's order. */
    method CopyAfter(targetView: View, sourceView: View)
      requires collection.Valid()
      modifies collection
      ensures collection.Valid()
      ensures collection.elements
           == old(collection.elements)
              + CopyRecords(sourceView, targetView.model.parent, targetView.model.order,
                            old(collection.nextCid))
      ensures collection.nextCid == old(collection.nextCid) + |FlattenView(sourceView)|
      ensures collection.trace == old(collection.trace) + CopyTrace(sourceView, old(collection.nextCid))
    {
      CloneContainer(sourceView, targetView.model.parent, targetView.model.order);
    }

    /** copyColumnBefore(targetView, sourceView). */
    method CopyColumnBefore(targetView: View, sourceView: View)
      requires collection.Valid()
      modifies collection
      ensures collection.Valid()
      ensures collection.elements
           == ColumnCopy(old(collection.elements), old(collection.nextCid),
                         targetView.model, sourceView, Before)
      ensures collection.nextCid
           == old(collection.nextCid) + ColumnCopyCids(targetView.model, sourceView)
      ensures Extends(old(collection.trace), collection.trace,
                      CopyTrace(sourceView, old(collection.nextCid)
                                            + (if targetView.model.tag == ColumnTag then 1 else 3)))
    {
      ghost var n := collection.nextCid;
      ghost var t := collection.trace;
      var parent := targetView.model.parent;
      if targetView.model.tag == ColumnTag {
        var column := collection.CreateColumn(parent, targetView.model.order - 1);
        ghost var mid := collection.trace;
        CloneContainer(sourceView, column.id, 0);
        TraceEndsWith(t, mid, CopyTrace(sourceView, n + 1));
      } else {
        var columns := collection.CreateRow(parent, targetView.model.order);
        collection.InsertChild(targetView.model, columns[|columns| - 1]);
        // The views show the collection's own models, so the subtree being
        // copied now shows the target's record where insertChild put it.
        ghost var mid := collection.trace;
        var shown := MovedView(sourceView, targetView.model.id, columns[|columns| - 1].id);
        MovedViewSize(sourceView, targetView.model.id, columns[|columns| - 1].id);
        CloneContainer(shown, columns[0].id, 0);
        CopyTraceAfterMove(sourceView, targetView.model.id, columns[|columns| - 1].id, n + 3);
        TraceEndsWith(t, mid, CopyTrace(sourceView, n + 3));
      }
    }

    /** copyColumnAfter(targetView, sourceView). */
    method CopyColumnAfter(targetView: View, sourceView: View)
      requires collection.Valid()
      modifies collection
      ensures collection.Valid()
      ensures collection.elements
           == ColumnCopy(old(collection.elements), old(collection.nextCid),
                         targetView.model, sourceView, After)
      ensures collection.nextCid
           == old(collection.nextCid) + ColumnCopyCids(targetView.model, sourceView)
      ensures Extends(old(collection.trace), collection.trace,
                      CopyTrace(sourceView, old(collection.nextCid)
                                            + (if targetView.model.tag == ColumnTag then 1 else 3)))
    {
      ghost var n := collection.nextCid;
      ghost var t := collection.trace;
      var parent := targetView.model.parent;
      if targetView.model.tag == ColumnTag {
        var column := collection.CreateColumn(parent, targetView.model.order);
        ghost var mid := collection.trace;
        CloneContainer(sourceView, column.id, 0);
        TraceEndsWith(t, mid, CopyTrace(sourceView, n + 1));
      } else {
        var columns := collection.CreateRow(parent, targetView.model.order);
        collection.InsertChild(targetView.model, columns[0]);
        // The views show the collection's own models, so the subtree being
        // copied now shows the target's record where insertChild put it.
        ghost var mid := collection.trace;
        var shown := MovedView(sourceView, targetView.model.id, columns[0].id);
        MovedViewSize(sourceView, targetView.model.id, columns[0].id);
        CloneContainer(shown, columns[|columns| - 1].id, 0);
        CopyTraceAfterMove(sourceView, targetView.model.id, columns[0].id, n + 3);
        TraceEndsWith(t, mid, CopyTrace(sourceView, n + 3));
      }
    }
  }
}
