/**
 * Element records of the page editor's content tree, the view tree that
 * mirrors them, and the pure description of what copying a subtree
 * produces.
 */
module Elements {

  /** Element identities. Every id the copy logic creates is a model cid drawn
      from one counter, so ids are naturals. */
  type Id = nat

  /** The one tag the placement policy distinguishes. */
  const ColumnTag: string := "tailor_column"

  /** An element record: the attributes the copy logic reads or writes,
      plus everything else it copies unchanged. */
  datatype Element = Element(
    id: Id,
    parent: Id,
    order: int,
    tag: string,
    attrs: map<string, string>)

  /** A view: the model it displays and its child views, in display order.
      A view without a child container is a view with no children. */
  datatype View = View(model: Element, children: seq<View>)

  /** The models of a view and all views below it, in depth-first pre-order. */
  function FlattenView(v: View): seq<Element>
  {
    [v.model] + Flatten(v.children)
  }

  /** The models of a list of sibling views and of everything below them, in
      depth-first pre-order. */
  function Flatten(vs: seq<View>): seq<Element>
  {
    if vs == [] then [] else FlattenView(vs[0]) + Flatten(vs[1..])
  }

  /** What one step of cloneChildren pushes for `v` under the copied parent
      `parent`, when the next fresh cid is `next`: the copy of `v` itself and
      then, recursively, the copies of its children. */
  function CloneView(v: View, parent: Id, next: nat): seq<Element>
  {
    [v.model.(id := next, parent := parent)] + CloneForest(v.children, next, next + 1)
  }

  /** What cloneChildren pushes for the sibling views `vs`, one view after the
      other, each with the cids left over by the ones before it. */
  function CloneForest(vs: seq<View>, parent: Id, next: nat): seq<Element>
  {
    if vs == [] then []
    else
      var first := CloneView(vs[0], parent, next);
      first + CloneForest(vs[1..], parent, next + |first|)
  }

  /** `ws` has the shape of `vs`, and each model of `ws` differs from the
      model at the same place in `vs` at most in `id` and `parent`. */
  predicate CopiedFrom(ws: seq<View>, vs: seq<View>)
  {
    |ws| == |vs| &&
    forall i :: 0 <= i < |vs| ==>
      ws[i].model == vs[i].model.(id := ws[i].model.id, parent := ws[i].model.parent) &&
      CopiedFrom(ws[i].children, vs[i].children)
  }

  /** Every top-level model of `ws` has parent `parent`, and every model below
      has the id of the model directly above it as its parent. */
  predicate LinkedTo(ws: seq<View>, parent: Id)
  {
    forall i :: 0 <= i < |ws| ==>
      ws[i].model.parent == parent && LinkedTo(ws[i].children, ws[i].model.id)
  }

  /** The copy of a view as a tree: the reference against which the flat list
      that cloneChildren builds is judged. */
  function CopyView(v: View, parent: Id, next: nat): View
  {
    View(v.model.(id := next, parent := parent), CopyForest(v.children, next, next + 1))
  }

  /** The copies of sibling views as trees. They have the source's shape and
      sibling order, keep every attribute but `id` and `parent`, and link each
      copy to the copy above it. */
  function CopyForest(vs: seq<View>, parent: Id, next: nat): (r: seq<View>)
    ensures CopiedFrom(r, vs)
    ensures LinkedTo(r, parent)
  {
    if vs == [] then []
    else [CopyView(vs[0], parent, next)] + CopyForest(vs[1..], parent, next + |FlattenView(vs[0])|)
  }

  /** The records cloneContainer adds for `source` placed under `parent` at
      `index` when the next fresh cid is `next`: the descendant copies in
      pre-order, then the copy of the root. */
  function CopyRecords(source: View, parent: Id, index: int, next: nat): seq<Element>
  {
    CloneForest(source.children, next, next + 1)
      + [source.model.(id := next, parent := parent, order := index)]
  }

  /** The records after the record `id` moves to order 0 of `column`
      (what insertChild does to the collection). */
  function Reparent(es: seq<Element>, id: Id, column: Id): (r: seq<Element>)
    ensures |r| == |es|
    ensures forall k :: 0 <= k < |es| ==>
      r[k] == if es[k].id == id then es[k].(parent := column, order := 0) else es[k]
  {
    seq(|es|, k requires 0 <= k < |es| =>
      if es[k].id == id then es[k].(parent := column, order := 0) else es[k])
  }

  /** The view `v` once the record `id` has moved to order 0 of `column`.
      Views show the collection's own models, so the move is seen wherever
      that model appears in the subtree. */
  function MovedView(v: View, id: Id, column: Id): View
  {
    View(if v.model.id == id then v.model.(parent := column, order := 0) else v.model,
         MovedForest(v.children, id, column))
  }

  function MovedForest(vs: seq<View>, id: Id, column: Id): seq<View>
  {
    if vs == [] then [] else [MovedView(vs[0], id, column)] + MovedForest(vs[1..], id, column)
  }

  lemma ReparentAppend(a: seq<Element>, b: seq<Element>, id: Id, column: Id)
    ensures Reparent(a + b, id, column) == Reparent(a, id, column) + Reparent(b, id, column)
  {
    var l := Reparent(a + b, id, column);
    var r := Reparent(a, id, column) + Reparent(b, id, column);
    forall k | 0 <= k < |l| ensures l[k] == r[k] {
      if k < |a| { assert (a + b)[k] == a[k]; } else { assert (a + b)[k] == b[k - |a|]; }
    }
  }

  /** A moved view shows exactly the moved records, in the same pre-order. */
  lemma {:induction false} MovedViewShows(v: View, id: Id, column: Id)
    ensures FlattenView(MovedView(v, id, column)) == Reparent(FlattenView(v), id, column)
    decreases v, 1
  {
    MovedForestShows(v.children, id, column);
    ReparentAppend([v.model], Flatten(v.children), id, column);
  }

  /** Moved sibling views show exactly the moved records, in the same pre-order. */
  lemma {:induction false} MovedForestShows(vs: seq<View>, id: Id, column: Id)
    ensures Flatten(MovedForest(vs, id, column)) == Reparent(Flatten(vs), id, column)
    decreases vs, 0
  {
    if vs != [] {
      var ms := MovedForest(vs, id, column);
      assert ms[0] == MovedView(vs[0], id, column);
      assert ms[1..] == MovedForest(vs[1..], id, column);
      MovedViewShows(vs[0], id, column);
      MovedForestShows(vs[1..], id, column);
      ReparentAppend(FlattenView(vs[0]), Flatten(vs[1..]), id, column);
    }
  }

  lemma MovedViewSize(v: View, id: Id, column: Id)
    ensures |FlattenView(MovedView(v, id, column))| == |FlattenView(v)|
  {
    MovedViewShows(v, id, column);
  }

  /** The root copy and the number of copies do not depend on a move made
      before the copy. */
  lemma CopyAfterMoveRoot(source: View, id: Id, column: Id, parent: Id, index: int, next: nat)
    ensures var rs := CopyRecords(MovedView(source, id, column), parent, index, next);
      |rs| == |FlattenView(source)| &&
      rs[|rs| - 1] == source.model.(id := next, parent := parent, order := index)
  {
    var mv := MovedView(source, id, column);
    CloneForestLength(mv.children, next, next + 1);
    MovedViewSize(source, id, column);
  }

  /** Copying a subtree after the record `id` moved to order 0 of `column`:
      the root copy is as before (its parent and order are set anyway); a
      descendant copy of that record has order 0, every other descendant copy
      has its source's order, and all else is as in CopyRecordsShape. */
  lemma CopyAfterMove(source: View, id: Id, column: Id, parent: Id, index: int, next: nat)
    ensures var rs := CopyRecords(MovedView(source, id, column), parent, index, next);
      var ds := Flatten(source.children);
      |rs| == |FlattenView(source)| &&
      rs[|rs| - 1] == source.model.(id := next, parent := parent, order := index) &&
      (forall k :: 0 <= k < |rs| - 1 ==>
         rs[k] == ds[k].(id := next + 1 + k, parent := rs[k].parent,
                         order := if ds[k].id == id then 0 else ds[k].order)) &&
      (forall k :: 0 <= k < |rs| - 1 ==> next <= rs[k].parent < rs[k].id)
  {
    var mv := MovedView(source, id, column);
    CopyRecordsShape(mv, parent, index, next);
    MovedForestShows(source.children, id, column);
    MovedViewShows(source, id, column);
  }

  /** Unfolding CloneForest at position i of a sibling list: the copies of
      vs[i..] are those of vs[i] followed by those of vs[i+1..]. */
  lemma CloneForestStep(vs: seq<View>, i: nat, parent: Id, next: nat)
    requires i < |vs|
    ensures CloneForest(vs[i..], parent, next)
         == CloneView(vs[i], parent, next)
            + CloneForest(vs[i + 1..], parent, next + |CloneView(vs[i], parent, next)|)
  {
    assert vs[i..][0] == vs[i];
    assert vs[i..][1..] == vs[i + 1..];
  }

  /** A view has exactly one copy per view in its subtree. */
  lemma {:induction false} CloneViewLength(v: View, parent: Id, next: nat)
    ensures |CloneView(v, parent, next)| == |FlattenView(v)|
    decreases v, 1
  {
    CloneForestLength(v.children, next, next + 1);
  }

  /** Sibling views have exactly one copy per view in their subtrees. */
  lemma {:induction false} CloneForestLength(vs: seq<View>, parent: Id, next: nat)
    ensures |CloneForest(vs, parent, next)| == |Flatten(vs)|
    decreases vs, 0
  {
    if vs != [] {
      CloneViewLength(vs[0], parent, next);
      CloneForestLength(vs[1..], parent, next + |CloneView(vs[0], parent, next)|);
    }
  }

  /** Entry k of the copies of a view carries the fresh cid next + k and, apart
      from its parent, exactly the attributes of the k-th source model in
      pre-order (order and tag included). */
  lemma {:induction false} CloneViewEntries(v: View, parent: Id, next: nat)
    ensures |CloneView(v, parent, next)| == |FlattenView(v)|
    ensures forall k :: 0 <= k < |FlattenView(v)| ==>
      CloneView(v, parent, next)[k]
        == FlattenView(v)[k].(id := next + k, parent := CloneView(v, parent, next)[k].parent)
    decreases v, 1
  {
    var r := CloneView(v, parent, next);
    var below := CloneForest(v.children, next, next + 1);
    CloneForestEntries(v.children, next, next + 1);
    forall k | 0 <= k < |FlattenView(v)|
      ensures r[k] == FlattenView(v)[k].(id := next + k, parent := r[k].parent)
    {
      if k > 0 {
        assert r[k] == below[k - 1];
        assert FlattenView(v)[k] == Flatten(v.children)[k - 1];
      }
    }
  }

  /** The same for a list of sibling views: entry k of the copies is the k-th
      source model in pre-order with cid next + k and a new parent. */
  lemma {:induction false} CloneForestEntries(vs: seq<View>, parent: Id, next: nat)
    ensures |CloneForest(vs, parent, next)| == |Flatten(vs)|
    ensures forall k :: 0 <= k < |Flatten(vs)| ==>
      CloneForest(vs, parent, next)[k]
        == Flatten(vs)[k].(id := next + k, parent := CloneForest(vs, parent, next)[k].parent)
    decreases vs, 0
  {
    if vs != [] {
      var r := CloneForest(vs, parent, next);
      var first := CloneView(vs[0], parent, next);
      var m := next + |first|;
      var rest := CloneForest(vs[1..], parent, m);
      CloneViewEntries(vs[0], parent, next);
      CloneForestEntries(vs[1..], parent, m);
      forall k | 0 <= k < |Flatten(vs)|
        ensures r[k] == Flatten(vs)[k].(id := next + k, parent := r[k].parent)
      {
        if k < |first| {
          assert r[k] == first[k];
          assert Flatten(vs)[k] == FlattenView(vs[0])[k];
        } else {
          assert r[k] == rest[k - |first|];
          assert Flatten(vs)[k] == Flatten(vs[1..])[k - |first|];
        }
      }
    }
  }

  /** Every copy of a view's subtree has as parent either `parent` (the copy
      of `v` itself) or the cid of a copy listed before it. */
  lemma {:induction false} CloneViewParentsPrecede(v: View, parent: Id, next: nat)
    ensures forall k :: 0 <= k < |CloneView(v, parent, next)| ==>
      var p := CloneView(v, parent, next)[k].parent;
      p == parent || next <= p < next + k
    decreases v, 1
  {
    var r := CloneView(v, parent, next);
    var below := CloneForest(v.children, next, next + 1);
    CloneForestParentsPrecede(v.children, next, next + 1);
    forall k | 0 <= k < |r|
      ensures r[k].parent == parent || next <= r[k].parent < next + k
    {
      if k > 0 {
        assert r[k] == below[k - 1];
      }
    }
  }

  /** Every copy pushed for sibling views has as parent either the copied
      parent passed in or the cid of a copy pushed before it: a node is pushed
      before the nodes below it. */
  lemma {:induction false} CloneForestParentsPrecede(vs: seq<View>, parent: Id, next: nat)
    ensures forall k :: 0 <= k < |CloneForest(vs, parent, next)| ==>
      var p := CloneForest(vs, parent, next)[k].parent;
      p == parent || next <= p < next + k
    decreases vs, 0
  {
    if vs != [] {
      var r := CloneForest(vs, parent, next);
      var first := CloneView(vs[0], parent, next);
      var m := next + |first|;
      var rest := CloneForest(vs[1..], parent, m);
      CloneViewParentsPrecede(vs[0], parent, next);
      CloneForestParentsPrecede(vs[1..], parent, m);
      forall k | 0 <= k < |r|
        ensures r[k].parent == parent || next <= r[k].parent < next + k
      {
        if k < |first| {
          assert r[k] == first[k];
        } else {
          assert r[k] == rest[k - |first|];
        }
      }
    }
  }

  /** The flat copy of a view is the pre-order listing of its tree-shaped copy. */
  lemma {:induction false} CloneViewIsFlattenedCopy(v: View, parent: Id, next: nat)
    ensures CloneView(v, parent, next) == FlattenView(CopyView(v, parent, next))
    decreases v, 1
  {
    CloneForestIsFlattenedCopy(v.children, next, next + 1);
  }

  /** The flat list of copies is the pre-order listing of the tree-shaped
      copies: same nodes, same sibling order, same nesting. */
  lemma {:induction false} CloneForestIsFlattenedCopy(vs: seq<View>, parent: Id, next: nat)
    ensures CloneForest(vs, parent, next) == Flatten(CopyForest(vs, parent, next))
    decreases vs, 0
  {
    if vs != [] {
      var ws := CopyForest(vs, parent, next);
      var first := CloneView(vs[0], parent, next);
      CloneViewIsFlattenedCopy(vs[0], parent, next);
      CloneViewLength(vs[0], parent, next);
      CloneForestIsFlattenedCopy(vs[1..], parent, next + |first|);
      assert ws[0] == CopyView(vs[0], parent, next);
      assert ws[1..] == CopyForest(vs[1..], parent, next + |first|);
    }
  }

  /** What cloneContainer adds: one record per view of the subtree; the root
      copy last, with cid `next`, the given parent and order and the source
      root's other attributes; the descendant copies before it with the
      consecutive cids after `next`, each under the root copy or under a copy
      listed before it, and otherwise equal to the source descendants in
      pre-order. */
  lemma CopyRecordsShape(source: View, parent: Id, index: int, next: nat)
    ensures var rs := CopyRecords(source, parent, index, next);
      |rs| == |FlattenView(source)| &&
      rs[|rs| - 1] == source.model.(id := next, parent := parent, order := index) &&
      (forall k :: 0 <= k < |rs| - 1 ==>
         rs[k] == Flatten(source.children)[k].(id := next + 1 + k, parent := rs[k].parent)) &&
      (forall k :: 0 <= k < |rs| - 1 ==> next <= rs[k].parent < rs[k].id)
  {
    var rs := CopyRecords(source, parent, index, next);
    var ds := CloneForest(source.children, next, next + 1);
    CloneForestEntries(source.children, next, next + 1);
    CloneForestParentsPrecede(source.children, next, next + 1);
    assert forall k :: 0 <= k < |rs| - 1 ==> rs[k] == ds[k];
  }
}
