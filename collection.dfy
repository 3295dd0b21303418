/**
 * The element collection the copy logic writes into: the records it owns,
 * the cid counter fresh models draw from, and the notifications observed on
 * it and on the views during a copy. Only the interface of the collection's
 * own factory operations is known; their bodies here are the simplest ones
 * that meet the contracts the copy logic relies on.
 */
module TreeCollection {
  import opened Elements

  /** Tag of the row container that createRow makes (an assumption: the
      collection's source is not part of this model). */
  const RowTag: string := "tailor_row"

  /** What an observer of a copy can see, in the order it happens. */
  datatype Event =
    | TemplateCreated(id: Id)          // createTemplate ran for the copy with this cid
    | Added(ids: seq<Id>, silent: bool) // collection.add of records with these ids
    | Refreshed(id: Id)                // element:refresh triggered on this source view

  /** The ids of a list of records, in order. */
  function Ids(es: seq<Element>): (r: seq<Id>)
    ensures |r| == |es|
    ensures forall k :: 0 <= k < |es| ==> r[k] == es[k].id
  {
    seq(|es|, k requires 0 <= k < |es| => es[k].id)
  }

  /** No two records share an id. */
  predicate UniqueIds(es: seq<Element>)
  {
    forall i, j :: 0 <= i < j < |es| ==> es[i].id != es[j].id
  }

  /** The records after collection.add(batch): a record whose id is already
      present is ignored, every other one is appended in batch order. */
  function Merge(es: seq<Element>, batch: seq<Element>): seq<Element>
    decreases |batch|
  {
    if batch == [] then es
    else if batch[0].id in Ids(es) then Merge(es, batch[1..])
    else Merge(es + [batch[0]], batch[1..])
  }

  /** Adding keeps the records already there, in place, takes every new
      record from the batch, leaves every id of the batch present, and never
      makes two records share an id. */
  lemma {:induction false} MergeKeeps(es: seq<Element>, batch: seq<Element>)
    ensures var r := Merge(es, batch);
      |es| <= |r| && r[..|es|] == es &&
      (forall k :: |es| <= k < |r| ==> r[k] in batch) &&
      (forall k :: 0 <= k < |batch| ==> batch[k].id in Ids(r)) &&
      (UniqueIds(es) ==> UniqueIds(r))
    decreases |batch|
  {
    if batch != [] {
      var r := Merge(es, batch);
      var es' := if batch[0].id in Ids(es) then es else es + [batch[0]];
      if batch[0].id !in Ids(es) {
        assert Ids(es')[|es|] == batch[0].id;
        assert UniqueIds(es) ==> UniqueIds(es');
      }
      MergeKeeps(es', batch[1..]);
      assert es'[..|es|] == es;
      PrefixIds(es', r);
      forall k | 1 <= k < |batch| ensures batch[k].id in Ids(r) {
        assert batch[k] == batch[1..][k - 1];
      }
    }
  }

  /** An id present in a prefix is present in the whole list. */
  lemma PrefixIds(es: seq<Element>, r: seq<Element>)
    requires |es| <= |r| && r[..|es|] == es
    ensures forall x :: x in Ids(es) ==> x in Ids(r)
  {
    forall x | x in Ids(es) ensures x in Ids(r) {
      var k :| 0 <= k < |es| && Ids(es)[k] == x;
      assert r[k] == es[k];
      assert Ids(r)[k] == x;
    }
  }

  /** A batch of records with distinct ids none of which is present is added
      whole, in order, after the records already there. */
  lemma {:induction false} MergeFresh(es: seq<Element>, batch: seq<Element>)
    requires UniqueIds(batch)
    requires forall k :: 0 <= k < |batch| ==> batch[k].id !in Ids(es)
    ensures Merge(es, batch) == es + batch
    decreases |batch|
  {
    if batch != [] {
      var es' := es + [batch[0]];
      forall k | 0 <= k < |batch[1..]|
        ensures batch[1..][k].id !in Ids(es')
      {
        assert batch[1..][k] == batch[k + 1];
      }
      assert UniqueIds(batch[1..]) by {
        forall i, j | 0 <= i < j < |batch[1..]|
          ensures batch[1..][i].id != batch[1..][j].id
        {
          assert batch[1..][i] == batch[i + 1] && batch[1..][j] == batch[j + 1];
        }
      }
      MergeFresh(es', batch[1..]);
      assert es' + batch[1..] == es + batch;
    }
  }

  /** The row createRow makes under `parent` at `order` with first cid `next`:
      the row record, then its two columns, left to right. */
  function RowRecords(next: nat, parent: Id, order: int): seq<Element>
  {
    [Element(next, parent, order, RowTag, map[]),
     Element(next + 1, next, 0, ColumnTag, map[]),
     Element(next + 2, next, 1, ColumnTag, map[])]
  }

  /** The column createColumn makes under `parent` at `order` with cid `next`. */
  function ColumnRecord(next: nat, parent: Id, order: int): Element
  {
    Element(next, parent, order, ColumnTag, map[])
  }

  class Collection {
    /** The element records, in insertion order. */
    var elements: seq<Element>
    /** The cid the next fresh model receives. */
    var nextCid: nat
    /** The notifications observed so far. */
    var trace: seq<Event>

    /** Ids are unique and every id was drawn from the counter already. */
    ghost predicate Valid()
      reads this`elements, this`nextCid
    {
      UniqueIds(elements) &&
      forall k :: 0 <= k < |elements| ==> elements[k].id < nextCid
    }

    constructor ()
      ensures Valid()
      ensures elements == [] && nextCid == 0 && trace == []
    {
      elements := [];
      nextCid := 0;
      trace := [];
    }

    /** The cid a model's clone() receives. */
    method NewCid() returns (cid: Id)
      requires Valid()
      modifies this`nextCid
      ensures Valid()
      ensures cid == old(nextCid) && nextCid == old(nextCid) + 1
    {
      cid := nextCid;
      nextCid := nextCid + 1;
    }

    /** Appends a notification raised by a view or model during a copy. */
    method Notify(e: Event)
      modifies this`trace
      ensures trace == old(trace) + [e]
    {
      trace := trace + [e];
    }

    /** collection.add(batch, { silent }). */
    method Add(batch: seq<Element>, silent: bool)
      requires Valid()
      requires forall k :: 0 <= k < |batch| ==> batch[k].id < nextCid
      modifies this`elements, this`trace
      ensures Valid()
      ensures elements == Merge(old(elements), batch)
      ensures trace == old(trace) + [Added(Ids(batch), silent)]
    {
      MergeKeeps(elements, batch);
      elements := Merge(elements, batch);
      trace := trace + [Added(Ids(batch), silent)];
    }

    /** createColumn(parent, order): a new column at that position. */
    method CreateColumn(parent: Id, order: int) returns (column: Element)
      requires Valid()
      modifies this`elements, this`nextCid, this`trace
      ensures Valid()
      ensures old(trace) <= trace
      ensures column == ColumnRecord(old(nextCid), parent, order)
      ensures elements == old(elements) + [column]
      ensures nextCid == old(nextCid) + 1
    {
      column := ColumnRecord(nextCid, parent, order);
      elements := elements + [column];
      nextCid := nextCid + 1;
    }

    /** createRow(parent, order): a new row at that position holding two new,
        empty columns; returns the columns, left to right. */
    method CreateRow(parent: Id, order: int) returns (columns: seq<Element>)
      requires Valid()
      modifies this`elements, this`nextCid, this`trace
      ensures Valid()
      ensures old(trace) <= trace
      ensures elements == old(elements) + RowRecords(old(nextCid), parent, order)
      ensures columns == RowRecords(old(nextCid), parent, order)[1..]
      ensures nextCid == old(nextCid) + 3
    {
      var row := RowRecords(nextCid, parent, order);
      elements := elements + row;
      nextCid := nextCid + 3;
      columns := row[1..];
    }

    /** insertChild(model, column): moves the existing record of `model`
        (not a copy) to the first place in `column`. */
    method InsertChild(model: Element, column: Element)
      requires Valid()
      modifies this`elements, this`trace
      ensures Valid()
      ensures old(trace) <= trace
      ensures elements == Reparent(old(elements), model.id, column.id)
    {
      elements := Reparent(elements, model.id, column.id);
    }
  }
}
