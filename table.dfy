/**
 * A document collection of the database, kept in memory: the documents in
 * the order they were created, each under an identifier that no other
 * document of the collection carries.
 */
module Table {
  import opened Wrappers

  type Id = nat

  /** A stored document together with its `_id`. */
  datatype Row<T> = Row(id: Id, doc: T)

  ghost predicate DistinctIds<T>(rows: seq<Row<T>>) {
    forall i, j :: 0 <= i < j < |rows| ==> rows[i].id != rows[j].id
  }

  /** `findById`: the position of the document with identifier `id`, if any. */
  function Find<T>(rows: seq<Row<T>>, id: Id): (r: Option<nat>)
    ensures r.Some? ==> r.value < |rows| && rows[r.value].id == id
    ensures r.Some? ==> forall i :: 0 <= i < r.value ==> rows[i].id != id
    ensures r.None? <==> forall i :: 0 <= i < |rows| ==> rows[i].id != id
  {
    if rows == [] then None
    else if rows[0].id == id then Some(0)
    else match Find(rows[1..], id)
      case None => None
      case Some(i) => Some(i + 1)
  }

  /** With distinct identifiers, the position `Find` reports is the only one holding `id`. */
  lemma FindUnique<T>(rows: seq<Row<T>>, id: Id, k: nat)
    requires DistinctIds(rows)
    requires k < |rows| && rows[k].id == id
    ensures Find(rows, id) == Some(k)
  {
  }

  /** Rewriting documents in place keeps every identifier where it was, so `Find` answers as before. */
  lemma FindSameIds<T>(a: seq<Row<T>>, b: seq<Row<T>>, id: Id)
    requires |a| == |b| && forall k :: 0 <= k < |a| ==> a[k].id == b[k].id
    ensures Find(a, id) == Find(b, id)
  {
  }

  /** The identifiers present in a collection. */
  function Ids<T>(rows: seq<Row<T>>): (s: set<Id>)
    ensures forall i :: 0 <= i < |rows| ==> rows[i].id in s
    ensures forall id :: id in s ==> exists i :: 0 <= i < |rows| && rows[i].id == id
  {
    set i | 0 <= i < |rows| :: rows[i].id
  }

  /** Removing the row at position `i` removes its identifier and keeps every other one. */
  lemma IdsWithout<T>(rows: seq<Row<T>>, i: nat)
    requires DistinctIds(rows) && i < |rows|
    ensures Ids(rows[..i] + rows[i + 1..]) == Ids(rows) - {rows[i].id}
  {
    var rest := rows[..i] + rows[i + 1..];
    assert forall k :: 0 <= k < |rest| ==> rest[k] == rows[if k < i then k else k + 1];
    forall x | x in Ids(rows) && x != rows[i].id
      ensures x in Ids(rest)
    {
      var k :| 0 <= k < |rows| && rows[k].id == x;
      assert rest[if k < i then k else k - 1] == rows[k];
    }
  }

  /** The rows of `rows` whose document satisfies `keep`, in their stored order (a `find` with a filter). */
  function Select<T>(rows: seq<Row<T>>, keep: T -> bool): (r: seq<Row<T>>)
    ensures |r| <= |rows|
    ensures forall k :: 0 <= k < |r| ==> r[k] in rows && keep(r[k].doc)
    ensures forall i :: 0 <= i < |rows| && keep(rows[i].doc) ==> rows[i] in r
  {
    if rows == [] then []
    else
      var rest := Select(rows[1..], keep);
      assert forall i :: 1 <= i < |rows| ==> rows[i] == rows[1..][i - 1];
      if keep(rows[0].doc) then [rows[0]] + rest else rest
  }

  /**
   * A collection object. `nextId` stands for the database's identifier
   * generator: every stored identifier is below it.
   */
  class Collection<T> {
    var rows: seq<Row<T>>
    var nextId: Id

    ghost predicate Valid()
      reads this
    {
      && DistinctIds(rows)
      && forall i :: 0 <= i < |rows| ==> rows[i].id < nextId
    }

    constructor ()
      ensures Valid() && rows == []
    {
      rows := [];
      nextId := 0;
    }

    /** `Model.create`: appends a document under a fresh identifier. */
    method Insert(doc: T) returns (id: Id)
      requires Valid()
      modifies this
      ensures Valid()
      ensures id !in Ids(old(rows))
      ensures rows == old(rows) + [Row(id, doc)]
    {
      id := nextId;
      rows := rows + [Row(id, doc)];
      nextId := nextId + 1;
    }

    /** Overwrites the document at position `i`, keeping its identifier and position. */
    method Put(i: nat, doc: T)
      requires Valid() && i < |rows|
      modifies this
      ensures Valid()
      ensures rows == old(rows)[i := Row(old(rows)[i].id, doc)]
    {
      rows := rows[i := Row(rows[i].id, doc)];
    }

    /** `findByIdAndDelete` once the position is known: removes that one row. */
    method RemoveAt(i: nat)
      requires Valid() && i < |rows|
      modifies this
      ensures Valid()
      ensures rows == old(rows)[..i] + old(rows)[i + 1..]
    {
      rows := rows[..i] + rows[i + 1..];
      assert forall k :: 0 <= k < |rows| ==> rows[k] == old(rows)[if k < i then k else k + 1];
    }
  }
}
