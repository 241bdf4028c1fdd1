/** The set of received QoS 2 packet ids that wait for PUBREL; capacity and shifts count items. */
module PacketIds {
  import opened Types

  datatype IdSet = IdSet(items: seq<U16>, capacity: nat)
  {
    predicate Valid()
    {
      |items| <= capacity && Distinct(items)
    }

    function Put(id: U16): (IdSet, bool)
    {
      if |items| >= capacity || id in items then (this, false) else (this.(items := items + [id]), true)
    }

    function Remove(id: U16): IdSet
    {
      this.(items := Without(items, id))
    }
  }

  predicate Distinct(items: seq<U16>)
  {
    forall i, j :: 0 <= i < j < |items| ==> items[i] != items[j]
  }

  /** `items` with the first occurrence of `id` taken out. */
  function Without(items: seq<U16>, id: U16): (r: seq<U16>)
    ensures |r| <= |items|
  {
    if items == [] then []
    else if items[0] == id then items[1..]
    else [items[0]] + Without(items[1..], id)
  }

  lemma {:induction false} WithoutAt(items: seq<U16>, i: nat)
    requires i < |items| && forall j :: 0 <= j < i ==> items[j] != items[i]
    ensures Without(items, items[i]) == items[..i] + items[i + 1..]
  {
    if i > 0 {
      WithoutAt(items[1..], i - 1);
      assert items[1..][..i - 1] == items[1..i] && items[1..][i..] == items[i + 1..];
    }
  }

  lemma {:induction false} WithoutAbsent(items: seq<U16>, id: U16)
    requires id !in items
    ensures Without(items, id) == items
  {
    if items != [] { WithoutAbsent(items[1..], id); }
  }

  lemma {:induction false} WithoutDistinct(items: seq<U16>, id: U16)
    requires Distinct(items)
    ensures Distinct(Without(items, id))
    ensures forall x :: x in Without(items, id) <==> x in items && x != id
  {
    if items != [] {
      var rest := items[1..];
      assert items == [items[0]] + rest && items[0] !in rest;
      if items[0] != id {
        WithoutDistinct(rest, id);
      }
    }
  }

  /** Adding an id keeps the set free of duplicates, and fails exactly when it is full or holds the id. */
  lemma PutKeepsDistinct(s: IdSet, id: U16)
    requires s.Valid()
    ensures var (t, ok) := s.Put(id);
            && t.Valid()
            && (ok <==> |s.items| < s.capacity && id !in s.items)
            && (forall x :: x in t.items <==> x in s.items || (ok && x == id))
  {
  }

  /** Removing an id takes out that id and nothing else, and keeps the set free of duplicates. */
  lemma RemoveTakesOne(s: IdSet, id: U16)
    requires s.Valid()
    ensures s.Remove(id).Valid()
    ensures forall x :: x in s.Remove(id).items <==> x in s.items && x != id
  {
    WithoutDistinct(s.items, id);
  }

  /** The array implementation. */
  class IdArray {
    const items: array<U16>
    var count: nat

    predicate Valid()
      reads this, items
    {
      count <= items.Length && Model().Valid()
    }

    function Model(): IdSet
      requires count <= items.Length
      reads this, items
    {
      IdSet(items[..count], items.Length)
    }

    constructor (capacity: nat)
      ensures Valid() && fresh(items) && Model() == IdSet([], capacity)
    {
      items := new U16[capacity];
      count := 0;
    }

    method Clear()
      requires Valid()
      modifies this`count
      ensures Valid() && Model() == old(Model()).(items := [])
    {
      count := 0;
    }

    method Contains(id: U16) returns (found: bool)
      requires Valid()
      ensures found == (id in Model().items)
    {
      for i := 0 to count
        invariant id !in items[..i]
      {
        if items[i] == id { return true; }
      }
      return false;
    }

    method Put(id: U16) returns (ok: bool)
      requires Valid()
      modifies this, items
      ensures Valid() && (Model(), ok) == old(Model()).Put(id)
    {
      if count >= items.Length { return false; }
      for i := 0 to count
        invariant id !in items[..i]
      {
        if items[i] == id { return false; }
      }
      items[count] := id;
      count := count + 1;
      assert items[..count] == old(items[..count]) + [id];
      ok := true;
    }

    method Remove(id: U16) returns (ok: bool)
      requires Valid()
      modifies this, items
      ensures Valid() && Model() == old(Model()).Remove(id) && ok == (id in old(Model().items))
    {
      ghost var before := Model();
      for i := 0 to count
        invariant id !in items[..i] && Model() == before && count == old(count)
        invariant Valid() && items[..] == old(items[..])
      {
        if items[i] == id {
          WithoutAt(before.items, i);
          RemoveTakesOne(before, id);
          forall j | i <= j < count - 1 {
            items[j] := items[j + 1];
          }
          count := count - 1;
          assert items[..count] == before.items[..i] + before.items[i + 1..];
          return true;
        }
      }
      WithoutAbsent(before.items, id);
      return false;
    }
  }
}
