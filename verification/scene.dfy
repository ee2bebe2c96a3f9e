/** The object list of src/Scene.cpp and include/Scene.h: an id allocator
    over 32-bit unsigned ids and the objects in creation order. */
module Scenes {
  import opened Maybe

  /** Scene::ObjectId, a std::uint32_t. */
  const IdModulus: int := 0x1_0000_0000
  type ObjectId = x: int | 0 <= x < IdModulus

  /** The object's model matrix; the list never looks inside it. */
  type Transform = seq<real>

  datatype Object = Object(id: ObjectId, model: Transform)

  /** The position of the first object with this id. */
  function FindFirst(objects: seq<Object>, id: ObjectId): (r: Option<nat>)
    ensures r.Some? ==> r.value < |objects| && objects[r.value].id == id &&
                        forall j :: 0 <= j < r.value ==> objects[j].id != id
    ensures r.None? <==> forall j :: 0 <= j < |objects| ==> objects[j].id != id
    decreases |objects|
  {
    if objects == [] then None
    else if objects[0].id == id then Some(0)
    else match FindFirst(objects[1..], id)
      case None => None
      case Some(k) => Some(k + 1)
  }

  /** The list without the first object of this id, if there is one. */
  function RemoveFirst(objects: seq<Object>, id: ObjectId): seq<Object>
  {
    match FindFirst(objects, id)
    case None => objects
    case Some(i) => objects[..i] + objects[i + 1..]
  }

  /** Taking out position i: one fewer, the same multiset less that object,
      and the others in their order. */
  lemma RemoveAt(objects: seq<Object>, i: nat)
    requires i < |objects|
    ensures var r := objects[..i] + objects[i + 1..];
            |r| == |objects| - 1 &&
            multiset(r) + multiset{objects[i]} == multiset(objects) &&
            (forall j :: 0 <= j < i ==> r[j] == objects[j]) &&
            (forall j :: i <= j < |objects| - 1 ==> r[j] == objects[j + 1])
  {
    assert objects == objects[..i] + [objects[i]] + objects[i + 1..];
  }

  /** Removing takes out exactly that one object: one fewer, the same
      multiset less that object, and the others in their order; with no
      such object the list is unchanged. */
  lemma RemoveFirstExactly(objects: seq<Object>, id: ObjectId)
    ensures FindFirst(objects, id).None? ==> RemoveFirst(objects, id) == objects
    ensures FindFirst(objects, id).Some? ==>
              var i := FindFirst(objects, id).value;
              |RemoveFirst(objects, id)| == |objects| - 1 &&
              multiset(RemoveFirst(objects, id)) + multiset{objects[i]} == multiset(objects) &&
              (forall j :: 0 <= j < i ==> RemoveFirst(objects, id)[j] == objects[j]) &&
              (forall j :: i <= j < |objects| - 1 ==> RemoveFirst(objects, id)[j] == objects[j + 1])
  {
    if FindFirst(objects, id).Some? {
      RemoveAt(objects, FindFirst(objects, id).value);
    }
  }

  /** Ids strictly increasing along the list, all below the counter. */
  ghost predicate Ordered(objects: seq<Object>, nextId: int)
  {
    (forall i, j :: 0 <= i < j < |objects| ==> objects[i].id < objects[j].id) &&
    (forall i :: 0 <= i < |objects| ==> objects[i].id < nextId)
  }

  /** Removing an object keeps the ids ordered. */
  lemma RemoveFirstOrdered(objects: seq<Object>, id: ObjectId, nextId: int)
    requires Ordered(objects, nextId)
    ensures Ordered(RemoveFirst(objects, id), nextId)
  {
    RemoveFirstExactly(objects, id);
    if FindFirst(objects, id).Some? {
      var i := FindFirst(objects, id).value;
      var r := RemoveFirst(objects, id);
      forall a, b | 0 <= a < b < |r|
        ensures r[a].id < r[b].id
      {
        var a' := if a < i then a else a + 1;
        var b' := if b < i then b else b + 1;
        assert r[a] == objects[a'] && r[b] == objects[b'];
      }
      forall a | 0 <= a < |r|
        ensures r[a].id < nextId
      {
        assert r[a] == objects[if a < i then a else a + 1];
      }
    }
  }

  /** In an ordered list an id names at most one object, so the first match
      is the only one. */
  lemma OrderedUnique(objects: seq<Object>, nextId: int, id: ObjectId)
    requires Ordered(objects, nextId)
    ensures FindFirst(objects, id).Some? ==>
              forall j :: 0 <= j < |objects| && objects[j].id == id ==> j == FindFirst(objects, id).value
  {
  }

  class Scene {
    var objects: seq<Object>
    var nextId: ObjectId

    /** The ids are increasing and fresh; kept as long as the counter has
        not wrapped. */
    ghost predicate Valid()
      reads this
    {
      1 <= nextId && Ordered(objects, nextId)
    }

    /** An empty scene whose first id is 1. */
    constructor()
      ensures objects == [] && nextId == 1 && Valid()
    {
      objects := [];
      nextId := 1;
    }

    /** createObject: returns the counter, then increments it modulo 2^32,
        and appends the new object at the end. */
    method CreateObject(model: Transform) returns (id: ObjectId)
      modifies this
      ensures id == old(nextId)
      ensures nextId == (old(nextId) + 1) % IdModulus
      ensures objects == old(objects) + [Object(id, model)]
      ensures old(Valid()) && old(nextId) < IdModulus - 1 ==> Valid() && id > 0
    {
      id := nextId;
      nextId := (nextId + 1) % IdModulus;
      objects := objects + [Object(id, model)];
    }

    /** destroyObject: removes the first object with this id and reports
        whether there was one; the counter is untouched. */
    method DestroyObject(id: ObjectId) returns (found: bool)
      modifies this
      ensures found <==> exists j :: 0 <= j < |old(objects)| && old(objects)[j].id == id
      ensures objects == RemoveFirst(old(objects), id)
      ensures nextId == old(nextId)
      ensures old(Valid()) ==> Valid()
    {
      if Valid() {
        RemoveFirstOrdered(objects, id, nextId);
      }
      var i := 0;
      while i < |objects|
        invariant 0 <= i <= |objects|
        invariant objects == old(objects) && nextId == old(nextId)
        invariant forall j :: 0 <= j < i ==> objects[j].id != id
      {
        if objects[i].id == id {
          assert FindFirst(objects, id) == Some(i);
          objects := objects[..i] + objects[i + 1..];
          return true;
        }
        i := i + 1;
      }
      assert FindFirst(objects, id).None?;
      return false;
    }

    /** clear: the list is emptied; the counter is not reset, so no id is
        handed out twice. */
    method Clear()
      modifies this
      ensures objects == [] && nextId == old(nextId)
      ensures old(Valid()) ==> Valid()
    {
      objects := [];
    }

    /** getObject: the position of the object with this id, or none. */
    method GetObject(id: ObjectId) returns (r: Option<nat>)
      ensures r == FindFirst(objects, id)
      ensures r.Some? ==> r.value < |objects| && objects[r.value].id == id
      ensures r.None? <==> forall j :: 0 <= j < |objects| ==> objects[j].id != id
    {
      var i := 0;
      while i < |objects|
        invariant 0 <= i <= |objects|
        invariant forall j :: 0 <= j < i ==> objects[j].id != id
      {
        if objects[i].id == id {
          return Some(i);
        }
        i := i + 1;
      }
      return None;
    }

    /** size. */
    function Size(): (n: nat)
      reads this
      ensures n == |objects|
    {
      |objects|
    }
  }
}
