/**
  The in-memory entity store shared by all six services: a list of records in
  insertion order plus an id counter that starts at 1 and is post-incremented
  by every create.  The list operations are specified by the functions of this
  module; the class Repository performs them in place.
 */
module Store {

  import opened Wrappers

  /** An entity value: the id the service assigned and the rest of its fields. */
  datatype Record<T> = Record(id: nat, data: T)

  /** Some element of s carries the id. */
  predicate HasId<T>(s: seq<Record<T>>, id: nat) {
    exists i :: 0 <= i < |s| && s[i].id == id
  }

  /** Ids strictly increase from the front of the list to its back (so they are pairwise distinct). */
  predicate IdsIncreasing<T>(s: seq<Record<T>>) {
    forall i, j :: 0 <= i < j < |s| ==> s[i].id < s[j].id
  }

  /** Every id lies in [1, bound). */
  predicate IdsBelow<T>(s: seq<Record<T>>, bound: nat) {
    forall i :: 0 <= i < |s| ==> 1 <= s[i].id < bound
  }

  /** The index of the first element carrying the id, if any: what a scan from index 0 stops at. */
  function FirstIndex<T>(s: seq<Record<T>>, id: nat): (k: Option<nat>)
    ensures k.None? <==> !HasId(s, id)
    ensures k.Some? ==> k.value < |s| && s[k.value].id == id
    ensures k.Some? ==> forall j :: 0 <= j < k.value ==> s[j].id != id
  {
    if |s| == 0 then None
    else if s[0].id == id then Some(0)
    else
      match FirstIndex(s[1..], id)
      case None =>
        assert forall i :: 1 <= i < |s| ==> s[i] == s[1..][i - 1];
        None
      case Some(k) =>
        assert s[k + 1] == s[1..][k];
        assert forall j :: 1 <= j < k + 1 ==> s[j] == s[1..][j - 1];
        Some(k + 1)
  }

  /** The list after replacing the first element whose id is x.id by x; unchanged when there is none. */
  function ReplaceFirst<T>(s: seq<Record<T>>, x: Record<T>): (r: seq<Record<T>>)
    ensures |r| == |s|
    ensures !HasId(s, x.id) ==> r == s
    ensures forall j :: 0 <= j < |s| ==> r[j] == (if FirstIndex(s, x.id) == Some(j) then x else s[j])
  {
    match FirstIndex(s, x.id)
    case None => s
    case Some(k) => s[k := x]
  }

  /** The list without any element carrying the id, the others in their original order. */
  function RemoveAll<T>(s: seq<Record<T>>, id: nat): (r: seq<Record<T>>)
    ensures |r| <= |s|
    ensures forall i :: 0 <= i < |r| ==> r[i] in s && r[i].id != id
    ensures forall i :: 0 <= i < |s| && s[i].id != id ==> s[i] in r
    ensures !HasId(r, id)
    ensures |r| == |s| <==> !HasId(s, id)
    ensures !HasId(s, id) ==> r == s
  {
    if |s| == 0 then []
    else
      assert s == [s[0]] + s[1..];
      assert HasId(s, id) <==> s[0].id == id || HasId(s[1..], id) by {
        if HasId(s[1..], id) {
          var i :| 0 <= i < |s[1..]| && s[1..][i].id == id;
          assert s[i + 1].id == id;
        }
        if HasId(s, id) && s[0].id != id {
          var i :| 0 <= i < |s| && s[i].id == id;
          assert s[1..][i - 1].id == id;
        }
      }
      var rest := RemoveAll(s[1..], id);
      if s[0].id == id then rest
      else
        assert forall i :: 1 <= i < |[s[0]] + rest| ==> ([s[0]] + rest)[i] == rest[i - 1];
        [s[0]] + rest
  }

  /** Removal distributes over concatenation: the survivors keep their relative order. */
  lemma {:induction false} RemoveAllAppend<T>(a: seq<Record<T>>, b: seq<Record<T>>, id: nat)
    ensures RemoveAll(a + b, id) == RemoveAll(a, id) + RemoveAll(b, id)
  {
    if |a| == 0 {
      assert a + b == b;
    } else {
      assert (a + b)[1..] == a[1..] + b;
      assert (a + b)[0] == a[0];
      RemoveAllAppend(a[1..], b, id);
    }
  }

  /** Removal keeps a strictly increasing id order strictly increasing. */
  lemma {:induction false} RemoveAllKeepsIncreasing<T>(s: seq<Record<T>>, id: nat)
    requires IdsIncreasing(s)
    ensures IdsIncreasing(RemoveAll(s, id))
  {
    if |s| > 0 {
      TailIncreasing(s);
      RemoveAllKeepsIncreasing(s[1..], id);
      if s[0].id != id {
        var rest := RemoveAll(s[1..], id);
        HeadBelowSurvivors(s, id);
        ConsIncreasing(s[0], rest);
      }
    }
  }

  lemma TailIncreasing<T>(s: seq<Record<T>>)
    requires |s| > 0 && IdsIncreasing(s)
    ensures IdsIncreasing(s[1..])
  {
    var tail := s[1..];
    forall i, j | 0 <= i < j < |tail| ensures tail[i].id < tail[j].id {
      assert tail[i] == s[i + 1] && tail[j] == s[j + 1];
    }
  }

  lemma HeadBelowSurvivors<T>(s: seq<Record<T>>, id: nat)
    requires |s| > 0 && IdsIncreasing(s)
    ensures forall j :: 0 <= j < |RemoveAll(s[1..], id)| ==> s[0].id < RemoveAll(s[1..], id)[j].id
  {
    var tail := s[1..];
    var rest := RemoveAll(tail, id);
    forall j | 0 <= j < |rest| ensures s[0].id < rest[j].id {
      assert rest[j] in tail;
      var k :| 0 <= k < |tail| && tail[k] == rest[j];
      assert s[k + 1] == rest[j];
    }
  }

  lemma ConsIncreasing<T>(x: Record<T>, rest: seq<Record<T>>)
    requires IdsIncreasing(rest)
    requires forall j :: 0 <= j < |rest| ==> x.id < rest[j].id
    ensures IdsIncreasing([x] + rest)
  {
    var r := [x] + rest;
    forall i, j | 0 <= i < j < |r| ensures r[i].id < r[j].id {
      assert r[j] == rest[j - 1];
      if i > 0 { assert r[i] == rest[i - 1]; }
    }
  }

  /** A second removal of the same id finds nothing and changes nothing. */
  lemma DeleteTwice<T>(s: seq<Record<T>>, id: nat)
    ensures !HasId(RemoveAll(s, id), id)
    ensures RemoveAll(RemoveAll(s, id), id) == RemoveAll(s, id)
  {
  }

  /** A record created with an id larger than all present ones is what a later find returns. */
  lemma CreateThenFind<T>(s: seq<Record<T>>, n: nat, d: T)
    requires IdsBelow(s, n)
    ensures FirstIndex(s + [Record(n, d)], n) == Some(|s|)
  {
    var t := s + [Record(n, d)];
    assert t[|s|] == Record(n, d);
    assert forall j :: 0 <= j < |s| ==> t[j] == s[j];
  }

  /** After a successful update, a find for the id stops at the same index and returns the new record. */
  lemma UpdateThenFind<T>(s: seq<Record<T>>, x: Record<T>)
    requires HasId(s, x.id)
    ensures FirstIndex(ReplaceFirst(s, x), x.id) == FirstIndex(s, x.id)
    ensures ReplaceFirst(s, x)[FirstIndex(s, x.id).value] == x
  {
    var k := FirstIndex(s, x.id).value;
    var t := ReplaceFirst(s, x);
    assert t[k] == x;
    assert forall j :: 0 <= j < k ==> t[j] == s[j];
  }

  /**
    The store of one service.  `items` is the service's list, `nextId` its id
    counter; Valid() is the invariant every operation keeps: ids strictly
    increase along the list, start at 1 and stay below the counter, so the next
    create hands out an id no element has ever had.
   */
  class Repository<T> {
    var items: seq<Record<T>>
    var nextId: nat

    ghost predicate Valid()
      reads this
    {
      nextId >= 1 && IdsIncreasing(items) && IdsBelow(items, nextId)
    }

    constructor ()
      ensures Valid()
      ensures items == [] && nextId == 1
    {
      items := [];
      nextId := 1;
    }

    /** Assigns the current counter as id, advances the counter and appends the new record. */
    method Create(data: T) returns (r: Record<T>)
      requires Valid()
      modifies this
      ensures Valid()
      ensures r == Record(old(nextId), data)
      ensures !HasId(old(items), r.id)
      ensures nextId == old(nextId) + 1
      ensures items == old(items) + [r]
    {
      r := Record(nextId, data);
      nextId := nextId + 1;
      items := items + [r];
    }

    /** The first record with the id, or None (the Java null) when no record has it. */
    function FindById(id: nat): (r: Option<Record<T>>)
      reads this
      ensures r.None? <==> !HasId(items, id)
      ensures r.Some? ==> r.value.id == id
      ensures r.Some? ==> exists k :: 0 <= k < |items| && items[k] == r.value &&
                                      forall j :: 0 <= j < k ==> items[j].id != id
    {
      match FirstIndex(items, id)
      case None => None
      case Some(k) => Some(items[k])
    }

    /**
      Scans from index 0 and replaces the first record whose id equals
      updated.id, reporting true; reports false and changes nothing otherwise.
     */
    method Update(updated: Record<T>) returns (found: bool)
      requires Valid()
      modifies this
      ensures Valid()
      ensures found == HasId(old(items), updated.id)
      ensures items == ReplaceFirst(old(items), updated)
      ensures nextId == old(nextId)
    {
      for i := 0 to |items|
        invariant items == old(items)
        invariant forall j :: 0 <= j < i ==> items[j].id != updated.id
      {
        if items[i].id == updated.id {
          assert FirstIndex(items, updated.id) == Some(i);
          items := items[i := updated];
          return true;
        }
      }
      return false;
    }

    /** Drops every record with the id, keeps the rest in order, and reports whether any was dropped. */
    method Delete(id: nat) returns (removed: bool)
      requires Valid()
      modifies this
      ensures Valid()
      ensures removed == HasId(old(items), id)
      ensures items == RemoveAll(old(items), id)
      ensures nextId == old(nextId)
    {
      var rest := RemoveAll(items, id);
      RemoveAllKeepsIncreasing(items, id);
      removed := |rest| < |items|;
      items := rest;
    }
  }
}
