/**
 * The array operations the front-end stores are built from: find and
 * findIndex by id (strict equality on the id), and filter by id. A stored
 * object is modelled as its id and the rest of its fields.
 */
module StoreLists {
  import opened Common

  /** An object held in a store list: its id and its other fields. */
  datatype Record<V> = Record(id: int, body: V)

  /** No element of s has this id. */
  predicate Absent<V>(s: seq<Record<V>>, id: int)
  {
    forall k :: 0 <= k < |s| ==> s[k].id != id
  }

  /** findIndex((c) => c.id === id): the first position holding the id, or -1. */
  function FindIndex<V>(s: seq<Record<V>>, id: int): (i: int)
    ensures -1 <= i < |s|
    ensures i == -1 <==> Absent(s, id)
    ensures i >= 0 ==> s[i].id == id && forall k :: 0 <= k < i ==> s[k].id != id
    decreases |s|
  {
    if s == [] then -1
    else if s[0].id == id then 0
    else
      var j := FindIndex(s[1..], id);
      if j == -1 then -1
      else
        assert forall k :: 1 <= k < j + 1 ==> s[k] == s[1..][k - 1];
        j + 1
  }

  /** find((c) => c.id === id): the first element holding the id, if any. */
  function Find<V>(s: seq<Record<V>>, id: int): (r: Option<Record<V>>)
    ensures r.None? <==> Absent(s, id)
    ensures r.Some? ==> r.value.id == id && r.value in s
    ensures r.Some? ==> exists i :: 0 <= i < |s| && s[i] == r.value && forall k :: 0 <= k < i ==> s[k].id != id
  {
    var i := FindIndex(s, id);
    if i == -1 then None else Some(s[i])
  }

  /** filter((c) => c.id !== id): every element without that id, in their order. */
  function Without<V>(s: seq<Record<V>>, id: int): (r: seq<Record<V>>)
    ensures |r| <= |s| && Absent(r, id)
    ensures forall k :: 0 <= k < |r| ==> r[k] in s
    ensures forall k :: 0 <= k < |s| && s[k].id != id ==> s[k] in r
    decreases |s|
  {
    if s == [] then []
    else
      assert s == [s[0]] + s[1..];
      if s[0].id == id then Without(s[1..], id) else [s[0]] + Without(s[1..], id)
  }

  /** Filtering a concatenation filters each part and keeps them in order. */
  lemma {:induction false} WithoutConcat<V>(a: seq<Record<V>>, b: seq<Record<V>>, id: int)
    ensures Without(a + b, id) == Without(a, id) + Without(b, id)
    decreases |a|
  {
    if a == [] {
      assert a + b == b;
    } else {
      assert (a + b)[1..] == a[1..] + b;
      WithoutConcat(a[1..], b, id);
    }
  }

  /** Filtering a list that does not hold the id changes nothing. */
  lemma {:induction false} WithoutAbsent<V>(s: seq<Record<V>>, id: int)
    requires Absent(s, id)
    ensures Without(s, id) == s
    decreases |s|
  {
    if s != [] {
      WithoutAbsent(s[1..], id);
    }
  }

  /** A one-element list loses its element exactly when it holds the id. */
  lemma WithoutOne<V>(x: Record<V>, id: int)
    ensures Without([x], id) == if x.id == id then [] else [x]
  {
    assert [x][1..] == [];
  }

  /** Removing an id after appending an element with that id gives the list filtered as before. */
  lemma RemoveAfterAppend<V>(s: seq<Record<V>>, x: Record<V>)
    ensures Without(s + [x], x.id) == Without(s, x.id)
  {
    WithoutConcat(s, [x], x.id);
    WithoutOne(x, x.id);
  }

  /** A list that already holds the id keeps answering find with its earlier element after an append. */
  lemma FindAfterAppend<V>(s: seq<Record<V>>, x: Record<V>, id: int)
    ensures Find(s + [x], id) == if !Absent(s, id) then Find(s, id) else if x.id == id then Some(x) else None
  {
    var i := FindIndex(s, id);
    var j := FindIndex(s + [x], id);
    assert forall k :: 0 <= k < |s| ==> (s + [x])[k] == s[k];
    assert (s + [x])[|s|] == x;
    if !Absent(s, id) {
      assert j <= i;
      assert j == i;
    }
  }

  /**
   * The effect of findIndex followed by splice(index, 1, x): the first
   * element with x's id is replaced by x, nothing else moves, and a list
   * without that id is left as it was.
   */
  ghost predicate ReplacedFirst<V>(before: seq<Record<V>>, after: seq<Record<V>>, x: Record<V>)
  {
    && |after| == |before|
    && (Absent(before, x.id) ==> after == before)
    && (!Absent(before, x.id) ==>
          var i := FindIndex(before, x.id);
          after[i] == x && forall k :: 0 <= k < |after| && k != i ==> after[k] == before[k])
  }

  /** After a replacement, find by the id answers the new element. */
  lemma FindAfterReplace<V>(before: seq<Record<V>>, after: seq<Record<V>>, x: Record<V>)
    requires ReplacedFirst(before, after, x) && !Absent(before, x.id)
    ensures Find(after, x.id) == Some(x)
  {
    var i := FindIndex(before, x.id);
    var j := FindIndex(after, x.id);
    assert after[i] == x;
    assert j <= i;
    assert forall k :: 0 <= k < i ==> after[k] == before[k];
  }
}
