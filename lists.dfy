/**
 * The two operations of the .NET `List<T>` that the download controller
 * relies on when it takes a row out of a list: finding the first occurrence
 * of an element, and `Remove`, which deletes only that first occurrence and
 * leaves the list as it was when the element is absent.
 */
module Lists {

  /** Position of the first occurrence of `x` in `s`. */
  function FirstIndex<T(==)>(s: seq<T>, x: T): (i: nat)
    requires x in s
    ensures i < |s| && s[i] == x
    ensures forall k :: 0 <= k < i ==> s[k] != x
  {
    if s[0] == x then 0 else 1 + FirstIndex(s[1..], x)
  }

  /**
   * `List<T>.Remove`: the first occurrence of `x` is cut out of `s`, and the
   * elements before and after it keep their order. Nothing happens when `x`
   * is not in `s`; otherwise exactly one copy of `x` leaves the list and
   * nothing else does.
   */
  function RemoveFirst<T(==)>(s: seq<T>, x: T): (r: seq<T>)
    ensures x !in s ==> r == s
    ensures x in s ==> exists i :: 0 <= i < |s| && s[i] == x && x !in s[..i] && r == s[..i] + s[i + 1..]
    ensures multiset(r) == multiset(s) - multiset{x}
  {
    if x in s then
      var i := FirstIndex(s, x);
      assert s == s[..i] + [x] + s[i + 1..];
      s[..i] + s[i + 1..]
    else s
  }

  /** Removing an element shortens the list by one exactly when it was there. */
  lemma RemoveFirstLength<T>(s: seq<T>, x: T)
    ensures |RemoveFirst(s, x)| == if x in s then |s| - 1 else |s|
  {
  }

  /**
   * Removal cuts out the first occurrence and nothing else: whatever comes
   * before the first `x` and whatever comes after it stay, in order.
   */
  lemma RemoveFirstCutsFirst<T>(before: seq<T>, x: T, after: seq<T>)
    requires x !in before
    ensures RemoveFirst(before + [x] + after, x) == before + after
  {
    var s := before + [x] + after;
    var i := FirstIndex(s, x);
    assert s[|before|] == x;
    assert forall k :: 0 <= k < |before| ==> s[k] == before[k];
    assert i == |before|;
    assert s[..i] == before && s[i + 1..] == after;
  }

  /** Removing the element at the head of a list leaves the rest of the list. */
  lemma RemoveFirstHead<T>(x: T, rest: seq<T>)
    ensures RemoveFirst([x] + rest, x) == rest
  {
    assert FirstIndex([x] + rest, x) == 0;
  }
}
