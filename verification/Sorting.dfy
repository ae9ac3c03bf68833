/** Sorting by an integer key, standing for the library sort the daemons call. */
module Sorting {

  ghost predicate SortedBy<T>(s: seq<T>, key: T -> int) {
    forall i, j :: 0 <= i < j < |s| ==> key(s[i]) <= key(s[j])
  }

  /** Where `x` belongs in a sorted sequence. */
  function Place<T>(x: T, s: seq<T>, key: T -> int): (k: nat)
    requires SortedBy(s, key)
    ensures k <= |s|
    ensures forall i :: 0 <= i < k ==> key(s[i]) <= key(x)
    ensures k < |s| ==> key(x) < key(s[k])
  {
    if s == [] then 0
    else if key(s[|s| - 1]) <= key(x) then |s|
    else Place(x, s[..|s| - 1], key)
  }

  lemma PlacedSorted<T>(x: T, s: seq<T>, key: T -> int)
    requires SortedBy(s, key)
    ensures var k := Place(x, s, key); SortedBy(s[..k] + [x] + s[k..], key)
  {
    var k := Place(x, s, key);
    assert forall j :: k <= j < |s| ==> key(x) < key(s[j]);
  }

  function Insert<T>(x: T, s: seq<T>, key: T -> int): (r: seq<T>)
    requires SortedBy(s, key)
    ensures SortedBy(r, key)
    ensures multiset(r) == multiset(s) + multiset{x}
  {
    var k := Place(x, s, key);
    assert s == s[..k] + s[k..];
    PlacedSorted(x, s, key);
    s[..k] + [x] + s[k..]
  }

  function Sort<T>(s: seq<T>, key: T -> int): (r: seq<T>)
    ensures SortedBy(r, key)
    ensures multiset(r) == multiset(s)
  {
    if s == [] then []
    else
      assert s == [s[0]] + s[1..];
      Insert(s[0], Sort(s[1..], key), key)
  }

  lemma SameElements<T>(a: seq<T>, b: seq<T>, x: T)
    requires multiset(a) == multiset(b)
    ensures |a| == |b| && (x in a <==> x in b)
  {
    assert |multiset(a)| == |multiset(b)|;
    assert x in multiset(a) <==> x in multiset(b);
  }
}
