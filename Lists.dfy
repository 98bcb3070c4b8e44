/** The list operation the registry relies on: removing the first element equal to a given one. */
module Lists {

  /** Position of the first occurrence of `x` in `s`. */
  function IndexOf<T(==)>(s: seq<T>, x: T): (k: nat)
    requires x in s
    ensures k < |s| && s[k] == x && x !in s[..k]
  {
    if s[0] == x then 0
    else
      var k := IndexOf(s[1..], x);
      assert s[1..][..k] == s[1..k + 1];
      k + 1
  }

  /** `s` with its first element equal to `x` taken out, or `s` itself when there is none
      (the behaviour of List.remove(Object)). */
  function RemoveFirst<T(==)>(s: seq<T>, x: T): (r: seq<T>)
    ensures x !in s ==> r == s
    ensures |r| == if x in s then |s| - 1 else |s|
    ensures multiset(r) == multiset(s) - multiset{x}
    // the others keep their order: positions before the removed one are kept, later ones move up by one
    ensures x in s ==> forall i :: 0 <= i < |r| ==> r[i] == s[if i < IndexOf(s, x) then i else i + 1]
  {
    if x in s then
      var k := IndexOf(s, x);
      assert s == s[..k] + [x] + s[k + 1..];
      s[..k] + s[k + 1..]
    else
      s
  }
}
