/** Iteration over hash sets and maps, whose order the source leaves to the library. */
module Collections {
  ghost predicate NoDuplicates<T>(s: seq<T>) {
    forall i, j :: 0 <= i < j < |s| ==> s[i] != s[j]
  }

  function SetOf<T>(s: seq<T>): set<T> {
    set x | x in s
  }

  /** The elements of a set, each once, in an arbitrary order. */
  method Enumerate<T(==)>(elements: set<T>) returns (order: seq<T>)
    ensures NoDuplicates(order) && |order| == |elements|
    ensures forall x :: x in order <==> x in elements
  {
    order := [];
    var rest := elements;
    while rest != {}
      invariant rest <= elements && |order| + |rest| == |elements|
      invariant NoDuplicates(order)
      invariant forall x :: x in order <==> x in elements - rest
      decreases |rest|
    {
      var x :| x in rest;
      assert x !in order;
      rest := rest - {x};
      order := order + [x];
    }
  }

  /** There is always an unused number. */
  lemma {:induction false} FreshNat(used: set<nat>) returns (n: nat)
    ensures n !in used && forall m :: m in used ==> m < n
    decreases |used|
  {
    if used == {} {
      n := 0;
    } else {
      var m :| m in used;
      var above := FreshNat(used - {m});
      assert forall k :: k in used ==> k == m || k in used - {m};
      n := if m < above then above else m + 1;
    }
  }
}
