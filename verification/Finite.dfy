/** Cardinality facts about finite sets that the counting arguments share. */
module Finite {
  /** `n * (n - 1) * ... * 1`. */
  function Factorial(n: nat): nat {
    if n == 0 then 1 else n * Factorial(n - 1)
  }

  /** The union of a family of sets, one for each key. */
  ghost function Union<K(!new), T(!new)>(keys: set<K>, family: K -> set<T>): set<T> {
    set k, x | k in keys && x in family(k) :: x
  }

  lemma {:induction false} SubsetSize<T>(a: set<T>, b: set<T>)
    requires a <= b
    ensures |a| <= |b|
  {
    assert b == a + (b - a);
  }

  /** Adding one key adds its set. */
  lemma {:induction false} UnionStep<K(!new), T(!new)>(keys: set<K>, family: K -> set<T>, k: K)
    requires k in keys
    requires forall j | j in keys && j != k :: family(j) !! family(k)
    ensures |Union(keys, family)| == |Union(keys - {k}, family)| + |family(k)|
  {
    var before := Union(keys - {k}, family);
    assert Union(keys, family) == before + family(k);
    assert before !! family(k);
  }

  /** Pairwise disjoint sets of one size `c`: the union holds `|keys| * c` elements. */
  lemma {:induction false} DisjointUnionSize<K(!new), T(!new)>(keys: set<K>, family: K -> set<T>, c: nat)
    requires forall k | k in keys :: |family(k)| == c
    requires forall j, k | j in keys && k in keys && j != k :: family(j) !! family(k)
    ensures |Union(keys, family)| == |keys| * c
    decreases |keys|
  {
    if keys == {} {
      assert Union(keys, family) == {};
    } else {
      var k :| k in keys;
      UnionStep(keys, family, k);
      DisjointUnionSize(keys - {k}, family, c);
      calc {
        |keys| * c;
        (|keys - {k}| + 1) * c;
        |keys - {k}| * c + c;
      }
    }
  }

  /** Two sets matched by a map and its inverse have the same size. */
  lemma {:induction false} BijectionSize<S(!new), T(!new)>(a: set<S>, b: set<T>, f: S -> T, g: T -> S)
    requires forall x | x in a :: f(x) in b && g(f(x)) == x
    requires forall y | y in b :: g(y) in a && f(g(y)) == y
    ensures |a| == |b|
    decreases |a|
  {
    if a == {} {
      assert forall y | y in b :: g(y) in a;
    } else {
      var x :| x in a;
      forall y | y in b - {f(x)}
        ensures g(y) in a - {x}
      {
      }
      BijectionSize(a - {x}, b - {f(x)}, f, g);
    }
  }
}
