/** Random quorum choice: rejection sampling of one draw, a partial Fisher–Yates
    shuffle of the pool, and the counts showing that every quorum is equally likely. */
module Sampling {

  /** How many values one random 32-bit word takes. */
  const WORDS: nat := 0x1_0000_0000

  // ---------- one draw ----------

  /** How many words stand for each residue below `bound`. */
  function WordsPerResidue(bound: nat): (q: nat)
    requires 0 < bound
    ensures q * bound <= WORDS < q * bound + bound
    ensures bound <= WORDS ==> q > 0
  {
    WORDS / bound
  }

  /** Words from here up are redrawn. */
  function Limit(bound: nat): nat
    requires 0 < bound
  {
    WordsPerResidue(bound) * bound
  }

  /** `words(k)` is the k-th word the platform generator yields; the ghost argument says
      that it does not yield rejected words for ever. */
  method RandomBelow(bound: nat, words: nat -> nat, ghost accepted: nat) returns (value: nat, used: nat)
    requires 0 < bound
    requires words(accepted) < Limit(bound)
    ensures value < bound && words(used) in AcceptedWords(bound, value)
    ensures forall k | 0 <= k < used :: words(k) >= Limit(bound)
  {
    used := 0;
    while words(used) >= Limit(bound)
      invariant used <= accepted
      invariant forall k | 0 <= k < used :: words(k) >= Limit(bound)
      decreases accepted - used
    {
      used := used + 1;
    }
    value := words(used) % bound;
  }

  /** The words that `RandomBelow` accepts and turns into `residue`. */
  ghost function AcceptedWords(bound: nat, residue: nat): set<nat>
    requires 0 < bound
  {
    set w: nat | w < Limit(bound) && w % bound == residue
  }

  lemma {:induction false} ResidueCount(bound: nat, residue: nat, q: nat)
    requires residue < bound
    ensures |set w: nat | w < q * bound && w % bound == residue| == q
  {
    var words := set w: nat | w < q * bound && w % bound == residue;
    if q == 0 {
      assert words == {};
    } else {
      ResidueCount(bound, residue, q - 1);
      var fewer := set w: nat | w < (q - 1) * bound && w % bound == residue;
      var top := (q - 1) * bound + residue;
      assert q * bound == (q - 1) * bound + bound;
      forall w: nat | (q - 1) * bound <= w < q * bound
        ensures w % bound == w - (q - 1) * bound
      {
        RemainderOf(w, bound, q - 1);
      }
      assert words == fewer + {top};
    }
  }

  lemma {:induction false} RemainderOf(w: nat, bound: nat, q: nat)
    requires 0 < bound
    requires q * bound <= w < q * bound + bound
    ensures w / bound == q && w % bound == w - q * bound
  {
    var d := w / bound - q;
    assert w == (w / bound) * bound + w % bound;
    assert (w / bound) * bound == q * bound + d * bound;
    assert d >= 1 ==> d * bound >= bound;
    assert d <= -1 ==> d * bound + bound <= 0;
  }

  /** No residue is favoured, and fewer than half of all words are redrawn. */
  lemma {:induction false} RejectionIsUnbiased(bound: nat, residue: nat)
    requires residue < bound <= WORDS
    ensures |AcceptedWords(bound, residue)| == WordsPerResidue(bound) == WORDS / bound
    ensures Limit(bound) <= WORDS < 2 * Limit(bound)
  {
    ResidueCount(bound, residue, WordsPerResidue(bound));
    assert Limit(bound) >= bound;
  }

  // ---------- the shuffle ----------

  ghost predicate Distinct<T>(s: seq<T>) {
    forall i, j | 0 <= i < j < |s| :: s[i] != s[j]
  }

  ghost function Elements<T>(s: seq<T>): set<T> {
    set x | x in s
  }

  /** `draws[i]` answers the i-th request for a number below `n - i`. */
  ghost predicate ValidDraws(draws: seq<nat>, n: nat) {
    |draws| <= n && forall i | 0 <= i < |draws| :: draws[i] < n - i
  }

  function Swap<T>(s: seq<T>, i: nat, j: nat): seq<T>
    requires i < |s| && j < |s|
  {
    s[i := s[j]][j := s[i]]
  }

  /** What is left of the pool once its i-th element is taken: slot 0 moves into its place. */
  function Rest<T>(pool: seq<T>, i: nat): seq<T>
    requires i < |pool|
  {
    Swap(pool, 0, i)[1..]
  }

  /** The ordered sample that the draws pick. */
  ghost function Sample<T>(pool: seq<T>, draws: seq<nat>): (r: seq<T>)
    requires ValidDraws(draws, |pool|)
    ensures |r| == |draws|
    decreases |draws|
  {
    if draws == [] then [] else [pool[draws[0]]] + Sample(Rest(pool, draws[0]), draws[1..])
  }

  /** One turn of the loop moves one element from the sample still to draw to the slots
      already filled. */
  lemma {:induction false} ShuffleStep<T>(pool: seq<T>, draws: seq<nat>, i: nat)
    requires i < |draws| && ValidDraws(draws, |pool|)
    ensures ValidDraws(draws[i..], |pool| - i) && ValidDraws(draws[i + 1..], |pool| - i - 1)
    ensures var next := Swap(pool, i, i + draws[i]);
            pool[..i] + Sample(pool[i..], draws[i..]) == next[..i + 1] + Sample(next[i + 1..], draws[i + 1..])
  {
    var next := Swap(pool, i, i + draws[i]);
    assert draws[i..][0] == draws[i] && draws[i..][1..] == draws[i + 1..];
    assert next[i + 1..] == Rest(pool[i..], draws[i]);
    assert next[..i + 1] == pool[..i] + [pool[i..][draws[i]]];
  }

  /** The loop in place: the first `|draws|` slots end up holding the sample. */
  method PartialShuffle<T>(pool: array<T>, draws: seq<nat>)
    requires ValidDraws(draws, pool.Length)
    modifies pool
    ensures pool[..|draws|] == Sample(old(pool[..]), draws)
  {
    var i := 0;
    ghost var slots := pool[..];
    while i < |draws|
      invariant i <= |draws| && slots == pool[..]
      invariant ValidDraws(draws[i..], |slots| - i)
      invariant slots[..i] + Sample(slots[i..], draws[i..]) == Sample(old(pool[..]), draws)
    {
      ShuffleStep(slots, draws, i);
      var j := i + draws[i];
      slots := Swap(slots, i, j);
      pool[i], pool[j] := pool[j], pool[i];
      i := i + 1;
    }
    assert draws[i..] == [];
  }

  lemma {:induction false} SampleFromPool<T>(pool: seq<T>, draws: seq<nat>)
    requires ValidDraws(draws, |pool|)
    ensures forall x | x in Sample(pool, draws) :: x in pool
    decreases |draws|
  {
    if draws != [] {
      SampleFromPool(Rest(pool, draws[0]), draws[1..]);
    }
  }

  // ---------- the shuffle is a bijection ----------

  /** An ordered choice of distinct pool elements. */
  ghost predicate Arrangement<T>(chosen: seq<T>, pool: seq<T>) {
    Distinct(chosen) && Elements(chosen) <= Elements(pool)
  }

  ghost function IndexOf<T>(s: seq<T>, x: T): (i: nat)
    requires x in s
    ensures i < |s| && s[i] == x
  {
    var i :| 0 <= i < |s| && s[i] == x;
    i
  }

  lemma {:induction false} RestElements<T>(pool: seq<T>, i: nat)
    requires Distinct(pool) && i < |pool|
    ensures Distinct(Rest(pool, i)) && Elements(Rest(pool, i)) == Elements(pool) - {pool[i]}
  {
    var rest := Rest(pool, i);
    forall x | x in Elements(pool) - {pool[i]}
      ensures x in rest
    {
      var k :| 0 <= k < |pool| && pool[k] == x;
      assert rest[(if k == 0 then i else k) - 1] == x;
    }
  }

  lemma {:induction false} ArrangementTail<T>(chosen: seq<T>, pool: seq<T>)
    requires Distinct(pool) && Arrangement(chosen, pool) && chosen != []
    ensures chosen[0] in pool && Arrangement(chosen[1..], Rest(pool, IndexOf(pool, chosen[0])))
  {
    assert chosen[0] in Elements(chosen);
    RestElements(pool, IndexOf(pool, chosen[0]));
    forall x | x in chosen[1..]
      ensures x in Elements(pool) && x != chosen[0]
    {
      assert x in Elements(chosen);
    }
  }

  /** The draws that pick `chosen`, in that order. */
  ghost function DrawsFor<T>(chosen: seq<T>, pool: seq<T>): (draws: seq<nat>)
    requires Distinct(pool) && Arrangement(chosen, pool)
    ensures |draws| == |chosen| && ValidDraws(draws, |pool|) && Sample(pool, draws) == chosen
    decreases |chosen|
  {
    if chosen == [] then []
    else
      ArrangementTail(chosen, pool);
      var i := IndexOf(pool, chosen[0]);
      [i] + DrawsFor(chosen[1..], Rest(pool, i))
  }

  lemma {:induction false} SampleIsArrangement<T>(pool: seq<T>, draws: seq<nat>)
    requires Distinct(pool) && ValidDraws(draws, |pool|)
    ensures Arrangement(Sample(pool, draws), pool)
    decreases |draws|
  {
    if draws != [] {
      RestElements(pool, draws[0]);
      SampleIsArrangement(Rest(pool, draws[0]), draws[1..]);
      var tail := Sample(Rest(pool, draws[0]), draws[1..]);
      assert forall x | x in tail :: x in Elements(tail);
    }
  }

  /** Only one vector of draws picks a given arrangement. */
  lemma {:induction false} DrawsAreUnique<T>(pool: seq<T>, draws: seq<nat>)
    requires Distinct(pool) && ValidDraws(draws, |pool|)
    ensures Arrangement(Sample(pool, draws), pool) && DrawsFor(Sample(pool, draws), pool) == draws
    decreases |draws|
  {
    SampleIsArrangement(pool, draws);
    if draws != [] {
      RestElements(pool, draws[0]);
      DrawsAreUnique(Rest(pool, draws[0]), draws[1..]);
    }
  }
}
