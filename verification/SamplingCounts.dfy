/** How many draw vectors, and how many streams of accepted random words, produce one quorum. */
module SamplingCounts {
  import opened Finite
  import opened Sampling

  // ---------- draw vectors per quorum ----------

  /** Every draw vector of length `t` for a pool of `n`. */
  ghost function AllDraws(n: nat, t: nat): set<seq<nat>>
    requires t <= n
    decreases t
  {
    if t == 0 then {[]}
    else set d: nat, rest | d < n && rest in AllDraws(n - 1, t - 1) :: [d] + rest
  }

  lemma {:induction false} AllDrawsAreValid(n: nat, t: nat, draws: seq<nat>)
    requires t <= n
    ensures draws in AllDraws(n, t) <==> ValidDraws(draws, n) && |draws| == t
    decreases t
  {
    if t > 0 && draws != [] {
      AllDrawsAreValid(n - 1, t - 1, draws[1..]);
      assert draws == [draws[0]] + draws[1..];
      assert ValidDraws(draws, n) ==> ValidDraws(draws[1..], n - 1);
      if ValidDraws(draws[1..], n - 1) && draws[0] < n {
        forall i | 0 <= i < |draws|
          ensures draws[i] < n - i
        {
          if i > 0 {
            assert draws[1..][i - 1] < n - 1 - (i - 1);
          }
        }
      }
    }
  }

  /** Every order of the elements of `s`. */
  ghost function Orders<T(!new)>(s: set<T>): set<seq<T>>
    decreases |s|
  {
    if s == {} then {[]}
    else Union(s, x => if x in s then Starting(x, Orders(s - {x})) else {})
  }

  ghost function Starting<T(!new)>(x: T, tails: set<seq<T>>): set<seq<T>> {
    set tail | tail in tails :: [x] + tail
  }

  lemma {:induction false} OrdersStep<T(!new)>(s: set<T>, p: seq<T>)
    requires s != {}
    ensures p in Orders(s) <==> p != [] && p[0] in s && p[1..] in Orders(s - {p[0]})
  {
    var family := x => if x in s then Starting(x, Orders(s - {x})) else {};
    assert Orders(s) == Union(s, family);
    if p != [] && p[0] in s && p[1..] in Orders(s - {p[0]}) {
      assert p == [p[0]] + p[1..];
      assert p in family(p[0]);
    }
  }

  lemma {:induction false} DistinctStep<T>(p: seq<T>)
    requires p != []
    ensures Elements(p) == {p[0]} + Elements(p[1..])
    ensures Distinct(p) <==> Distinct(p[1..]) && p[0] !in Elements(p[1..])
  {
    assert p == [p[0]] + p[1..];
  }

  /** An order of a set starts with one of its members and orders the others. */
  lemma {:induction false} ArrangementStep<T>(s: set<T>, p: seq<T>)
    requires p != []
    ensures Distinct(p) && Elements(p) == s <==>
              p[0] in s && Distinct(p[1..]) && Elements(p[1..]) == s - {p[0]}
  {
    DistinctStep(p);
  }

  lemma {:induction false} OrdersAreArrangements<T(!new)>(s: set<T>, p: seq<T>)
    ensures p in Orders(s) <==> Distinct(p) && Elements(p) == s
    decreases |s|
  {
    if p == [] {
      assert Elements(p) == {};
      if s != {} {
        OrdersStep(s, p);
      }
    } else {
      ArrangementStep(s, p);
      if s != {} {
        OrdersStep(s, p);
        if p[0] in s {
          OrdersAreArrangements(s - {p[0]}, p[1..]);
        }
      }
    }
  }

  lemma {:induction false} StartingApart<T(!new)>(x: T, y: T, xs: set<seq<T>>, ys: set<seq<T>>)
    requires x != y
    ensures Starting(x, xs) !! Starting(y, ys)
  {
    assert forall p | p in Starting(x, xs) :: p[0] == x;
    assert forall p | p in Starting(y, ys) :: p[0] == y;
  }

  lemma {:induction false} OrdersCount<T(!new)>(s: set<T>)
    ensures |Orders(s)| == Factorial(|s|)
    decreases |s|
  {
    if s != {} {
      var family := x => if x in s then Starting(x, Orders(s - {x})) else {};
      forall x | x in s
        ensures |family(x)| == Factorial(|s| - 1)
      {
        OrdersCount(s - {x});
        StartingSize(x, Orders(s - {x}));
      }
      forall x, y | x in s && y in s && x != y
        ensures family(x) !! family(y)
      {
        StartingApart(x, y, Orders(s - {x}), Orders(s - {y}));
      }
      DisjointUnionSize(s, family, Factorial(|s| - 1));
      assert Orders(s) == Union(s, family);
    }
  }

  lemma {:induction false} StartingSize<T(!new)>(x: T, tails: set<seq<T>>)
    ensures |Starting(x, tails)| == |tails|
    decreases |tails|
  {
    if tails == {} {
      assert Starting(x, tails) == {};
    } else {
      var tail :| tail in tails;
      StartingSize(x, tails - {tail});
      assert ([x] + tail)[1..] == tail;
      assert forall t | [x] + t == [x] + tail :: t == ([x] + t)[1..] == tail;
      assert Starting(x, tails) == Starting(x, tails - {tail}) + {[x] + tail};
    }
  }

  /** The draw vectors whose sample, in whatever order, is the set `quorum`. */
  ghost function DrawsOf<T(!new)>(pool: seq<T>, quorum: set<T>): set<seq<nat>>
    requires |quorum| <= |pool|
  {
    set d | d in AllDraws(|pool|, |quorum|) && ValidDraws(d, |pool|) && Elements(Sample(pool, d)) == quorum
  }

  /** Each `t`-subset of the pool is drawn by exactly `t!` vectors. */
  lemma {:induction false} DrawsPerQuorum<T(!new)>(pool: seq<T>, quorum: set<T>)
    requires Distinct(pool) && quorum <= Elements(pool)
    requires |quorum| <= |pool|
    ensures |DrawsOf(pool, quorum)| == Factorial(|quorum|)
  {
    var f := d => if ValidDraws(d, |pool|) then Sample(pool, d) else [];
    var g := p => if Arrangement(p, pool) then DrawsFor(p, pool) else [];
    forall d | d in DrawsOf(pool, quorum)
      ensures f(d) in Orders(quorum) && g(f(d)) == d
    {
      DrawsAreUnique(pool, d);
      OrdersAreArrangements(quorum, f(d));
    }
    forall p | p in Orders(quorum)
      ensures g(p) in DrawsOf(pool, quorum) && f(g(p)) == p
    {
      OrdersAreArrangements(quorum, p);
      DistinctSize(p);
      AllDrawsAreValid(|pool|, |quorum|, g(p));
    }
    BijectionSize(DrawsOf(pool, quorum), Orders(quorum), f, g);
    OrdersCount(quorum);
  }

  lemma {:induction false} DistinctSize<T>(s: seq<T>)
    requires Distinct(s)
    ensures |Elements(s)| == |s|
  {
    if s != [] {
      DistinctStep(s);
      DistinctSize(s[1..]);
    } else {
      assert Elements(s) == {};
    }
  }

  // ---------- word streams per quorum ----------

  /** The accepted words, one per draw, that `RandomBelow` turns into `draws`. */
  ghost function WordsFor(n: nat, draws: seq<nat>): set<seq<nat>>
    requires ValidDraws(draws, n)
    decreases |draws|
  {
    if draws == [] then {[]}
    else Prefixed(AcceptedWords(n, draws[0]), WordsFor(n - 1, draws[1..]))
  }

  ghost function Prefixed(heads: set<nat>, tails: set<seq<nat>>): set<seq<nat>> {
    Union(heads, w => Starting(w, tails))
  }

  /** How many word streams there are for each draw vector. */
  ghost function Ways(n: nat, t: nat): nat
    requires t <= n
  {
    if t == 0 then 1 else WordsPerResidue(n) * Ways(n - 1, t - 1)
  }

  lemma {:induction false} PrefixedCount(heads: set<nat>, tails: set<seq<nat>>)
    ensures |Prefixed(heads, tails)| == |heads| * |tails|
  {
    var family := w => Starting(w, tails);
    forall w | w in heads
      ensures |family(w)| == |tails|
    {
      StartingSize(w, tails);
    }
    forall v, w | v in heads && w in heads && v != w
      ensures family(v) !! family(w)
    {
      assert forall p | p in family(v) :: p[0] == v;
      assert forall p | p in family(w) :: p[0] == w;
    }
    DisjointUnionSize(heads, family, |tails|);
    assert Prefixed(heads, tails) == Union(heads, family);
  }

  lemma {:induction false} WordsForCount(n: nat, draws: seq<nat>)
    requires ValidDraws(draws, n) && n <= WORDS
    ensures |WordsFor(n, draws)| == Ways(n, |draws|)
    decreases |draws|
  {
    if draws != [] {
      WordsForCount(n - 1, draws[1..]);
      RejectionIsUnbiased(n, draws[0]);
      PrefixedCount(AcceptedWords(n, draws[0]), WordsFor(n - 1, draws[1..]));
    }
  }

  lemma {:induction false} WordsDetermineDraws(n: nat, c: seq<nat>, d: seq<nat>, words: seq<nat>)
    requires ValidDraws(c, n) && ValidDraws(d, n) && |c| == |d|
    requires words in WordsFor(n, c) && words in WordsFor(n, d)
    ensures c == d
    decreases |c|
  {
    if c != [] {
      WordsDetermineDraws(n - 1, c[1..], d[1..], words[1..]);
      assert c == [c[0]] + c[1..] && d == [d[0]] + d[1..];
    }
  }

  /** The accepted word streams that end in `quorum`. */
  ghost function StreamsOf<T(!new)>(pool: seq<T>, quorum: set<T>): set<seq<nat>>
    requires |quorum| <= |pool|
  {
    set d, words | d in DrawsOf(pool, quorum) && words in WordsFor(|pool|, d) :: words
  }

  /** The quorum choice as a whole is uniform: the number of equally likely word streams
      behind a quorum depends on the sizes of pool and quorum alone. */
  lemma {:induction false} EveryQuorumIsEquallyLikely<T(!new)>(pool: seq<T>, quorum: set<T>)
    requires Distinct(pool) && quorum <= Elements(pool)
    requires |quorum| <= |pool| <= WORDS
    ensures |StreamsOf(pool, quorum)| == Factorial(|quorum|) * Ways(|pool|, |quorum|)
    ensures |StreamsOf(pool, quorum)| > 0
  {
    var n, t := |pool|, |quorum|;
    var family := d => if ValidDraws(d, n) then WordsFor(n, d) else {};
    var draws := DrawsOf(pool, quorum);
    DrawsPerQuorum(pool, quorum);
    forall d | d in draws
      ensures |family(d)| == Ways(n, t)
    {
      AllDrawsAreValid(n, t, d);
      WordsForCount(n, d);
    }
    forall c, d | c in draws && d in draws && c != d
      ensures family(c) !! family(d)
    {
      AllDrawsAreValid(n, t, c);
      AllDrawsAreValid(n, t, d);
      forall words | words in family(c) && words in family(d)
        ensures false
      {
        WordsDetermineDraws(n, c, d, words);
      }
    }
    DisjointUnionSize(draws, family, Ways(n, t));
    assert StreamsOf(pool, quorum) == Union(draws, family);
    FactorialPositive(t);
    WaysPositive(n, t);
  }

  lemma {:induction false} FactorialPositive(n: nat)
    ensures Factorial(n) > 0
  {
    if n > 0 {
      FactorialPositive(n - 1);
    }
  }

  lemma {:induction false} WaysPositive(n: nat, t: nat)
    requires t <= n <= WORDS
    ensures Ways(n, t) > 0
  {
    if t > 0 {
      WaysPositive(n - 1, t - 1);
      assert WordsPerResidue(n) * Ways(n - 1, t - 1) > 0;
    }
  }
}
