/** Permission sets. A 32-bit mask is taken as the set of positions of its one bits, so that
    the bitwise `|`, `&` and bit tests are union, intersection and membership; `ToBits` and
    `FromBits` are the way to the word on the wire and back. */
module Scopes {
  const WIDTH: nat := 32
  const COUNT: nat := 10

  type ScopeSet = s: set<nat> | forall b | b in s :: b < WIDTH

  /** A scope is its discriminant. */
  type Scope = k: nat | k < COUNT

  datatype Access = Read | Write

  const NAMES: seq<string> := [
    "deployments", "collaborations", "secrets", "volumes", "datasets",
    "networking", "resources", "organization", "billing", "communities"]

  const EMPTY: ScopeSet := {}

  /** The lowest `2 * COUNT` bits. */
  const ALL: ScopeSet := set b | 0 <= b < 2 * COUNT

  // ---------- the word on the wire ----------

  function Pow2(n: nat): (p: nat)
    ensures p > 0
  {
    if n == 0 then 1 else 2 * Pow2(n - 1)
  }

  /** The value of the bits below `n`. */
  function LowBits(s: ScopeSet, n: nat): (w: nat)
    ensures w < Pow2(n)
  {
    if n == 0 then 0 else LowBits(s, n - 1) + if n - 1 in s then Pow2(n - 1) else 0
  }

  function ToBits(s: ScopeSet): (w: nat)
    ensures w < Pow2(WIDTH)
  {
    LowBits(s, WIDTH)
  }

  /** The one bits of a word of `n` bits. */
  function Ones(w: nat, n: nat): (s: ScopeSet)
    requires w < Pow2(n) && n <= WIDTH
    ensures forall b | b in s :: b < n
  {
    if n == 0 then {}
    else if w >= Pow2(n - 1) then Ones(w - Pow2(n - 1), n - 1) + {n - 1}
    else Ones(w, n - 1)
  }

  function FromBits(w: nat): ScopeSet
    requires w < Pow2(WIDTH)
  {
    Ones(w, WIDTH)
  }

  lemma {:induction false} LowBitsAgree(s: ScopeSet, t: ScopeSet, n: nat)
    requires forall b | 0 <= b < n :: b in s <==> b in t
    ensures LowBits(s, n) == LowBits(t, n)
  {
    if n > 0 {
      LowBitsAgree(s, t, n - 1);
    }
  }

  lemma {:induction false} OnesOfLowBits(s: ScopeSet, n: nat)
    requires n <= WIDTH
    ensures Ones(LowBits(s, n), n) == set b | b in s && b < n
  {
    if n > 0 {
      OnesOfLowBits(s, n - 1);
    }
  }

  lemma {:induction false} LowBitsOfOnes(w: nat, n: nat)
    requires w < Pow2(n) && n <= WIDTH
    ensures LowBits(Ones(w, n), n) == w
  {
    if n > 0 {
      var rest := if w >= Pow2(n - 1) then w - Pow2(n - 1) else w;
      LowBitsOfOnes(rest, n - 1);
      LowBitsAgree(Ones(w, n), Ones(rest, n - 1), n - 1);
    }
  }

  /** Sets of positions and 32-bit words are the same thing. */
  lemma {:induction false} WordRoundTrip(s: ScopeSet, w: nat)
    requires w < Pow2(WIDTH)
    ensures FromBits(ToBits(s)) == s && ToBits(FromBits(w)) == w
  {
    OnesOfLowBits(s, WIDTH);
    LowBitsOfOnes(w, WIDTH);
  }

  // ---------- grants ----------

  function Position(scope: Scope, access: Access): nat {
    scope * 2 + if access.Read? then 0 else 1
  }

  function Single(scope: Scope, access: Access): ScopeSet {
    {Position(scope, access)}
  }

  function With(s: ScopeSet, scope: Scope, access: Access): ScopeSet {
    s + Single(scope, access)
  }

  predicate Contains(s: ScopeSet, scope: Scope, access: Access) {
    Position(scope, access) in s
  }

  predicate IsSuperset(s: ScopeSet, other: ScopeSet) {
    s * other == other
  }

  /** The bit for a grant is worth two to its position. */
  lemma {:induction false} BitLayout(scope: Scope, access: Access)
    ensures ToBits(Single(scope, access)) == Pow2(scope * 2 + if access.Read? then 0 else 1)
  {
    SingleBit(Single(scope, access), Position(scope, access), WIDTH);
  }

  lemma {:induction false} SingleBit(s: ScopeSet, p: nat, n: nat)
    requires s == {p}
    ensures LowBits(s, n) == if p < n then Pow2(p) else 0
  {
    if n > 0 {
      SingleBit(s, p, n - 1);
    }
  }

  /** Read and write for every listed scope, and nothing else. */
  method Covering(scopes: seq<Scope>) returns (s: ScopeSet)
    ensures s <= ALL && forall k: Scope, a: Access :: Contains(s, k, a) <==> k in scopes
  {
    s := EMPTY;
    for i := 0 to |scopes|
      invariant s <= ALL && forall k: Scope, a: Access :: Contains(s, k, a) <==> k in scopes[..i]
    {
      ghost var before := s;
      s := With(With(s, scopes[i], Read), scopes[i], Write);
      forall k: Scope, a: Access
        ensures Contains(s, k, a) <==> k in scopes[..i + 1]
      {
        assert scopes[..i + 1] == scopes[..i] + [scopes[i]];
        assert Contains(s, k, a) <==> Contains(before, k, a) || k == scopes[i];
      }
    }
    assert scopes[..|scopes|] == scopes;
  }

  /** For defined grants, covering a set is holding each of its grants. */
  lemma {:induction false} SupersetMeaning(s: ScopeSet, other: ScopeSet)
    requires other <= ALL
    ensures IsSuperset(s, other) <==> forall k: Scope, a: Access | Contains(other, k, a) :: Contains(s, k, a)
  {
    if forall k: Scope, a: Access | Contains(other, k, a) :: Contains(s, k, a) {
      forall b | b in other
        ensures b in s
      {
        var a := if b % 2 == 0 then Read else Write;
        assert b == Position(b / 2, a) && Contains(other, b / 2, a);
      }
    } else {
      var k: Scope, a: Access :| Contains(other, k, a) && !Contains(s, k, a);
      assert Position(k, a) !in s * other;
    }
  }
}
