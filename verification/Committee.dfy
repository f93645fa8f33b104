/** Committee nodes, the quorum drawn from them, and the check on the points handed to
    the cryptographic core. */
module Committee {
  import opened Wrappers
  import opened Sampling

  type Bytes = seq<bv8>

  datatype Node = Node(index: nat, endpoint: string, shareCommitment: Bytes)

  function Indices(nodes: seq<Node>): (r: seq<nat>)
    ensures |r| == |nodes|
  {
    seq(|nodes|, i requires 0 <= i < |nodes| => nodes[i].index)
  }

  ghost predicate Ascending(s: seq<nat>) {
    forall i, j | 0 <= i < j < |s| :: s[i] < s[j]
  }

  // ---------- index order ----------

  function Insert(node: Node, sorted: seq<Node>): (r: seq<Node>)
    ensures |r| == |sorted| + 1 && Elements(r) == Elements(sorted) + {node}
  {
    if sorted == [] || node.index <= sorted[0].index then [node] + sorted
    else
      assert Elements(sorted) == {sorted[0]} + Elements(sorted[1..]);
      var tail := Insert(node, sorted[1..]);
      assert Elements([sorted[0]] + tail) == {sorted[0]} + Elements(tail);
      [sorted[0]] + tail
  }

  function SortByIndex(nodes: seq<Node>): (r: seq<Node>)
    ensures |r| == |nodes| && Elements(r) == Elements(nodes)
  {
    if nodes == [] then []
    else
      assert Elements(nodes) == {nodes[0]} + Elements(nodes[1..]);
      Insert(nodes[0], SortByIndex(nodes[1..]))
  }

  lemma {:induction false} PrependAscends(node: Node, tail: seq<Node>)
    requires Ascending(Indices(tail)) && forall k | 0 <= k < |tail| :: node.index < Indices(tail)[k]
    ensures Ascending(Indices([node] + tail))
  {
    assert Indices([node] + tail) == [node.index] + Indices(tail);
  }

  lemma {:induction false} InsertAscends(node: Node, sorted: seq<Node>)
    requires Ascending(Indices(sorted)) && node.index !in Indices(sorted)
    ensures Ascending(Indices(Insert(node, sorted)))
    decreases |sorted|
  {
    if sorted != [] {
      assert Indices(sorted)[0] == sorted[0].index;
      if node.index > sorted[0].index {
        var rest := sorted[1..];
        assert Indices(rest) == Indices(sorted)[1..];
        InsertAscends(node, rest);
        var tail := Insert(node, rest);
        forall k | 0 <= k < |tail|
          ensures sorted[0].index < Indices(tail)[k]
        {
          assert tail[k] in Elements(tail);
          if tail[k] in rest {
            var m :| 0 <= m < |rest| && rest[m] == tail[k];
            assert Indices(sorted)[0] < Indices(sorted)[m + 1];
          }
        }
        PrependAscends(sorted[0], tail);
      } else {
        forall k | 0 <= k < |sorted|
          ensures node.index < Indices(sorted)[k]
        {
          assert Indices(sorted)[0] != node.index;
        }
        PrependAscends(node, sorted);
      }
    }
  }

  /** Nodes with distinct indices end up in strictly ascending order. */
  lemma {:induction false} SortAscends(nodes: seq<Node>)
    requires Distinct(Indices(nodes))
    ensures Ascending(Indices(SortByIndex(nodes)))
    decreases |nodes|
  {
    if nodes != [] {
      var rest := nodes[1..];
      assert Indices(rest) == Indices(nodes)[1..];
      SortAscends(rest);
      var sorted := SortByIndex(rest);
      forall k | 0 <= k < |sorted|
        ensures sorted[k].index != nodes[0].index
      {
        assert sorted[k] in Elements(sorted);
        var m :| 0 <= m < |rest| && rest[m] == sorted[k];
        assert Indices(nodes)[0] != Indices(nodes)[m + 1];
      }
      InsertAscends(nodes[0], sorted);
    }
  }

  /** A set of nodes has only one order by strictly ascending index. */
  lemma {:induction false} AscendingIsUnique(a: seq<Node>, b: seq<Node>)
    requires Ascending(Indices(a)) && Ascending(Indices(b))
    requires Elements(a) == Elements(b)
    ensures a == b
    decreases |a|
  {
    NoElements(a);
    NoElements(b);
    if a != [] {
      FirstIsLeast(a, b);
      FirstIsLeast(b, a);
      assert Elements(a[1..]) == Elements(a) - {a[0]} by { TailElements(a); }
      assert Elements(b[1..]) == Elements(b) - {b[0]} by { TailElements(b); }
      assert Indices(a[1..]) == Indices(a)[1..] && Indices(b[1..]) == Indices(b)[1..];
      AscendingIsUnique(a[1..], b[1..]);
    }
  }

  lemma {:induction false} NoElements<T>(s: seq<T>)
    ensures s == [] <==> Elements(s) == {}
  {
    if s != [] {
      assert s[0] in Elements(s);
    }
  }

  lemma {:induction false} FirstIsLeast(a: seq<Node>, b: seq<Node>)
    requires a != [] && b != [] && Ascending(Indices(a)) && Ascending(Indices(b))
    requires Elements(a) == Elements(b)
    ensures a[0].index <= b[0].index
    ensures a[0].index == b[0].index ==> a[0] == b[0]
  {
    assert b[0] in Elements(a);
    var j :| 0 <= j < |a| && a[j] == b[0];
    assert Indices(a)[0] <= Indices(a)[j];
    assert j > 0 ==> Indices(a)[0] < Indices(a)[j];
  }

  lemma {:induction false} TailElements(a: seq<Node>)
    requires a != [] && Ascending(Indices(a))
    ensures Elements(a[1..]) == Elements(a) - {a[0]}
  {
    forall k | 1 <= k < |a|
      ensures a[k] != a[0]
    {
      assert Indices(a)[0] < Indices(a)[k];
    }
    forall x | x in Elements(a) - {a[0]}
      ensures x in a[1..]
    {
      var k :| 0 <= k < |a| && a[k] == x;
      assert a[1..][k - 1] == x;
    }
  }

  // ---------- the quorum ----------

  /** The quorum that the draws pick, in the order of the signed subset. */
  ghost function Quorum(available: seq<Node>, draws: seq<nat>): seq<Node>
    requires ValidDraws(draws, |available|)
  {
    SortByIndex(Sample(available, draws))
  }

  method ChooseQuorum(available: seq<Node>, threshold: nat, draws: seq<nat>) returns (chosen: seq<Node>)
    requires |draws| == threshold && ValidDraws(draws, |available|)
    ensures chosen == Quorum(available, draws)
  {
    var pool := new Node[|available|](i requires 0 <= i < |available| => available[i]);
    assert pool[..] == available;
    PartialShuffle(pool, draws);
    chosen := SortByIndex(pool[..threshold]);
  }

  lemma {:induction false} DistinctIndicesDistinctNodes(nodes: seq<Node>)
    requires Distinct(Indices(nodes))
    ensures Distinct(nodes)
  {
    forall i, j | 0 <= i < j < |nodes|
      ensures nodes[i] != nodes[j]
    {
      assert Indices(nodes)[i] != Indices(nodes)[j];
    }
  }

  /** Some of the nodes, each at most once. */
  lemma {:induction false} SubsetIndices(part: seq<Node>, nodes: seq<Node>)
    requires Distinct(Indices(nodes)) && Arrangement(part, nodes)
    ensures Distinct(Indices(part))
  {
    forall i, j | 0 <= i < j < |part|
      ensures Indices(part)[i] != Indices(part)[j]
    {
      assert part[i] in Elements(part) && part[j] in Elements(part);
      var a :| 0 <= a < |nodes| && nodes[a] == part[i];
      var b :| 0 <= b < |nodes| && nodes[b] == part[j];
      assert Indices(nodes)[a] == part[i].index && Indices(nodes)[b] == part[j].index;
    }
  }

  /** A quorum is `threshold` distinct available nodes in index order. */
  lemma {:induction false} QuorumContract(available: seq<Node>, draws: seq<nat>)
    requires Distinct(Indices(available)) && ValidDraws(draws, |available|)
    ensures var chosen := Quorum(available, draws);
            |chosen| == |draws| && Ascending(Indices(chosen)) && forall n | n in chosen :: n in available
  {
    var sample := Sample(available, draws);
    DistinctIndicesDistinctNodes(available);
    SampleIsArrangement(available, draws);
    SubsetIndices(sample, available);
    SortAscends(sample);
    var chosen := Quorum(available, draws);
    forall n | n in chosen
      ensures n in available
    {
      assert n in Elements(chosen);
    }
  }

  /** Every ascending choice of available nodes is the quorum of some draws, so whatever
      sampler a port uses, its quorum is one of those considered here. */
  lemma {:induction false} EveryQuorumCanBeDrawn(available: seq<Node>, chosen: seq<Node>) returns (draws: seq<nat>)
    requires Distinct(Indices(available))
    requires Ascending(Indices(chosen)) && forall n | n in chosen :: n in available
    ensures ValidDraws(draws, |available|) && Quorum(available, draws) == chosen
  {
    DistinctIndicesDistinctNodes(available);
    assert Distinct(Indices(chosen));
    DistinctIndicesDistinctNodes(chosen);
    draws := DrawsFor(chosen, available);
    SortAscends(chosen);
    AscendingIsUnique(SortByIndex(chosen), chosen);
  }

  // ---------- points handed to the core ----------

  datatype PartialInput = PartialInput(point: nat, partial: Bytes, proof: Bytes, commitment: Bytes)

  datatype CoreError = InvalidSubset | Hex | Lagrange | Crypto(detail: string)

  function Points(partials: seq<PartialInput>): (r: seq<nat>)
    ensures |r| == |partials|
  {
    seq(|partials|, i requires 0 <= i < |partials| => partials[i].point)
  }

  ghost predicate UsablePoints(points: seq<nat>) {
    points != [] && 0 !in points && Distinct(points)
  }

  /** Accepts exactly the non-empty lists of distinct non-zero points. */
  method SubsetPoints(partials: seq<PartialInput>) returns (r: Result<seq<nat>, CoreError>)
    ensures r == if UsablePoints(Points(partials)) then Ok(Points(partials)) else Err(InvalidSubset)
  {
    if partials == [] {
      return Err(InvalidSubset);
    }
    var points := Points(partials);
    if 0 in points {
      return Err(InvalidSubset);
    }
    var seen := {};
    for i := 0 to |points|
      invariant forall x :: x in seen <==> x in points[..i]
      invariant Distinct(points[..i])
    {
      if points[i] in seen {
        return Err(InvalidSubset);
      }
      seen := seen + {points[i]};
      assert points[..i + 1] == points[..i] + [points[i]];
    }
    assert points[..|points|] == points;
    r := Ok(points);
  }
}
