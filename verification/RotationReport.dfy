/** Which epoch the four ports report as the rotation once too few good nodes remain.
    Each scans a vote table; they differ in scan order and in how they break ties. */
module RotationReport {
  import opened Wrappers
  import opened Sampling

  type Votes = map<nat, nat>

  /** No epoch has more votes. */
  ghost predicate Dominant(votes: Votes, e: nat) {
    e in votes && forall f | f in votes :: votes[f] <= votes[e]
  }

  ghost predicate LargestDominant(votes: Votes, e: nat) {
    Dominant(votes, e) && forall f: nat | Dominant(votes, f) :: f <= e
  }

  ghost predicate SmallestDominant(votes: Votes, e: nat) {
    Dominant(votes, e) && forall f: nat | Dominant(votes, f) :: e <= f
  }

  ghost predicate FirstDominant(votes: Votes, order: seq<nat>, e: nat) {
    && Dominant(votes, e)
    && exists i :: 0 <= i < |order| && order[i] == e && (forall j | 0 <= j < i :: !Dominant(votes, order[j]))
  }

  /** An order in which a scan of the table may meet its keys. */
  ghost predicate ScanOrder(votes: Votes, order: seq<nat>) {
    Distinct(order) && forall e :: e in order <==> e in votes
  }

  function Least(keys: set<nat>): (least: nat)
    requires keys != {}
    ensures least in keys && forall k | k in keys :: least <= k
  {
    SomeLeast(keys);
    var least :| least in keys && forall k | k in keys :: least <= k;
    least
  }

  /** Keys in ascending order, as an ordered map is scanned. */
  function AscendingKeys(keys: set<nat>): (order: seq<nat>)
    ensures forall e :: e in order <==> e in keys
    ensures forall i, j | 0 <= i < j < |order| :: order[i] < order[j]
  {
    if keys == {} then [] else [Least(keys)] + AscendingKeys(keys - {Least(keys)})
  }

  lemma {:induction false} SomeLeast(keys: set<nat>)
    requires keys != {}
    ensures exists least :: least in keys && forall j | j in keys :: least <= j
  {
    var k :| k in keys;
    LeastExists(keys, k);
  }

  lemma {:induction false} LeastExists(keys: set<nat>, k: nat)
    requires k in keys
    ensures exists least :: least in keys && forall j | j in keys :: least <= j
    decreases k
  {
    if j :| j in keys && j < k {
      LeastExists(keys, j);
    }
  }

  /** Rust: the last maximum of an ascending scan. */
  method RustReport(votes: Votes) returns (served: Option<nat>)
    ensures served.None? <==> votes == map[]
    ensures served.Some? ==> LargestDominant(votes, served.value)
  {
    var order := AscendingKeys(votes.Keys);
    served := None;
    for i := 0 to |order|
      invariant served.None? <==> i == 0
      invariant served.Some? ==> served.value in votes && (forall k | i <= k < |order| :: served.value < order[k])
      invariant served.Some? ==> forall k | 0 <= k < i ::
          votes[order[k]] < votes[served.value] || (votes[order[k]] == votes[served.value] && order[k] <= served.value)
    {
      if served.None? || votes[order[i]] >= votes[served.value] {
        served := Some(order[i]);
      }
    }
    assert forall e | e in votes :: e in order;
    assert order == [] ==> votes.Keys == {};
  }

  /** Go: starts from epoch 0 with no votes and scans in any order. */
  method GoReport(votes: Votes, order: seq<nat>) returns (served: Option<nat>)
    requires ScanOrder(votes, order)
    requires forall e | e in votes :: votes[e] > 0
    ensures served.None? <==> votes == map[]
    ensures served.Some? ==> SmallestDominant(votes, served.value)
  {
    var bestEpoch, bestVotes := 0, 0;
    for i := 0 to |order|
      invariant bestVotes == 0 <==> i == 0
      invariant bestVotes > 0 ==> bestEpoch in votes && votes[bestEpoch] == bestVotes
      invariant forall k | 0 <= k < i :: votes[order[k]] < bestVotes
                  || (votes[order[k]] == bestVotes && bestEpoch <= order[k])
    {
      var epoch := order[i];
      if votes[epoch] > bestVotes || (votes[epoch] == bestVotes && epoch < bestEpoch) {
        bestEpoch, bestVotes := epoch, votes[epoch];
      }
    }
    assert forall e | e in votes :: e in order;
    assert order == [] ==> votes.Keys == {};
    served := if bestVotes > 0 then Some(bestEpoch) else None;
  }

  /** Python: the maximum by the pair (votes, minus epoch). */
  method PythonReport(votes: Votes, order: seq<nat>) returns (served: Option<nat>)
    requires ScanOrder(votes, order)
    ensures served.None? <==> votes == map[]
    ensures served.Some? ==> SmallestDominant(votes, served.value)
  {
    served := None;
    for i := 0 to |order|
      invariant served.None? <==> i == 0
      invariant served.Some? ==> served.value in votes
      invariant served.Some? ==> forall k | 0 <= k < i ::
          votes[order[k]] < votes[served.value]
            || (votes[order[k]] == votes[served.value] && -(order[k] as int) <= -(served.value as int))
    {
      var e := order[i];
      if served.None? || votes[e] > votes[served.value]
        || (votes[e] == votes[served.value] && -(e as int) > -(served.value as int)) {
        served := Some(e);
      }
    }
    assert forall e | e in votes :: e in order;
    assert order == [] ==> votes.Keys == {};
  }

  /** TypeScript: the first maximum in the order the epochs were first voted for. */
  method TypeScriptReport(votes: Votes, order: seq<nat>) returns (served: Option<nat>)
    requires ScanOrder(votes, order)
    ensures served.None? <==> votes == map[]
    ensures served.Some? ==> FirstDominant(votes, order, served.value)
  {
    served := None;
    ghost var at := 0;
    for i := 0 to |order|
      invariant served.None? <==> i == 0
      invariant served.Some? ==> 0 <= at < i && order[at] == served.value
      invariant served.Some? ==> forall k | 0 <= k < i :: votes[order[k]] <= votes[served.value]
      invariant served.Some? ==> forall k | 0 <= k < at :: votes[order[k]] < votes[served.value]
    {
      if served.None? || votes[order[i]] > votes[served.value] {
        served, at := Some(order[i]), i;
      }
    }
    assert forall e | e in votes :: e in order;
    assert order == [] ==> votes.Keys == {};
  }

  /** Go's report does not depend on the map's scan order and is Python's; all four ports
      report equally many votes; and they name one epoch exactly when no two epochs tie
      for the most votes. */
  lemma {:induction false} PortsAgreeWithoutTies(
    votes: Votes, order: seq<nat>, rust: nat, go: nat, python: nat, typescript: nat)
    requires ScanOrder(votes, order)
    requires LargestDominant(votes, rust) && SmallestDominant(votes, go) && SmallestDominant(votes, python)
    requires FirstDominant(votes, order, typescript)
    ensures go == python && go <= typescript <= rust
    ensures votes[rust] == votes[go] == votes[typescript]
    ensures rust == go <==> forall e, f | Dominant(votes, e) && Dominant(votes, f) :: e == f
  {
    assert Dominant(votes, rust) && Dominant(votes, go) && Dominant(votes, typescript) && Dominant(votes, python);
  }

  /** The Rust report as a function of the table. */
  ghost function Reported(votes: Votes): (served: Option<nat>)
    ensures served.None? <==> votes == map[]
    ensures served.Some? ==> LargestDominant(votes, served.value)
  {
    if votes == map[] then None
    else
      LargestDominantExists(votes);
      var e :| LargestDominant(votes, e);
      Some(e)
  }

  lemma {:induction false} LargestDominantExists(votes: Votes)
    requires votes != map[]
    ensures exists e :: LargestDominant(votes, e)
    decreases |votes|
  {
    var k :| k in votes;
    var rest := map e | e in votes && e != k :: votes[e];
    if rest == map[] {
      assert forall e | e in votes && e != k :: e in rest;
      assert LargestDominant(votes, k);
    } else {
      assert rest.Keys == votes.Keys - {k};
      LargestDominantExists(rest);
      var m :| LargestDominant(rest, m);
      assert forall e | e in votes && e != k :: e in rest && votes[e] <= votes[m];
      if votes[k] > votes[m] || (votes[k] == votes[m] && k > m) {
        forall f | Dominant(votes, f)
          ensures f <= k
        {
          assert f != k ==> Dominant(rest, f);
        }
        assert LargestDominant(votes, k);
      } else {
        forall f | Dominant(votes, f)
          ensures f <= m
        {
          assert f != k ==> Dominant(rest, f);
        }
        assert LargestDominant(votes, m);
      }
    }
  }

  /** Three epochs with a vote each, met in the order 8, 7, 9: three different reports. */
  lemma {:induction false} TiedVotesExample()
    ensures var votes: Votes := map[7 := 1, 8 := 1, 9 := 1];
            && ScanOrder(votes, [8, 7, 9])
            && LargestDominant(votes, 9) && SmallestDominant(votes, 7) && FirstDominant(votes, [8, 7, 9], 8)
  {
    var votes: Votes := map[7 := 1, 8 := 1, 9 := 1];
    assert forall e: nat | Dominant(votes, e) :: 7 <= e <= 9;
    assert [8, 7, 9][0] == 8 && Dominant(votes, 8);
  }
}
