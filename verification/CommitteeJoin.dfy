/** Joining an epoch's seats with the registry's endpoints and the members' share commitments:
    Rust scans lists for the first match, Go fills maps. `parse` accepts a registry entry as an
    endpoint or not; `shareOf` is the chain's answer for a member's commitment. */
module CommitteeJoin {
  import opened Wrappers
  import opened Sampling
  import opened SamplingCounts
  import opened Committee
  import opened Decrypt

  datatype Account = Account(bytes: Bytes)

  datatype Seat = Seat(account: Account, index: nat)

  type Parse = Bytes -> Option<string>

  datatype JoinError =
    | NoCommittee
    | MissingCommitment(index: nat)
    | TooFewReachable(reachable: nat, threshold: nat)

  // ---------- what the join is ----------

  /** All that is known of one seat. */
  datatype Row = Row(index: nat, endpoint: Option<string>, commitment: Option<Bytes>) {
    predicate Reachable() { endpoint.Some? }

    predicate Complete() { Reachable() ==> commitment.Some? }

    function AsNode(): Node
      requires Reachable() && Complete()
    {
      Node(index, endpoint.value, commitment.value)
    }
  }

  function RowIndices(rows: seq<Row>): (r: seq<nat>)
    ensures |r| == |rows|
  {
    seq(|rows|, i requires 0 <= i < |rows| => rows[i].index)
  }

  /** The reachable rows as nodes, in order, or the first of them without a commitment. */
  function Assembled(rows: seq<Row>): Result<seq<Node>, JoinError> {
    if rows == [] then Ok([])
    else
      var last := rows[|rows| - 1];
      match Assembled(rows[..|rows| - 1])
      case Err(e) => Err(e)
      case Ok(nodes) =>
        if !last.Reachable() then Ok(nodes)
        else if last.commitment.None? then Err(MissingCommitment(last.index))
        else Ok(nodes + [last.AsNode()])
  }

  function Join(rows: seq<Row>, threshold: nat): Result<seq<Node>, JoinError> {
    if rows == [] then Err(NoCommittee)
    else match Assembled(rows)
      case Err(e) => Err(e)
      case Ok(nodes) =>
        if |nodes| < threshold then Err(TooFewReachable(|nodes|, threshold)) else Ok(SortByIndex(nodes))
  }

  // ---------- lists ----------

  function FirstMatch(table: seq<(Account, Bytes)>, id: Account): Option<Bytes> {
    if table == [] then None
    else if table[0].0 == id then Some(table[0].1)
    else FirstMatch(table[1..], id)
  }

  function Endpoint(parse: Parse, raw: Option<Bytes>): Option<string> {
    if raw.Some? then parse(raw.value) else None
  }

  function ListRow(parse: Parse, registry: seq<(Account, Bytes)>, commitments: seq<(Account, Bytes)>, seat: Seat): Row {
    Row(seat.index, Endpoint(parse, FirstMatch(registry, seat.account)), FirstMatch(commitments, seat.account))
  }

  function ListRows(
    parse: Parse, registry: seq<(Account, Bytes)>, commitments: seq<(Account, Bytes)>, seats: seq<Seat>)
    : (rows: seq<Row>)
    ensures |rows| == |seats|
  {
    seq(|seats|, i requires 0 <= i < |seats| => ListRow(parse, registry, commitments, seats[i]))
  }

  /** The rows of the seats, with the chain's own commitments. */
  function ChainRows(
    parse: Parse, registry: seq<(Account, Bytes)>, shareOf: Account -> Option<Bytes>, seats: seq<Seat>)
    : (rows: seq<Row>)
    ensures |rows| == |seats|
  {
    seq(|seats|, i requires 0 <= i < |seats| =>
      Row(seats[i].index, Endpoint(parse, FirstMatch(registry, seats[i].account)), shareOf(seats[i].account)))
  }

  method Lookup(table: seq<(Account, Bytes)>, id: Account) returns (r: Option<Bytes>)
    ensures r == FirstMatch(table, id)
  {
    for i := 0 to |table|
      invariant FirstMatch(table, id) == FirstMatch(table[i..], id)
    {
      if table[i].0 == id {
        return Some(table[i].1);
      }
    }
    r := None;
  }

  method AssembleNodes(
    parse: Parse, seats: seq<Seat>, registry: seq<(Account, Bytes)>, commitments: seq<(Account, Bytes)>)
    returns (r: Result<seq<Node>, JoinError>)
    ensures match Assembled(ListRows(parse, registry, commitments, seats))
            case Err(e) => r == Err(e)
            case Ok(nodes) => r == Ok(SortByIndex(nodes))
  {
    ghost var rows := ListRows(parse, registry, commitments, seats);
    var nodes := [];
    for i := 0 to |seats|
      invariant Assembled(rows[..i]) == Ok(nodes)
    {
      assert rows[..i + 1][..i] == rows[..i];
      var raw := Lookup(registry, seats[i].account);
      var endpoint := Endpoint(parse, raw);
      if endpoint.Some? {
        var commitment := Lookup(commitments, seats[i].account);
        if commitment.None? {
          ErrorStays(rows, i + 1);
          return Err(MissingCommitment(seats[i].index));
        }
        nodes := nodes + [Node(seats[i].index, endpoint.value, commitment.value)];
      }
    }
    assert rows[..|seats|] == rows;
    r := Ok(SortByIndex(nodes));
  }

  method CommitteeInfo(
    parse: Parse, seats: seq<Seat>, registry: seq<(Account, Bytes)>, shareOf: Account -> Option<Bytes>, threshold: nat)
    returns (r: Result<seq<Node>, JoinError>)
    ensures r == Join(ChainRows(parse, registry, shareOf, seats), threshold)
  {
    if |seats| == 0 {
      return Err(NoCommittee);
    }
    var commitments := [];
    for i := 0 to |seats|
      invariant forall id :: FirstMatch(commitments, id) ==
                             if exists k | 0 <= k < i :: seats[k].account == id then shareOf(id) else None
    {
      var share := shareOf(seats[i].account);
      if share.Some? {
        MatchAfterPush(commitments, seats[i].account, share.value);
        commitments := commitments + [(seats[i].account, share.value)];
      }
    }
    assert ListRows(parse, registry, commitments, seats) == ChainRows(parse, registry, shareOf, seats);
    var assembled := AssembleNodes(parse, seats, registry, commitments);
    if assembled.Err? {
      return Err(assembled.error);
    }
    var nodes := assembled.value;
    if |nodes| < threshold {
      return Err(TooFewReachable(|nodes|, threshold));
    }
    r := Ok(nodes);
  }

  lemma {:induction false} MatchAfterPush(table: seq<(Account, Bytes)>, key: Account, value: Bytes)
    ensures forall id :: FirstMatch(table + [(key, value)], id) ==
                         if FirstMatch(table, id).Some? then FirstMatch(table, id)
                         else if id == key then Some(value) else None
  {
    if table != [] {
      MatchAfterPush(table[1..], key, value);
      assert (table + [(key, value)])[1..] == table[1..] + [(key, value)];
    } else {
      assert ([(key, value)])[1..] == [];
    }
  }

  /** The first incomplete row decides. */
  lemma {:induction false} ErrorStays(rows: seq<Row>, n: nat)
    requires n <= |rows| && Assembled(rows[..n]).Err?
    ensures Assembled(rows) == Assembled(rows[..n])
    decreases |rows|
  {
    if n == |rows| {
      assert rows[..n] == rows;
    } else {
      assert rows[..|rows| - 1][..n] == rows[..n];
      ErrorStays(rows[..|rows| - 1], n);
    }
  }

  // ---------- maps ----------

  /** A later entry for the same account replaces an earlier one. */
  function AsMap(table: seq<(Account, Bytes)>): map<Account, Bytes> {
    if table == [] then map[] else AsMap(table[..|table| - 1])[table[|table| - 1].0 := table[|table| - 1].1]
  }

  function MapRow(parse: Parse, endpoints: map<Account, Bytes>, commitments: map<Account, Bytes>, seat: Seat): Row {
    Row(seat.index,
        parse(if seat.account in endpoints then endpoints[seat.account] else []),
        if seat.account in commitments then Some(commitments[seat.account]) else None)
  }

  function MapRows(
    parse: Parse, endpoints: map<Account, Bytes>, commitments: map<Account, Bytes>, seats: seq<Seat>): (rows: seq<Row>)
    ensures |rows| == |seats|
  {
    seq(|seats|, i requires 0 <= i < |seats| => MapRow(parse, endpoints, commitments, seats[i]))
  }

  method AssembleCommittee(
    parse: Parse, seats: seq<Seat>, endpoints: map<Account, Bytes>, commitments: map<Account, Bytes>, threshold: nat)
    returns (r: Result<seq<Node>, JoinError>)
    ensures r == Join(MapRows(parse, endpoints, commitments, seats), threshold)
  {
    if |seats| == 0 {
      return Err(NoCommittee);
    }
    ghost var rows := MapRows(parse, endpoints, commitments, seats);
    var nodes := [];
    for i := 0 to |seats|
      invariant Assembled(rows[..i]) == Ok(nodes)
    {
      assert rows[..i + 1][..i] == rows[..i];
      var id := seats[i].account;
      var endpoint := parse(if id in endpoints then endpoints[id] else []);
      if endpoint.Some? {
        if id !in commitments {
          ErrorStays(rows, i + 1);
          return Err(MissingCommitment(seats[i].index));
        }
        nodes := nodes + [Node(seats[i].index, endpoint.value, commitments[id])];
      }
    }
    assert rows[..|seats|] == rows;
    if |nodes| < threshold {
      return Err(TooFewReachable(|nodes|, threshold));
    }
    r := Ok(SortByIndex(nodes));
  }

  /** An account no row of the registry names reads as an empty endpoint. */
  function GoRows(
    parse: Parse, registry: seq<(Account, Bytes)>, shareOf: Account -> Option<Bytes>, seats: seq<Seat>)
    : (rows: seq<Row>)
    ensures |rows| == |seats|
  {
    seq(|seats|, i requires 0 <= i < |seats| =>
      Row(seats[i].index,
          parse(if seats[i].account in AsMap(registry) then AsMap(registry)[seats[i].account] else []),
          shareOf(seats[i].account)))
  }

  method CommitteeAt(
    parse: Parse, seats: seq<Seat>, registry: seq<(Account, Bytes)>, shareOf: Account -> Option<Bytes>, threshold: nat)
    returns (r: Result<seq<Node>, JoinError>)
    ensures r == Join(GoRows(parse, registry, shareOf, seats), threshold)
  {
    var endpoints: map<Account, Bytes> := map[];
    for i := 0 to |registry|
      invariant endpoints == AsMap(registry[..i])
    {
      assert registry[..i + 1][..i] == registry[..i];
      endpoints := endpoints[registry[i].0 := registry[i].1];
    }
    assert registry[..|registry|] == registry;
    var commitments: map<Account, Bytes> := map[];
    for i := 0 to |seats|
      invariant forall id :: id in commitments <==> shareOf(id).Some? && exists k | 0 <= k < i :: seats[k].account == id
      invariant forall id | id in commitments :: shareOf(id) == Some(commitments[id])
    {
      var share := shareOf(seats[i].account);
      if share.Some? {
        commitments := commitments[seats[i].account := share.value];
      }
    }
    assert MapRows(parse, endpoints, commitments, seats) == GoRows(parse, registry, shareOf, seats);
    r := AssembleCommittee(parse, seats, endpoints, commitments, threshold);
  }

  // ---------- what both return ----------

  function ReachableRows(rows: seq<Row>): seq<Row> {
    if rows == [] then []
    else ReachableRows(rows[..|rows| - 1]) + if rows[|rows| - 1].Reachable() then [rows[|rows| - 1]] else []
  }

  /** The nodes of the reachable members, each with its own endpoint and commitment. */
  ghost function NodesOf(rows: seq<Row>): set<Node>
    requires forall r | r in rows :: r.Complete()
  {
    set r | r in rows && r.Reachable() :: r.AsNode()
  }

  /** `rows[k]` is the first reachable row without a commitment. */
  ghost predicate FirstIncomplete(rows: seq<Row>, k: nat) {
    k < |rows| && !rows[k].Complete() && forall j | 0 <= j < k :: rows[j].Complete()
  }

  lemma {:induction false} AssembledMeaning(rows: seq<Row>)
    ensures Assembled(rows).Ok? <==> forall r | r in rows :: r.Complete()
    ensures match Assembled(rows)
            case Ok(nodes) => Elements(nodes) == NodesOf(rows) && |nodes| == |ReachableRows(rows)|
            case Err(e) => exists k: nat :: FirstIncomplete(rows, k) && e == MissingCommitment(rows[k].index)
  {
    if rows != [] {
      var n := |rows| - 1;
      var init, last := rows[..n], rows[n];
      assert rows == init + [last];
      AssembledMeaning(init);
      match Assembled(init)
      case Err(e) =>
        var k: nat :| FirstIncomplete(init, k) && e == MissingCommitment(init[k].index);
        assert FirstIncomplete(rows, k) && init[k] == rows[k];
        assert !rows[k].Complete() && rows[k] in rows;
      case Ok(nodes) =>
        if last.Reachable() && last.commitment.None? {
          assert FirstIncomplete(rows, n);
        } else {
          assert NodesOf(rows) == NodesOf(init) + if last.Reachable() then {last.AsNode()} else {};
          if last.Reachable() {
            assert Elements(nodes + [last.AsNode()]) == Elements(nodes) + {last.AsNode()};
          }
        }
    }
  }

  lemma {:induction false} AssembledIndices(rows: seq<Row>)
    requires Distinct(RowIndices(rows)) && Assembled(rows).Ok?
    ensures Distinct(Indices(Assembled(rows).value))
  {
    if rows != [] {
      var n := |rows| - 1;
      var init, last := rows[..n], rows[n];
      assert RowIndices(init) == RowIndices(rows)[..n];
      AssembledIndices(init);
      AssembledMeaning(init);
      var nodes := Assembled(init).value;
      if last.Reachable() {
        forall k | 0 <= k < |nodes|
          ensures nodes[k].index != last.index
        {
          assert nodes[k] in Elements(nodes);
          var r :| r in init && r.Reachable() && r.AsNode() == nodes[k];
          var m :| 0 <= m < n && init[m] == r;
          assert RowIndices(rows)[m] != RowIndices(rows)[n];
        }
        assert Indices(nodes + [last.AsNode()]) == Indices(nodes) + [last.index];
      }
    }
  }

  lemma {:induction false} NodesAreRows(rows: seq<Row>, node: Node)
    requires forall r | r in rows :: r.Complete()
    ensures node in NodesOf(rows) <==> Row(node.index, Some(node.endpoint), Some(node.shareCommitment)) in rows
  {
    var row := Row(node.index, Some(node.endpoint), Some(node.shareCommitment));
    assert row.Reachable() && row.AsNode() == node;
    if node in NodesOf(rows) {
      var r :| r in rows && r.Reachable() && r.AsNode() == node;
      assert r == row;
    }
  }

  ghost function Reached(rows: seq<Row>): set<Row> {
    set r | r in rows && r.endpoint.Some?
  }

  lemma {:induction false} OneMoreReached(init: seq<Row>, last: Row)
    requires Distinct(RowIndices(init + [last]))
    ensures last !in Reached(init) && Distinct(RowIndices(init))
    ensures last.endpoint.Some? ==> Reached(init + [last]) == Reached(init) + {last}
    ensures last.endpoint.None? ==> Reached(init + [last]) == Reached(init)
  {
    var indices := RowIndices(init + [last]);
    assert RowIndices(init) == indices[..|init|];
    forall m | 0 <= m < |init|
      ensures init[m] != last
    {
      assert indices[m] != indices[|init|];
    }
  }

  lemma {:induction false} ReachedCount(rows: seq<Row>)
    requires Distinct(RowIndices(rows))
    ensures |ReachableRows(rows)| == |Reached(rows)|
  {
    if rows == [] {
      assert Reached(rows) == {};
    } else {
      var init, last := rows[..|rows| - 1], rows[|rows| - 1];
      assert rows == init + [last];
      OneMoreReached(init, last);
      ReachedCount(init);
    }
  }

  /** What the join of the rows returns. */
  ghost predicate Joined(rows: seq<Row>, threshold: nat, r: Result<seq<Node>, JoinError>) {
    match r
    case Ok(nodes) =>
      && rows != [] && (forall row | row in rows && row.endpoint.Some? :: row.commitment.Some?)
      && |nodes| == |Reached(rows)| >= threshold && Ascending(Indices(nodes))
      && forall n :: n in nodes <==> Row(n.index, Some(n.endpoint), Some(n.shareCommitment)) in rows
    case Err(NoCommittee) => rows == []
    case Err(MissingCommitment(index)) =>
      exists k | 0 <= k < |rows| ::
        && rows[k].index == index && rows[k].endpoint.Some? && rows[k].commitment.None?
        && forall j | 0 <= j < k && rows[j].endpoint.Some? :: rows[j].commitment.Some?
    case Err(TooFewReachable(n, t)) =>
      && rows != [] && (forall row | row in rows && row.endpoint.Some? :: row.commitment.Some?)
      && n == |Reached(rows)| && t == threshold && n < t
  }

  /** The join succeeds exactly when the epoch has seats, every reachable member has a
      commitment and enough of them are reachable; it then returns exactly the reachable
      members, each with its own commitment, in strictly ascending order of index and enough
      for a quorum. Each failure names its cause, in this order of precedence. */
  lemma {:induction false} JoinMeaning(rows: seq<Row>, threshold: nat)
    requires Distinct(RowIndices(rows))
    ensures Joined(rows, threshold, Join(rows, threshold))
  {
    AssembledMeaning(rows);
    ReachedCount(rows);
    match Assembled(rows)
    case Ok(assembled) =>
      AssembledIndices(rows);
      SortAscends(assembled);
      forall n
        ensures n in SortByIndex(assembled) <==> Row(n.index, Some(n.endpoint), Some(n.shareCommitment)) in rows
      {
        NodesAreRows(rows, n);
        assert n in Elements(assembled) <==> n in Elements(SortByIndex(assembled));
      }
    case Err(e) =>
      var k: nat :| FirstIncomplete(rows, k) && e == MissingCommitment(rows[k].index);
      assert rows[k].endpoint.Some? && rows[k].commitment.None?;
  }

  lemma {:induction false} SameNodesSortAlike(here: seq<Node>, there: seq<Node>)
    requires Distinct(Indices(here)) && Distinct(Indices(there)) && Elements(here) == Elements(there)
    ensures |here| == |there| && SortByIndex(here) == SortByIndex(there)
  {
    DistinctIndicesDistinctNodes(here);
    DistinctIndicesDistinctNodes(there);
    DistinctSize(here);
    DistinctSize(there);
    SortAscends(here);
    SortAscends(there);
    AscendingIsUnique(SortByIndex(here), SortByIndex(there));
  }

  /** The order in which the chain lists the seats does not matter. */
  lemma {:induction false} JoinIgnoresSeatOrder(a: seq<Row>, b: seq<Row>, threshold: nat)
    requires Distinct(RowIndices(a)) && Distinct(RowIndices(b)) && (forall r :: r in a <==> r in b)
    requires Join(a, threshold).Ok?
    ensures Join(a, threshold) == Join(b, threshold)
  {
    AssembledMeaning(a);
    AssembledMeaning(b);
    AssembledIndices(a);
    AssembledIndices(b);
    assert NodesOf(a) == NodesOf(b);
    SameNodesSortAlike(Assembled(a).value, Assembled(b).value);
    assert b != [] by { assert a[0] in b; }
  }

  /** A joined committee is one the quorum protocol accepts. */
  lemma {:induction false} JoinFeedsDecrypt(rows: seq<Row>, req: DecryptRequest)
    requires Distinct(RowIndices(rows)) && 0 !in RowIndices(rows) && req.threshold > 0
    requires Join(rows, req.threshold) == Ok(req.nodes)
    ensures WellFormed(req) && |req.nodes| >= req.threshold
  {
    JoinMeaning(rows, req.threshold);
    forall k | 0 <= k < |req.nodes|
      ensures Indices(req.nodes)[k] != 0
    {
      var n := req.nodes[k];
      assert n in req.nodes;
      var m :| 0 <= m < |rows| && rows[m] == Row(n.index, Some(n.endpoint), Some(n.shareCommitment));
      assert RowIndices(rows)[m] == Indices(req.nodes)[k];
    }
  }

  // ---------- what is looked up ----------

  /** The first row of the table for the account. */
  ghost predicate IsFirst(table: seq<(Account, Bytes)>, id: Account, k: nat) {
    k < |table| && table[k].0 == id && forall j | 0 <= j < k :: table[j].0 != id
  }

  ghost predicate IsLast(table: seq<(Account, Bytes)>, id: Account, k: nat) {
    k < |table| && table[k].0 == id && forall j | k < j < |table| :: table[j].0 != id
  }

  ghost predicate IsListed(table: seq<(Account, Bytes)>, id: Account) {
    exists k | 0 <= k < |table| :: table[k].0 == id
  }

  lemma {:induction false} FirstMatchMeaning(table: seq<(Account, Bytes)>, id: Account)
    ensures FirstMatch(table, id).Some? <==> IsListed(table, id)
    ensures forall k: nat | IsFirst(table, id, k) :: FirstMatch(table, id) == Some(table[k].1)
  {
    if table != [] {
      var rest := table[1..];
      assert forall k | 1 <= k < |table| :: table[k] == rest[k - 1];
      FirstMatchMeaning(rest, id);
      forall k: nat | IsFirst(table, id, k)
        ensures FirstMatch(table, id) == Some(table[k].1)
      {
        if k > 0 {
          assert table[0].0 != id && IsFirst(rest, id, k - 1);
        }
      }
    }
  }

  lemma {:induction false} AsMapMeaning(table: seq<(Account, Bytes)>, id: Account)
    ensures id in AsMap(table) <==> IsListed(table, id)
    ensures forall k: nat | IsLast(table, id, k) :: id in AsMap(table) && AsMap(table)[id] == table[k].1
  {
    if table != [] {
      var n := |table| - 1;
      var init := table[..n];
      assert table == init + [table[n]];
      AsMapMeaning(init, id);
      forall k: nat | IsLast(table, id, k)
        ensures id in AsMap(table) && AsMap(table)[id] == table[k].1
      {
        if k < n {
          assert table[n].0 != id && IsLast(init, id, k);
        }
      }
    }
  }

  /** Rust's rows: the seat's own index and commitment, and the endpoint in the first row of
      the registry for the seat's account, if there is one and it parses. */
  lemma {:induction false} ChainRowsMeaning(
    parse: Parse, registry: seq<(Account, Bytes)>, shareOf: Account -> Option<Bytes>, seats: seq<Seat>, i: nat)
    requires i < |seats|
    ensures var row, id := ChainRows(parse, registry, shareOf, seats)[i], seats[i].account;
            && row.index == seats[i].index && row.commitment == shareOf(id)
            && (!IsListed(registry, id) ==> row.endpoint.None?)
            && forall k: nat | IsFirst(registry, id, k) :: row.endpoint == parse(registry[k].1)
  {
    FirstMatchMeaning(registry, seats[i].account);
  }

  /** Go's rows: the last row of the registry for the account decides, and no row reads as an
      empty entry. */
  lemma {:induction false} GoRowsMeaning(
    parse: Parse, registry: seq<(Account, Bytes)>, shareOf: Account -> Option<Bytes>, seats: seq<Seat>, i: nat)
    requires i < |seats|
    ensures var row, id := GoRows(parse, registry, shareOf, seats)[i], seats[i].account;
            && row.index == seats[i].index && row.commitment == shareOf(id)
            && (!IsListed(registry, id) ==> row.endpoint == parse([]))
            && forall k: nat | IsLast(registry, id, k) :: row.endpoint == parse(registry[k].1)
  {
    AsMapMeaning(registry, seats[i].account);
  }

  // ---------- lists and maps agree ----------

  function Accounts(table: seq<(Account, Bytes)>): (r: seq<Account>)
    ensures |r| == |table|
  {
    seq(|table|, i requires 0 <= i < |table| => table[i].0)
  }

  lemma {:induction false} FirstIsOnly(table: seq<(Account, Bytes)>, id: Account)
    requires Distinct(Accounts(table))
    ensures FirstMatch(table, id) == if id in AsMap(table) then Some(AsMap(table)[id]) else None
  {
    if table != [] {
      var n := |table| - 1;
      var init, last := table[..n], table[n];
      assert table == init + [last] && Accounts(init) == Accounts(table)[..n];
      FirstIsOnly(init, id);
      MatchAfterPush(init, last.0, last.1);
      MapHolds(init, id);
      forall k | 0 <= k < n
        ensures init[k].0 != last.0
      {
        assert Accounts(table)[k] != Accounts(table)[n];
      }
    }
  }

  lemma {:induction false} MapHolds(table: seq<(Account, Bytes)>, id: Account)
    ensures id in AsMap(table) ==> exists k | 0 <= k < |table| :: table[k].0 == id
  {
    if table != [] {
      MapHolds(table[..|table| - 1], id);
    }
  }

  /** With one registry row an account, both joins see the same rows, and so return the same
      nodes or fail alike. */
  lemma {:induction false} JoinsAgree(parse: Parse, registry: seq<(Account, Bytes)>, shareOf: Account -> Option<Bytes>,
                                      seats: seq<Seat>, threshold: nat)
    requires Distinct(Accounts(registry)) && parse([]).None?
    ensures Join(ChainRows(parse, registry, shareOf, seats), threshold) ==
              Join(GoRows(parse, registry, shareOf, seats), threshold)
  {
    var list, go := ChainRows(parse, registry, shareOf, seats), GoRows(parse, registry, shareOf, seats);
    forall i | 0 <= i < |seats|
      ensures list[i] == go[i]
    {
      FirstIsOnly(registry, seats[i].account);
    }
    assert list == go;
  }
}
