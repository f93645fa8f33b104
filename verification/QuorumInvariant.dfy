/** What every round of the quorum loop keeps, from the health probes to the last round. */
module QuorumInvariant {
  import opened Sampling
  import opened Committee
  import opened RotationReport
  import opened Decrypt
  import opened QuorumRounds

  function FaultIndices(faults: seq<Fault>): (r: seq<nat>)
    ensures |r| == |faults|
  {
    seq(|faults|, i requires 0 <= i < |faults| => faults[i].index)
  }

  /** Every probed node is either still available or named by exactly one fault. */
  ghost predicate Partition(nodes: seq<Node>, available: seq<Node>, faults: seq<Fault>) {
    && Distinct(Indices(available)) && Distinct(FaultIndices(faults))
    && Elements(Indices(available)) !! Elements(FaultIndices(faults))
    && Elements(Indices(available)) + Elements(FaultIndices(faults)) == Elements(Indices(nodes))
    && |available| + |faults| == |nodes|
  }

  /** The nodes that served epoch `e` when asked for another. */
  ghost function Voters(req: DecryptRequest, h: History, e: nat): set<nat> {
    set i | 0 <= i < |h| && Divergent(req, h[i].reply) && h[i].reply.epoch == e :: h[i].node.index
  }

  ghost predicate Tallied(req: DecryptRequest, votes: Votes, h: History) {
    (forall e: nat :: Count(votes, e) == |Voters(req, h, e)|)
    && forall e | e in votes :: votes[e] > 0 && e != 0 && e != req.epoch
  }

  /** Exactly the nodes that failed are no longer asked. */
  ghost predicate FailedAreGone(env: Env, req: DecryptRequest, active: seq<Node>, st: State) {
    && (forall n | n in st.available :: n in active)
    && (forall i | 0 <= i < |st.history|
        && !Good(req, st.history[i].reply) :: st.history[i].node.index !in Indices(st.available))
    && (forall n | n in active && n !in st.available ::
          exists i :: 0 <= i < |st.history| && st.history[i].node == n && !Good(req, st.history[i].reply))
  }

  /** A request names an ascending subset of `threshold` active nodes, its recipient among
      them and no node that failed before; it is signed for that subset and recipient. */
  ghost predicate RequestOk(env: Env, req: DecryptRequest, active: seq<Node>, h: History, i: nat)
    requires i < |h|
  {
    var subset := h[i].request.subset;
    && Proper(env, req, h, i)
    && |subset| == req.threshold && Ascending(subset) && h[i].node.index in subset
    && h[i].node in active && (forall x | x in subset :: x in Indices(active))
    && (forall j | 0 <= j < i && !Good(req, h[j].reply) :: h[j].node.index !in subset)
  }

  ghost predicate RequestsOk(env: Env, req: DecryptRequest, active: seq<Node>, h: History) {
    forall i | 0 <= i < |h| :: RequestOk(env, req, active, h, i)
  }

  /** At the head of the loop: each earlier round dropped one node and asked at most a quorum. */
  ghost predicate Counted(env: Env, req: DecryptRequest, active: seq<Node>, st: State) {
    st.rounds + |st.available| == |active| && |st.history| <= st.rounds * req.threshold
    && (st.rounds > 0 ==> |st.available| + 1 >= req.threshold)
  }

  ghost predicate Inv(env: Env, req: DecryptRequest, active: seq<Node>, st: State) {
    && Partition(req.nodes, st.available, st.faults)
    && Tallied(req, st.votes, st.history) && (forall e: nat :: Count(st.votes, e) < req.threshold)
    && FailedAreGone(env, req, active, st)
    && RequestsOk(env, req, active, st.history)
    && Counted(env, req, active, st)
  }

  // ---------- the probes establish it ----------

  lemma {:induction false} ProbesPartition(env: Env, nodes: seq<Node>, replies: seq<HealthReply>)
    requires |replies| == |nodes| && Distinct(Indices(nodes))
    ensures Partition(nodes, Active(env, nodes, replies), ProbeFaults(env, nodes, replies))
    decreases |nodes|
  {
    if nodes != [] {
      var last := |nodes| - 1;
      var before := nodes[..last];
      LastIsNew(Indices(nodes));
      assert Indices(before) == Indices(nodes)[..last];
      assert Indices(nodes) == Indices(before) + [nodes[last].index];
      AppendIndex(Indices(before), nodes[last].index);
      ProbesPartition(env, before, replies[..last]);
      var active, faults := Active(env, before, replies[..last]), ProbeFaults(env, before, replies[..last]);
      assert nodes[last].index !in Elements(Indices(before));
      if Usable(env, replies[last]) {
        AppendIndex(Indices(active), nodes[last].index);
        assert Indices(active + [nodes[last]]) == Indices(active) + [nodes[last].index];
        assert faults + [] == faults;
      } else {
        var fault := ProbeFault(env, nodes[last], replies[last]);
        AppendIndex(FaultIndices(faults), nodes[last].index);
        assert FaultIndices(faults + [fault]) == FaultIndices(faults) + [nodes[last].index];
        assert active + [] == active;
      }
    }
  }

  lemma {:induction false} AppendIndex(s: seq<nat>, x: nat)
    ensures Elements(s + [x]) == Elements(s) + {x}
    ensures Distinct(s) && x !in Elements(s) ==> Distinct(s + [x])
  {
  }

  lemma {:induction false} PrependIndex(x: nat, s: seq<nat>)
    ensures Elements([x] + s) == {x} + Elements(s)
    ensures Distinct([x] + s) <==> Distinct(s) && x !in Elements(s)
  {
    assert ([x] + s)[1..] == s;
    if Distinct([x] + s) {
      forall i, j | 0 <= i < j < |s|
        ensures s[i] != s[j]
      {
        assert ([x] + s)[i + 1] != ([x] + s)[j + 1];
      }
      forall j | 0 <= j < |s|
        ensures s[j] != x
      {
        assert ([x] + s)[0] != ([x] + s)[j + 1];
      }
    }
  }

  lemma {:induction false} LastIsNew(s: seq<nat>)
    requires Distinct(s) && s != []
    ensures Distinct(s[..|s| - 1]) && s[|s| - 1] !in s[..|s| - 1]
  {
  }

  lemma {:induction false} StartInv(env: Env, req: DecryptRequest)
    requires WellFormed(req)
    ensures var st := Start(env, req); Inv(env, req, st.available, st) && Distinct(Indices(st.available))
  {
    ProbesPartition(env, req.nodes, HealthReplies(env, req.nodes));
    forall e: nat
      ensures |Voters(req, [], e)| == 0
    {
      assert Voters(req, [], e) == {};
    }
  }

  // ---------- a round keeps it ----------

  /** The quorum of a round and what became of it. */
  ghost predicate RoundFacts(env: Env, req: DecryptRequest, st: State, chosen: seq<Node>, end: RoundEnd) {
    var begun := st.(rounds := st.rounds + 1);
    && |chosen| == req.threshold && Ascending(Indices(chosen)) && (forall n | n in chosen :: n in st.available)
    && Trail(env, req, chosen, 0, begun, end.st) && Shape(env, req, chosen, 0, [], begun, end)
  }

  lemma {:induction false} ChosenContract(env: Env, req: DecryptRequest, st: State)
    requires DrawsInRange(env) && req.threshold <= |st.available| && Distinct(Indices(st.available))
    ensures var chosen := ChosenQuorum(env, req, st);
            |chosen| == req.threshold && Ascending(Indices(chosen)) && forall n | n in chosen :: n in st.available
  {
    QuorumContract(st.available, env.draws(st.history, |st.available|, req.threshold));
  }

  lemma {:induction false} QueryHasFacts(
    env: Env, req: DecryptRequest, chosen: seq<Node>, begun: State, end: RoundEnd)
    requires end == Query(env, req, chosen, 0, [], begun)
    ensures Trail(env, req, chosen, 0, begun, end.st) && Shape(env, req, chosen, 0, [], begun, end)
  {
    QueryLeavesTrail(env, req, chosen, 0, [], begun);
    QueryHasShape(env, req, chosen, 0, [], begun);
  }

  lemma {:induction false} RoundHasFacts(env: Env, req: DecryptRequest, st: State)
    requires DrawsInRange(env) && req.threshold <= |st.available| && Distinct(Indices(st.available))
    ensures RoundFacts(env, req, st, ChosenQuorum(env, req, st), Round(env, req, st))
  {
    ChosenContract(env, req, st);
    QueryHasFacts(env, req, ChosenQuorum(env, req, st), st.(rounds := st.rounds + 1), Round(env, req, st));
  }

  lemma {:induction false} WithoutOne(nodes: seq<Node>, bad: nat)
    requires Distinct(Indices(nodes)) && bad in Indices(nodes)
    ensures |Without(nodes, bad)| == |nodes| - 1
    ensures Distinct(Indices(Without(nodes, bad)))
    ensures Elements(Indices(Without(nodes, bad))) == Elements(Indices(nodes)) - {bad}
    decreases |nodes|
  {
    var rest := nodes[1..];
    assert Indices(nodes) == [nodes[0].index] + Indices(rest);
    PrependIndex(nodes[0].index, Indices(rest));
    if nodes[0].index == bad {
      WithoutNone(rest, bad);
      assert Without(nodes, bad) == rest;
    } else {
      WithoutOne(rest, bad);
      KeepFirst(nodes[0], Without(rest, bad), rest, bad);
    }
  }

  lemma {:induction false} KeepFirst(first: Node, kept: seq<Node>, rest: seq<Node>, bad: nat)
    requires Distinct(Indices(kept)) && Elements(Indices(kept)) == Elements(Indices(rest)) - {bad}
    requires first.index != bad && first.index !in Elements(Indices(rest))
    ensures Distinct(Indices([first] + kept))
    ensures Elements(Indices([first] + kept)) == {first.index} + Elements(Indices(rest)) - {bad}
  {
    assert Indices([first] + kept) == [first.index] + Indices(kept);
    PrependIndex(first.index, Indices(kept));
  }

  lemma {:induction false} WithoutNone(nodes: seq<Node>, bad: nat)
    requires bad !in Indices(nodes)
    ensures Without(nodes, bad) == nodes
    decreases |nodes|
  {
    if nodes != [] {
      assert Indices(nodes)[0] == nodes[0].index;
      assert Indices(nodes[1..]) == Indices(nodes)[1..];
      WithoutNone(nodes[1..], bad);
    }
  }

  lemma {:induction false} DropKeepsPartition(nodes: seq<Node>, available: seq<Node>, faults: seq<Fault>, fault: Fault)
    requires Partition(nodes, available, faults) && fault.index in Indices(available)
    ensures Partition(nodes, Without(available, fault.index), faults + [fault])
  {
    WithoutOne(available, fault.index);
    AppendIndex(FaultIndices(faults), fault.index);
    assert fault.index in Elements(Indices(available));
    assert FaultIndices(faults + [fault]) == FaultIndices(faults) + [fault.index];
  }

  /** Good replies add no voter. */
  lemma {:induction false} GoodRepliesDoNotVote(req: DecryptRequest, h: History, n: nat, m: nat, e: nat)
    requires n <= m <= |h| && AllGood(req, h, n, m)
    ensures Voters(req, h[..m], e) == Voters(req, h[..n], e)
  {
    forall i | 0 <= i < n
      ensures h[..m][i] == h[..n][i]
    {
    }
  }

  lemma {:induction false} LastReplyVotes(req: DecryptRequest, h: History, e: nat)
    requires h != []
    ensures var last := h[|h| - 1];
            Voters(req, h, e) == Voters(req, h[..|h| - 1], e)
              + if Divergent(req, last.reply) && last.reply.epoch == e then {last.node.index} else {}
  {
    var m := |h| - 1;
    forall i | 0 <= i < m
      ensures h[..m][i] == h[i]
    {
    }
  }

  ghost predicate VotesFor(req: DecryptRequest, reply: Reply, e: nat) {
    Divergent(req, reply) && reply.epoch == e
  }

  lemma {:induction false} VotersAfter(req: DecryptRequest, h: History, n: nat, e: nat)
    requires n < |h| && AllGood(req, h, n, |h| - 1)
    requires forall i | 0 <= i < n && !Good(req, h[i].reply) :: h[i].node.index != h[|h| - 1].node.index
    ensures |Voters(req, h, e)| == |Voters(req, h[..n], e)| + if VotesFor(req, h[|h| - 1].reply, e) then 1 else 0
  {
    GoodRepliesDoNotVote(req, h, n, |h| - 1, e);
    LastReplyVotes(req, h, e);
    forall i | 0 <= i < n && VotesFor(req, h[..n][i].reply, e)
      ensures h[..n][i].node.index != h[|h| - 1].node.index
    {
      assert !Good(req, h[i].reply);
    }
  }

  /** One reply for another epoch, from a node that has not voted, adds one voter. */
  lemma {:induction false} VoteIsCounted(req: DecryptRequest, votes: Votes, h: History, n: nat)
    requires n < |h| && AllGood(req, h, n, |h| - 1)
    requires Tallied(req, votes, h[..n])
    requires forall i | 0 <= i < n && !Good(req, h[i].reply) :: h[i].node.index != h[|h| - 1].node.index
    ensures Tallied(req, Voted(req, votes, h[|h| - 1].reply), h)
  {
    var after := Voted(req, votes, h[|h| - 1].reply);
    forall e: nat
      ensures Count(after, e) == |Voters(req, h, e)|
    {
      VotersAfter(req, h, n, e);
      assert Count(after, e) == Count(votes, e) + if VotesFor(req, h[|h| - 1].reply, e) then 1 else 0;
    }
  }

  /** No member of the quorum failed before. */
  lemma {:induction false} QuorumIsUntainted(
    env: Env, req: DecryptRequest, active: seq<Node>, st: State, chosen: seq<Node>, end: RoundEnd, i: nat, k: nat)
    requires FailedAreGone(env, req, active, st) && RoundFacts(env, req, st, chosen, end)
    requires i < |st.history| && !Good(req, st.history[i].reply) && k < |chosen|
    ensures chosen[k].index != st.history[i].node.index
  {
    assert chosen[k] in st.available;
    var a :| 0 <= a < |st.available| && st.available[a] == chosen[k];
    assert Indices(st.available)[a] == chosen[k].index;
  }

  /** The requests of a round are as they should be. */
  lemma {:induction false} RoundRequestsOk(
    env: Env, req: DecryptRequest, active: seq<Node>, st: State, chosen: seq<Node>, end: RoundEnd)
    requires FailedAreGone(env, req, active, st) && RequestsOk(env, req, active, st.history)
               && RoundFacts(env, req, st, chosen, end)
    requires AllGood(req, end.st.history, |st.history|, |end.st.history| - 1)
    ensures RequestsOk(env, req, active, end.st.history)
  {
    var n, h := |st.history|, end.st.history;
    forall i | 0 <= i < |h|
      ensures RequestOk(env, req, active, h, i)
    {
      if i < n {
        assert h[i] == h[..n][i] && h[..i] == h[..n][..i];
        assert RequestOk(env, req, active, st.history, i);
      } else {
        var subset := Indices(chosen);
        assert h[i].node == chosen[i - n] && h[i].request.subset == subset;
        assert subset[i - n] == chosen[i - n].index;
        forall x | x in subset
          ensures x in Indices(active)
        {
          var k :| 0 <= k < |subset| && subset[k] == x;
          assert chosen[k] in st.available;
          var a :| 0 <= a < |active| && active[a] == chosen[k];
          assert Indices(active)[a] == x;
        }
        forall j | 0 <= j < i && !Good(req, h[j].reply)
          ensures h[j].node.index !in subset
        {
          assert h[j] == h[..n][j];
          forall k | 0 <= k < |chosen|
            ensures subset[k] != h[j].node.index
          {
            QuorumIsUntainted(env, req, active, st, chosen, end, j, k);
          }
        }
      }
    }
  }

  lemma {:induction false} KeptNodesDidNotFail(req: DecryptRequest, available: seq<Node>, bad: nat, index: nat)
    requires index == bad || index !in Indices(available)
    ensures index !in Indices(Without(available, bad))
  {
    var kept := Without(available, bad);
    forall k | 0 <= k < |kept|
      ensures Indices(kept)[k] != index
    {
      assert kept[k] in kept;
      IndexOfNode(available, kept[k]);
    }
  }

  lemma {:induction false} FailedStayGone(
    env: Env, req: DecryptRequest, active: seq<Node>, st: State, chosen: seq<Node>, end: RoundEnd)
    requires FailedAreGone(env, req, active, st) && RoundFacts(env, req, st, chosen, end) && end.Dropped?
    ensures forall i | 0 <= i < |end.st.history| && !Good(req, end.st.history[i].reply) ::
              end.st.history[i].node.index !in Indices(Without(st.available, end.bad))
  {
    var n, h := |st.history|, end.st.history;
    forall i | 0 <= i < |h| && !Good(req, h[i].reply)
      ensures h[i].node.index !in Indices(Without(st.available, end.bad))
    {
      if i < n {
        assert h[i] == h[..n][i] == st.history[i];
      }
      KeptNodesDidNotFail(req, st.available, end.bad, h[i].node.index);
    }
  }

  lemma {:induction false} DropKeepsGone(
    env: Env, req: DecryptRequest, active: seq<Node>, st: State, chosen: seq<Node>, end: RoundEnd, next: State)
    requires Distinct(Indices(active))
    requires FailedAreGone(env, req, active, st) && RoundFacts(env, req, st, chosen, end) && end.Dropped?
    requires next == end.st.(available := Without(end.st.available, end.bad))
    ensures FailedAreGone(env, req, active, next)
  {
    var n, h := |st.history|, end.st.history;
    FailedStayGone(env, req, active, st, chosen, end);
    assert h[|h| - 1].node == chosen[|h| - 1 - n];
    forall m | m in active && m !in next.available
      ensures exists i :: 0 <= i < |h| && h[i].node == m && !Good(req, h[i].reply)
    {
      if m in st.available {
        SameIndexSameNode(active, m, h[|h| - 1].node);
      } else {
        var i :| 0 <= i < |st.history| && st.history[i].node == m && !Good(req, st.history[i].reply);
        assert h[i] == h[..n][i];
      }
    }
  }

  lemma {:induction false} SameIndexSameNode(nodes: seq<Node>, a: Node, b: Node)
    requires Distinct(Indices(nodes)) && a in nodes && b in nodes && a.index == b.index
    ensures a == b
  {
    var i :| 0 <= i < |nodes| && nodes[i] == a;
    var j :| 0 <= j < |nodes| && nodes[j] == b;
    assert Indices(nodes)[i] == Indices(nodes)[j];
  }

  lemma {:induction false} IndexOfNode(nodes: seq<Node>, node: Node)
    requires node in nodes
    ensures node.index in Indices(nodes)
  {
    var i :| 0 <= i < |nodes| && nodes[i] == node;
    assert Indices(nodes)[i] == node.index;
  }

  lemma {:induction false} OneMoreRound(rounds: nat, threshold: nat)
    ensures rounds * threshold + threshold == (rounds + 1) * threshold
  {
  }

  lemma {:induction false} DropKeepsCounted(
    env: Env, req: DecryptRequest, active: seq<Node>, st: State, chosen: seq<Node>, end: RoundEnd)
    requires Counted(env, req, active, st) && Distinct(Indices(st.available)) && req.threshold <= |st.available|
    requires RoundFacts(env, req, st, chosen, end) && end.Dropped? && end.bad in Indices(st.available)
    ensures Counted(env, req, active, end.st.(available := Without(end.st.available, end.bad)))
  {
    WithoutOne(st.available, end.bad);
    assert |end.st.history| <= |st.history| + req.threshold;
    OneMoreRound(st.rounds, req.threshold);
  }

  lemma {:induction false} DroppedIsAvailable(
    env: Env, req: DecryptRequest, st: State, chosen: seq<Node>, end: RoundEnd)
    requires RoundFacts(env, req, st, chosen, end) && end.Dropped?
    ensures end.bad in Indices(st.available)
    ensures end.st.faults == st.faults + [FaultOf(end.st.history[|end.st.history| - 1])]
    ensures FaultOf(end.st.history[|end.st.history| - 1]).index == end.bad
  {
    var n, h := |st.history|, end.st.history;
    assert h[|h| - 1].node == chosen[|h| - 1 - n];
    IndexOfNode(st.available, h[|h| - 1].node);
  }

  lemma {:induction false} DropKeepsAccounts(
    env: Env, req: DecryptRequest, active: seq<Node>, st: State, chosen: seq<Node>, end: RoundEnd)
    requires req.threshold <= |st.available| && Counted(env, req, active, st)
    requires Partition(req.nodes, st.available, st.faults)
    requires RoundFacts(env, req, st, chosen, end) && end.Dropped?
    ensures Partition(req.nodes, Without(end.st.available, end.bad), end.st.faults)
    ensures Counted(env, req, active, end.st.(available := Without(end.st.available, end.bad)))
  {
    DroppedIsAvailable(env, req, st, chosen, end);
    DropKeepsPartition(req.nodes, st.available, st.faults, FaultOf(end.st.history[|end.st.history| - 1]));
    DropKeepsCounted(env, req, active, st, chosen, end);
  }

  lemma {:induction false} DropKeepsVotes(
    env: Env, req: DecryptRequest, active: seq<Node>, st: State, chosen: seq<Node>, end: RoundEnd)
    requires Tallied(req, st.votes, st.history) && (forall e: nat :: Count(st.votes, e) < req.threshold)
    requires FailedAreGone(env, req, active, st)
    requires RoundFacts(env, req, st, chosen, end) && end.Dropped?
    ensures Tallied(req, end.st.votes, end.st.history) && forall e: nat :: Count(end.st.votes, e) < req.threshold
  {
    RoundIsTallied(env, req, active, st, chosen, end);
    VotesStayBelow(req, st.votes, end.st.votes, end.st.history[|end.st.history| - 1].reply);
  }

  lemma {:induction false} DropStep(
    env: Env, req: DecryptRequest, active: seq<Node>, st: State, chosen: seq<Node>, end: RoundEnd)
    requires Distinct(Indices(active)) && req.threshold <= |st.available|
    requires Inv(env, req, active, st) && RoundFacts(env, req, st, chosen, end) && end.Dropped?
    ensures Inv(env, req, active, end.st.(available := Without(end.st.available, end.bad)))
  {
    DropKeepsAccounts(env, req, active, st, chosen, end);
    DropKeepsVotes(env, req, active, st, chosen, end);
    DropKeepsGone(env, req, active, st, chosen, end, end.st.(available := Without(end.st.available, end.bad)));
    RoundRequestsOk(env, req, active, st, chosen, end);
  }

  lemma {:induction false} DropKeepsInv(env: Env, req: DecryptRequest, active: seq<Node>, st: State)
    requires Distinct(Indices(active)) && DrawsInRange(env) && Inv(env, req, active, st)
               && req.threshold <= |st.available|
    requires Round(env, req, st).Dropped?
    ensures var end := Round(env, req, st);
            Inv(env, req, active, end.st.(available := Without(end.st.available, end.bad)))
  {
    RoundHasFacts(env, req, st);
    DropStep(env, req, active, st, ChosenQuorum(env, req, st), Round(env, req, st));
  }

  lemma {:induction false} VotesStayBelow(req: DecryptRequest, before: Votes, after: Votes, reply: Reply)
    requires forall e: nat :: Count(before, e) < req.threshold
    requires after == Voted(req, before, reply)
    requires Divergent(req, reply) ==> Count(after, reply.epoch) < req.threshold
    ensures forall e: nat :: Count(after, e) < req.threshold
  {
    forall e: nat
      ensures Count(after, e) < req.threshold
    {
      assert (Divergent(req, reply) && e == reply.epoch) || Count(after, e) == Count(before, e);
    }
  }

  lemma {:induction false} RoundIsTallied(
    env: Env, req: DecryptRequest, active: seq<Node>, st: State, chosen: seq<Node>, end: RoundEnd)
    requires Tallied(req, st.votes, st.history) && FailedAreGone(env, req, active, st)
               && RoundFacts(env, req, st, chosen, end)
    requires |end.st.history| > |st.history| && AllGood(req, end.st.history, |st.history|, |end.st.history| - 1)
    ensures Tallied(req, Voted(req, st.votes, end.st.history[|end.st.history| - 1].reply), end.st.history)
  {
    var n, h := |st.history|, end.st.history;
    forall i | 0 <= i < n && !Good(req, h[i].reply)
      ensures h[i].node.index != h[|h| - 1].node.index
    {
      assert h[i] == h[..n][i];
      QuorumIsUntainted(env, req, active, st, chosen, end, i, |h| - 1 - n);
    }
    VoteIsCounted(req, st.votes, h, n);
  }

  // ---------- so it holds before the last round ----------

  ghost predicate IsLast(env: Env, req: DecryptRequest, st: State)
    requires DrawsInRange(env)
  {
    |st.available| < req.threshold || !Round(env, req, st).Dropped?
  }

  /** The loop reaches, with the invariant intact, a state from which it does not go round again. */
  lemma {:induction false} LastRound(env: Env, req: DecryptRequest, active: seq<Node>, st: State) returns (last: State)
    requires Distinct(Indices(active)) && DrawsInRange(env) && Inv(env, req, active, st)
    ensures Inv(env, req, active, last) && IsLast(env, req, last)
    ensures Rounds(env, req, st) == Rounds(env, req, last)
    decreases |st.available|
  {
    if IsLast(env, req, st) {
      last := st;
    } else {
      var end := Round(env, req, st);
      ChosenAreAvailable(env, req, st);
      DropKeepsInv(env, req, active, st);
      last := LastRound(env, req, active, end.st.(available := Without(end.st.available, end.bad)));
    }
  }
}
