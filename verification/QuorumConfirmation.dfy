/** When a reported rotation is confirmed by a quorum: the documentation says that it always is,
    and it is not. The exact conditions, and what happens where they fail. */
module QuorumConfirmation {
  import opened Wrappers
  import opened Finite
  import opened Sampling
  import SamplingCounts
  import opened Committee
  import opened RotationReport
  import opened Decrypt
  import opened QuorumRounds
  import opened QuorumInvariant
  import opened QuorumTheorems

  /** If the run reports a rotation, `threshold` distinct nodes served that epoch. */
  ghost predicate Confirmed(env: Env, req: DecryptRequest)
    requires DrawsInRange(env)
  {
    var run := DecryptRun(env, req);
    Rotated(run) ==> Backing(req, run, run.result.error.served) == req.threshold
  }

  ghost predicate AreActive(env: Env, req: DecryptRequest, indices: set<nat>) {
    indices <= Elements(Indices(ActiveNodes(env, req)))
  }

  /** Whatever happened before, these nodes serve another epoch, `e`. */
  ghost predicate AlwaysServe(env: Env, req: DecryptRequest, servers: set<nat>, e: nat) {
    && e != 0 && e != req.epoch
    && forall n, h: History, r: Request | n in ActiveNodes(env, req) && n.index in servers ::
         env.answer(h, n.endpoint, r).Served? && env.answer(h, n.endpoint, r).epoch == e
  }

  /** Every active node that is not honest answers for some other epoch, whenever asked. */
  ghost predicate OthersDiverge(env: Env, req: DecryptRequest, honest: set<nat>) {
    forall n, h: History, r: Request | n in ActiveNodes(env, req) && n.index !in honest ::
      Divergent(req, env.answer(h, n.endpoint, r))
  }

  // ---------- enough honest nodes, or enough answers ----------

  /** With a quorum of honest nodes every report is confirmed, whatever the others do. */
  lemma {:induction false} HonestQuorumConfirms(env: Env, req: DecryptRequest, honest: set<nat>)
    requires WellFormed(req) && DrawsInRange(env)
    requires AreActive(env, req, honest) && |honest| >= req.threshold && Honest(env, req, honest)
    ensures Confirmed(env, req)
  {
    var last, chosen, end := Ending(env, req);
    EnoughNodesLeft(env, req, ActiveNodes(env, req), last, honest);
    RotationSoundness(env, req);
  }

  /** A node that is gone failed when it was asked. */
  lemma {:induction false} GoneNodeFailed(env: Env, req: DecryptRequest, active: seq<Node>, st: State, x: nat)
    returns (i: nat)
    requires active == ActiveNodes(env, req) && Distinct(Indices(active))
    requires FailedAreGone(env, req, active, st) && RequestsOk(env, req, active, st.history)
    requires x in Elements(Indices(active)) - Elements(Indices(st.available))
    ensures i < |st.history| && st.history[i].node in active && st.history[i].node.index == x
    ensures !Good(req, st.history[i].reply)
    ensures var ex := st.history[i]; ex.reply == env.answer(st.history[..i], ex.node.endpoint, ex.request)
  {
    var k :| 0 <= k < |active| && Indices(active)[k] == x;
    var n := active[k];
    if n in st.available {
      IndexOfNode(st.available, n);
    }
    i :| 0 <= i < |st.history| && st.history[i].node == n && !Good(req, st.history[i].reply);
    assert RequestOk(env, req, active, st.history, i);
  }

  /** `2 * threshold - 1` nodes that answer, each for the client's epoch or all for one other,
      confirm every report as well. */
  lemma {:induction false} AnsweringNodesConfirm(
    env: Env, req: DecryptRequest, honest: set<nat>, servers: set<nat>, e: nat)
    requires WellFormed(req) && DrawsInRange(env)
    requires AreActive(env, req, honest) && Honest(env, req, honest)
    requires AreActive(env, req, servers) && AlwaysServe(env, req, servers, e) && honest !! servers
    requires |honest| + |servers| >= 2 * req.threshold - 1
    ensures Confirmed(env, req)
  {
    var active := ActiveNodes(env, req);
    var last, chosen, end := Ending(env, req);
    RotationSoundness(env, req);
    ServersVoteOrStay(env, req, active, last, honest, servers, e);
    assert Count(last.votes, e) < req.threshold;
    assert |last.available| >= req.threshold;
  }

  lemma {:induction false} ServersVoteOrStay(
    env: Env, req: DecryptRequest, active: seq<Node>, st: State, honest: set<nat>, servers: set<nat>, e: nat)
    requires active == ActiveNodes(env, req) && Distinct(Indices(active)) && Inv(env, req, active, st)
    requires AreActive(env, req, honest) && Honest(env, req, honest)
    requires AreActive(env, req, servers) && AlwaysServe(env, req, servers, e) && honest !! servers
    ensures |honest| + |servers| <= |st.available| + |Voters(req, st.history, e)|
  {
    var left, voters := Elements(Indices(st.available)), Voters(req, st.history, e);
    HonestStay(env, req, active, st, honest);
    forall x | x in servers - left
      ensures x in voters
    {
      var i := GoneNodeFailed(env, req, active, st, x);
    }
    SamplingCounts.DistinctSize(Indices(st.available));
    SubsetSize(honest + servers, left + voters);
    assert |honest + servers| == |honest| + |servers|;
    assert |left + voters| <= |left| + |voters|;
  }

  // ---------- nodes that all answer ----------

  /** Too few honest nodes for a quorum, and no node silent: every run reports a rotation. */
  lemma {:induction false} NoQuorumMeansRotation(
    env: Env, req: DecryptRequest, honest: set<nat>, last: State, chosen: seq<Node>, end: RoundEnd)
    requires WellFormed(req) && DrawsInRange(env) && NoAborts(env)
    requires AreActive(env, req, honest) && Honest(env, req, honest) && OthersDiverge(env, req, honest)
    requires |honest| < req.threshold <= |ActiveNodes(env, req)|
    requires EndsFrom(env, req, ActiveNodes(env, req), last, chosen, end, DecryptRun(env, req))
    ensures Rotated(DecryptRun(env, req))
  {
    var active, run := ActiveNodes(env, req), DecryptRun(env, req);
    if req.threshold <= |last.available| {
      RequestContract(env, req);
      QuorumIsOutvoted(env, req, honest, last, chosen, end);
    } else {
      SomeoneVoted(env, req, active, last, honest);
    }
  }

  /** The last round cannot collect a quorum, so it stops on a vote. */
  lemma {:induction false} QuorumIsOutvoted(
    env: Env, req: DecryptRequest, honest: set<nat>, last: State, chosen: seq<Node>, end: RoundEnd)
    requires NoAborts(env) && Honest(env, req, honest) && OthersDiverge(env, req, honest) && |honest| < req.threshold
    requires Inv(env, req, ActiveNodes(env, req), last)
    requires RoundFacts(env, req, last, chosen, end) && !end.Dropped?
    requires RequestsOk(env, req, ActiveNodes(env, req), end.st.history)
    ensures end.Stopped? && end.error.EpochRotated?
  {
    var active := ActiveNodes(env, req);
    if end.Collected? {
      CollectedAreHonest(env, req, active, last, chosen, end, honest);
      assert false;
    } else if !end.error.EpochRotated? {
      RoundCollects(env, req, active, last, chosen, end);
      assert false;
    }
  }

  lemma {:induction false} SomeoneVoted(env: Env, req: DecryptRequest, active: seq<Node>, last: State, honest: set<nat>)
    requires active == ActiveNodes(env, req) && Distinct(Indices(active)) && Inv(env, req, active, last)
    requires Honest(env, req, honest) && OthersDiverge(env, req, honest) && AreActive(env, req, honest)
    requires |last.available| < |active|
    ensures last.votes != map[]
  {
    var x := SomeIndexIsGone(active, last.available);
    var i := GoneNodeFailed(env, req, active, last, x);
    var e := last.history[i].reply.epoch;
    HonestNodesAreGood(env, req, active, last.history, i, honest);
    assert x in Voters(req, last.history, e);
    assert Count(last.votes, e) > 0;
  }

  lemma {:induction false} HonestNodesAreGood(
    env: Env, req: DecryptRequest, active: seq<Node>, h: History, i: nat, honest: set<nat>)
    requires active == ActiveNodes(env, req) && i < |h| && RequestsOk(env, req, active, h)
    requires Honest(env, req, honest) && OthersDiverge(env, req, honest)
    ensures if h[i].node.index in honest then Good(req, h[i].reply) else Divergent(req, h[i].reply)
  {
    assert RequestOk(env, req, active, h, i);
  }

  /** A quorum that is collected is honest. */
  lemma {:induction false} CollectedAreHonest(
    env: Env, req: DecryptRequest, active: seq<Node>, last: State, chosen: seq<Node>, end: RoundEnd, honest: set<nat>)
    requires active == ActiveNodes(env, req) && RoundFacts(env, req, last, chosen, end) && end.Collected?
    requires RequestsOk(env, req, active, end.st.history)
    requires Honest(env, req, honest) && OthersDiverge(env, req, honest)
    ensures |honest| >= req.threshold
  {
    var h, n := end.st.history, |last.history|;
    forall x | x in Elements(Indices(chosen))
      ensures x in honest
    {
      var k :| 0 <= k < |chosen| && Indices(chosen)[k] == x;
      assert h[n + k].node == chosen[k] && Good(req, h[n + k].reply);
      HonestNodesAreGood(env, req, active, h, n + k, honest);
    }
    SamplingCounts.DistinctSize(Indices(chosen));
    SubsetSize(Elements(Indices(chosen)), honest);
  }

  lemma {:induction false} SomeIndexIsGone(active: seq<Node>, available: seq<Node>) returns (x: nat)
    requires Distinct(Indices(active)) && Distinct(Indices(available)) && |available| < |active|
    ensures x in Elements(Indices(active)) - Elements(Indices(available))
  {
    var all, left := Elements(Indices(active)), Elements(Indices(available));
    SamplingCounts.DistinctSize(Indices(active));
    SamplingCounts.DistinctSize(Indices(available));
    if all <= left {
      SubsetSize(all, left);
      assert false;
    }
    x :| x in all && x !in left;
  }

  // ---------- one other epoch ----------

  /** Every active node is honest or always serves `e`. */
  ghost predicate TwoFactions(env: Env, req: DecryptRequest, honest: set<nat>, e: nat) {
    && AreActive(env, req, honest) && Honest(env, req, honest)
    && AlwaysServe(env, req, Elements(Indices(ActiveNodes(env, req))) - honest, e)
  }

  lemma {:induction false} FactionsDiverge(env: Env, req: DecryptRequest, honest: set<nat>, e: nat)
    requires TwoFactions(env, req, honest, e)
    ensures OthersDiverge(env, req, honest)
  {
    forall n | n in ActiveNodes(env, req)
      ensures n.index in Elements(Indices(ActiveNodes(env, req)))
    {
      IndexOfNode(ActiveNodes(env, req), n);
    }
  }

  /** Only `e` gets votes. */
  lemma {:induction false} OnlyOneEpochVotes(
    env: Env, req: DecryptRequest, h: History, honest: set<nat>, e: nat, x: nat)
    requires RequestsOk(env, req, ActiveNodes(env, req), h) && TwoFactions(env, req, honest, e)
    ensures |Voters(req, h, x)| > 0 ==> x == e
  {
    if |Voters(req, h, x)| > 0 {
      var y :| y in Voters(req, h, x);
      var i :| 0 <= i < |h| && Divergent(req, h[i].reply) && h[i].reply.epoch == x && h[i].node.index == y;
      FactionsDiverge(env, req, honest, e);
      HonestNodesAreGood(env, req, ActiveNodes(env, req), h, i, honest);
      assert RequestOk(env, req, ActiveNodes(env, req), h, i);
      IndexOfNode(ActiveNodes(env, req), h[i].node);
    }
  }

  lemma {:induction false} RotatesToTheirEpoch(
    env: Env, req: DecryptRequest, honest: set<nat>, e: nat, last: State, chosen: seq<Node>, end: RoundEnd)
    requires WellFormed(req) && DrawsInRange(env) && NoAborts(env) && TwoFactions(env, req, honest, e)
    requires |honest| < req.threshold <= |ActiveNodes(env, req)|
    requires EndsFrom(env, req, ActiveNodes(env, req), last, chosen, end, DecryptRun(env, req))
    ensures var run := DecryptRun(env, req);
            run.result == Err(EpochRotated(e, req.epoch)) && RotationExplained(req, run, |ActiveNodes(env, req)|, e)
  {
    var run := DecryptRun(env, req);
    FactionsDiverge(env, req, honest, e);
    NoQuorumMeansRotation(env, req, honest, last, chosen, end);
    RequestContract(env, req);
    RotationSoundness(env, req);
    OnlyOneEpochVotes(env, req, run.end.history, honest, e, run.result.error.served);
  }

  /** With fewer honest nodes than a quorum needs and all others serving `e`, every run, whatever
      is drawn, reports a rotation to `e`, backed by a quorum if there are `2 * threshold - 1`
      active nodes and otherwise by the few that had to go before the nodes ran out. */
  lemma {:induction false} ExactBacking(env: Env, req: DecryptRequest, honest: set<nat>, e: nat)
    requires WellFormed(req) && DrawsInRange(env) && NoAborts(env) && TwoFactions(env, req, honest, e)
    requires |honest| < req.threshold <= |ActiveNodes(env, req)|
    ensures var run, a := DecryptRun(env, req), |ActiveNodes(env, req)|;
            && run.result == Err(EpochRotated(e, req.epoch))
            && Backing(req, run, e) == if a >= 2 * req.threshold - 1 then req.threshold else a - req.threshold + 1
  {
    var active, run := ActiveNodes(env, req), DecryptRun(env, req);
    var last, chosen, end := Ending(env, req);
    RotatesToTheirEpoch(env, req, honest, e, last, chosen, end);
    if |last.available| < req.threshold {
      VotersAreTheGone(env, req, active, last, honest, e);
      assert Count(last.votes, e) < req.threshold;
    }
  }

  /** Everyone who is gone voted for `e`. */
  lemma {:induction false} VotersAreTheGone(
    env: Env, req: DecryptRequest, active: seq<Node>, st: State, honest: set<nat>, e: nat)
    requires active == ActiveNodes(env, req) && Distinct(Indices(active)) && Inv(env, req, active, st)
    requires TwoFactions(env, req, honest, e)
    ensures |Voters(req, st.history, e)| + |st.available| == |active|
  {
    var all, left, voters := Elements(Indices(active)), Elements(Indices(st.available)), Voters(req, st.history, e);
    FactionsDiverge(env, req, honest, e);
    forall x | x in all - left
      ensures x in voters
    {
      var i := GoneNodeFailed(env, req, active, st, x);
      HonestNodesAreGood(env, req, active, st.history, i, honest);
    }
    forall x | x in left
      ensures x in all
    {
      var k :| 0 <= k < |st.available| && Indices(st.available)[k] == x;
      assert st.available[k] in active;
      IndexOfNode(active, st.available[k]);
    }
    VotersAreSpent(env, req, active, st, e);
    SamplingCounts.DistinctSize(Indices(active));
    SamplingCounts.DistinctSize(Indices(st.available));
    assert |all - left| == |all| - |left|;
    SubsetSize(all - left, voters);
  }

  /** So between two factions a report is confirmed exactly when the honest ones are a quorum,
      or there are `2 * threshold - 1` nodes, or too few to ask at all. */
  lemma {:induction false} ConfirmedBetweenFactions(env: Env, req: DecryptRequest, honest: set<nat>, e: nat)
    requires WellFormed(req) && DrawsInRange(env) && NoAborts(env) && TwoFactions(env, req, honest, e)
    ensures var a := |ActiveNodes(env, req)|;
            Confirmed(env, req) <==> |honest| >= req.threshold || a >= 2 * req.threshold - 1 || a < req.threshold
  {
    if |honest| >= req.threshold {
      HonestQuorumConfirms(env, req, honest);
    } else if |ActiveNodes(env, req)| >= req.threshold {
      ExactBacking(env, req, honest, e);
    } else {
      NoRoundNoReport(env, req);
    }
  }

  lemma {:induction false} NoRoundNoReport(env: Env, req: DecryptRequest)
    requires WellFormed(req) && DrawsInRange(env) && |ActiveNodes(env, req)| < req.threshold
    ensures !Rotated(DecryptRun(env, req))
  {
    assert Reported(Start(env, req).votes).None?;
  }

  // ---------- whatever the others do ----------

  /** The same committee, request and probes, with other nodes, draws and signatures behind them. */
  ghost predicate SameProbes(env: Env, other: Env) {
    other.health == env.health && other.protocolVersion == env.protocolVersion
  }

  lemma {:induction false} SameProbesSameNodes(env: Env, other: Env, nodes: seq<Node>)
    requires SameProbes(env, other)
    ensures HealthReplies(env, nodes) == HealthReplies(other, nodes)
    ensures forall replies: seq<HealthReply> | |replies| == |nodes| ::
              Active(env, nodes, replies) == Active(other, nodes, replies)
    decreases |nodes|
  {
    if nodes != [] {
      SameProbesSameNodes(env, other, nodes[..|nodes| - 1]);
    }
  }

  /** Reports are confirmed whatever the other nodes do. */
  ghost predicate AlwaysConfirmed(env: Env, req: DecryptRequest, honest: set<nat>) {
    forall other: Env | SameProbes(env, other) && DrawsInRange(other)
      && Honest(other, req, honest) :: Confirmed(other, req)
  }

  /** No honest node shares its address with another active node. */
  ghost predicate OwnEndpoints(env: Env, req: DecryptRequest, honest: set<nat>) {
    forall n, m | n in ActiveNodes(env, req) && m in ActiveNodes(env, req) && n.endpoint == m.endpoint ::
      n.index in honest <==> m.index in honest
  }

  ghost function HonestEndpoints(env: Env, req: DecryptRequest, honest: set<nat>): set<string> {
    set n | n in ActiveNodes(env, req) && n.index in honest :: n.endpoint
  }

  /** The same probes, and behind them nodes that each serve an epoch of their own unless they
      are honest. The coefficient in a request tells a node which one it is. */
  ghost function Splintered(env: Env, req: DecryptRequest, honest: set<nat>): Env {
    var good := HonestEndpoints(env, req, honest);
    env.(
      draws := (h: History, n: nat, t: nat) => seq(t, _ => 0),
      lagrange := (i: nat, s: seq<nat>) => Ok(seq(i, _ => 0)),
      authorize := (h, s) => Ok([]),
      answer := (h, e, r: Request) => Served(if e in good then 0 else req.epoch + 1 + |r.lambda|, "", ""),
      fromHex := s => Some([]))
  }

  lemma {:induction false} SplinteredNodes(env: Env, req: DecryptRequest, honest: set<nat>)
    requires OwnEndpoints(env, req, honest)
    ensures var other := Splintered(env, req, honest);
            && SameProbes(env, other) && DrawsInRange(other) && NoAborts(other)
            && ActiveNodes(other, req) == ActiveNodes(env, req)
            && Honest(other, req, honest) && OthersDiverge(other, req, honest)
  {
    var other := Splintered(env, req, honest);
    SameProbesSameNodes(env, other, req.nodes);
    SplinteredAnswers(env, req, honest, other);
  }

  lemma {:induction false} SplinteredAnswers(env: Env, req: DecryptRequest, honest: set<nat>, other: Env)
    requires OwnEndpoints(env, req, honest) && other == Splintered(env, req, honest)
    requires ActiveNodes(other, req) == ActiveNodes(env, req)
    ensures Honest(other, req, honest) && OthersDiverge(other, req, honest)
  {
    var good := HonestEndpoints(env, req, honest);
    forall n | n in ActiveNodes(env, req)
      ensures n.endpoint in good <==> n.index in honest
    {
      if n.endpoint in good {
        var m :| m in ActiveNodes(env, req) && m.index in honest && m.endpoint == n.endpoint;
      }
    }
  }

  /** Each epoch is served by one node only. */
  lemma {:induction false} SplintersVoteAlone(env: Env, req: DecryptRequest, honest: set<nat>, h: History, e: nat)
    requires OwnEndpoints(env, req, honest)
    requires RequestsOk(Splintered(env, req, honest), req, ActiveNodes(env, req), h)
    ensures |Voters(req, h, e)| <= 1
  {
    var other := Splintered(env, req, honest);
    forall x | x in Voters(req, h, e)
      ensures req.epoch + 1 + x == e
    {
      var i :| 0 <= i < |h| && Divergent(req, h[i].reply) && h[i].reply.epoch == e && h[i].node.index == x;
      assert RequestOk(other, req, ActiveNodes(env, req), h, i);
      assert |h[i].request.lambda| == h[i].node.index;
    }
    if x :| x in Voters(req, h, e) {
      SubsetSize(Voters(req, h, e), {x});
    }
  }

  /** For any committee, reports are confirmed whatever the other nodes do exactly when a quorum
      of the active nodes is honest, one vote is a quorum, or there are too few nodes to ask. */
  lemma {:induction false} ConfirmedWhateverOthersDo(env: Env, req: DecryptRequest, honest: set<nat>)
    requires WellFormed(req) && AreActive(env, req, honest) && OwnEndpoints(env, req, honest)
    ensures AlwaysConfirmed(env, req, honest) <==>
            |honest| >= req.threshold || req.threshold == 1 || |ActiveNodes(env, req)| < req.threshold
  {
    if |honest| >= req.threshold || req.threshold == 1 || |ActiveNodes(env, req)| < req.threshold {
      forall other: Env | SameProbes(env, other) && DrawsInRange(other) && Honest(other, req, honest)
        ensures Confirmed(other, req)
      {
        SameProbesSameNodes(env, other, req.nodes);
        ConfirmedAnyway(other, req, honest);
      }
    } else {
      UnconfirmedReport(env, req, honest);
      SplinteredNodes(env, req, honest);
      assert !Confirmed(Splintered(env, req, honest), req);
    }
  }

  lemma {:induction false} ConfirmedAnyway(env: Env, req: DecryptRequest, honest: set<nat>)
    requires WellFormed(req) && DrawsInRange(env) && AreActive(env, req, honest) && Honest(env, req, honest)
    requires |honest| >= req.threshold || req.threshold == 1 || |ActiveNodes(env, req)| < req.threshold
    ensures Confirmed(env, req)
  {
    if |honest| >= req.threshold {
      HonestQuorumConfirms(env, req, honest);
    } else if |ActiveNodes(env, req)| < req.threshold {
      NoRoundNoReport(env, req);
    } else {
      RotationSoundness(env, req);
    }
  }

  lemma {:induction false} UnconfirmedReport(env: Env, req: DecryptRequest, honest: set<nat>)
    requires WellFormed(req) && AreActive(env, req, honest) && OwnEndpoints(env, req, honest)
    requires |honest| < req.threshold <= |ActiveNodes(env, req)| && req.threshold >= 2
    ensures DrawsInRange(Splintered(env, req, honest)) && !Confirmed(Splintered(env, req, honest), req)
  {
    var other := Splintered(env, req, honest);
    SplinteredNodes(env, req, honest);
    var last, chosen, end := Ending(other, req);
    NoQuorumMeansRotation(other, req, honest, last, chosen, end);
    RequestContract(other, req);
    var run := DecryptRun(other, req);
    SplintersVoteAlone(env, req, honest, run.end.history, run.result.error.served);
  }

  // ---------- a lone divergent node ----------

  /** `liar` alone serves epoch `e`, every time; the other active nodes are honest. */
  ghost predicate OneDivergentNode(env: Env, req: DecryptRequest, liar: Node, e: nat) {
    && liar in ActiveNodes(env, req)
    && TwoFactions(env, req, Elements(Indices(ActiveNodes(env, req))) - {liar.index}, e)
  }

  /** The documentation calls a single node serving another epoch just a fault. With no spare
      node, though, that one node makes every run report a rotation to its epoch. */
  lemma {:induction false} LoneNodeIsReportedAsRotation(env: Env, req: DecryptRequest, liar: Node, e: nat)
    requires WellFormed(req) && DrawsInRange(env) && NoAborts(env) && req.threshold >= 2
    requires |ActiveNodes(env, req)| == req.threshold && OneDivergentNode(env, req, liar, e)
    ensures var run := DecryptRun(env, req);
            run.result == Err(EpochRotated(e, req.epoch)) && Backing(req, run, e) == 1
  {
    var all := Elements(Indices(ActiveNodes(env, req)));
    IndexOfNode(ActiveNodes(env, req), liar);
    StartInv(env, req);
    SamplingCounts.DistinctSize(Indices(ActiveNodes(env, req)));
    ExactBacking(env, req, all - {liar.index}, e);
  }

  ghost function ExampleRequest(): DecryptRequest {
    DecryptRequest(7, 5, [], [], [], [], [], [], 2, [Node(1, "a", []), Node(2, "b", [])])
  }

  ghost function ExampleEnv(): Env {
    Env(3,
      (h, e) => Answered("active", 0),
      (h: History, n: nat, t: nat) => seq(t, _ => 0),
      (i, s) => Ok([]),
      (h, s) => Ok([]),
      (h, e, r) => if e == "a" then Served(9, "", "") else Served(5, "", ""),
      s => Some([]),
      (r, p) => Ok([]))
  }

  lemma {:induction false} ExampleIsWellFormed()
    ensures WellFormed(ExampleRequest()) && DrawsInRange(ExampleEnv()) && NoAborts(ExampleEnv())
    ensures ActiveNodes(ExampleEnv(), ExampleRequest()) == ExampleRequest().nodes
  {
    assert Indices(ExampleRequest().nodes) == [1, 2];
    AllUp(ExampleEnv(), ExampleRequest().nodes);
  }

  lemma {:induction false} ExampleHasOneLiar()
    ensures OneDivergentNode(ExampleEnv(), ExampleRequest(), Node(1, "a", []), 9)
  {
    ExampleIsWellFormed();
    assert Indices(ExampleRequest().nodes) == [1, 2];
  }

  /** Two nodes at threshold 2, one of them serving epoch 9 when asked for epoch 5. */
  lemma {:induction false} LoneNodeExample()
    ensures WellFormed(ExampleRequest()) && ExampleRequest().threshold == 2 && ExampleRequest().epoch == 5
    ensures DrawsInRange(ExampleEnv())
    ensures var run := DecryptRun(ExampleEnv(), ExampleRequest());
            run.result == Err(EpochRotated(9, 5)) && Backing(ExampleRequest(), run, 9) == 1
  {
    ExampleIsWellFormed();
    ExampleHasOneLiar();
    LoneNodeIsReportedAsRotation(ExampleEnv(), ExampleRequest(), Node(1, "a", []), 9);
  }

  lemma {:induction false} AllUp(env: Env, nodes: seq<Node>)
    requires forall replies: seq<HealthReply>, e: string :: Usable(env, env.health(replies, e))
    ensures Active(env, nodes, HealthReplies(env, nodes)) == nodes
    decreases |nodes|
  {
    if nodes != [] {
      var last := |nodes| - 1;
      AllUp(env, nodes[..last]);
      assert HealthReplies(env, nodes)[..last] == HealthReplies(env, nodes[..last]);
      assert nodes == nodes[..last] + [nodes[last]];
    }
  }
}
