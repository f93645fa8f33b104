/** What every finished decrypt promises, for every environment: liveness, what a reported
    rotation is worth, node accounting, and what is sent and handed to the core. */
module QuorumTheorems {
  import opened Wrappers
  import opened Finite
  import opened Sampling
  import SamplingCounts
  import opened Committee
  import opened RotationReport
  import opened Decrypt
  import opened QuorumRounds
  import opened QuorumInvariant

  /** The nodes whose probe said they can serve. */
  ghost function ActiveNodes(env: Env, req: DecryptRequest): seq<Node> {
    Start(env, req).available
  }

  ghost function Finish(env: Env, req: DecryptRequest, end: RoundEnd): Run
    requires !end.Dropped?
  {
    match end
    case Collected(st, partials) => Run(OpenSecret(env, req, partials), st, Some(partials))
    case Stopped(st, error) => Run(Err(error), st, None)
  }

  /** From `last`, in which every earlier round's invariant holds, the run ends: for want of
      nodes, or with the round `end` of the quorum `chosen`. */
  ghost predicate EndsFrom(
    env: Env, req: DecryptRequest, active: seq<Node>, last: State, chosen: seq<Node>, end: RoundEnd, run: Run)
  {
    && Distinct(Indices(active)) && Inv(env, req, active, last)
    && if |last.available| < req.threshold then run == Run(Err(OutOfNodes(req, last)), last, None)
       else RoundFacts(env, req, last, chosen, end) && !end.Dropped? && run == Finish(env, req, end)
  }

  lemma {:induction false} Ending(env: Env, req: DecryptRequest) returns (last: State, chosen: seq<Node>, end: RoundEnd)
    requires WellFormed(req) && DrawsInRange(env)
    ensures EndsFrom(env, req, ActiveNodes(env, req), last, chosen, end, DecryptRun(env, req))
  {
    StartInv(env, req);
    last := LastRound(env, req, ActiveNodes(env, req), Start(env, req));
    chosen, end := [], Stopped(last, Core(Hex));
    if req.threshold <= |last.available| {
      chosen, end := ChosenQuorum(env, req, last), Round(env, req, last);
      RoundHasFacts(env, req, last);
    }
  }

  // ---------- node accounting ----------

  ghost predicate QuorumFailureExplained(req: DecryptRequest, run: Run, needed: nat, found: nat, faults: seq<Fault>) {
    needed == req.threshold && found == |run.end.available| && faults == run.end.faults
    && found < needed && |faults| + found == |req.nodes|
    && (run.end.rounds > 0 ==> found == needed - 1)
  }

  /** One fault for each node dropped and no other; a round for each node dropped after its
      probe and at most one more; at most a quorum of requests a round. */
  lemma {:induction false} NodeAccounting(env: Env, req: DecryptRequest)
    requires WellFormed(req) && DrawsInRange(env)
    ensures var run, active := DecryptRun(env, req), |ActiveNodes(env, req)|;
            && Partition(req.nodes, run.end.available, run.end.faults)
            && run.end.rounds <= (if active < req.threshold then 0 else active - req.threshold + 1)
            && |run.end.history| <= run.end.rounds * req.threshold
            && (run.result.Err? && run.result.error.QuorumUnavailable? ==>
                 var error := run.result.error;
                 QuorumFailureExplained(req, run, error.needed, error.active, error.faults))
  {
    var last, chosen, end := Ending(env, req);
    EndAccounts(env, req, ActiveNodes(env, req), last, chosen, end, DecryptRun(env, req));
  }

  lemma {:induction false} EndAccounts(
    env: Env, req: DecryptRequest, active: seq<Node>, last: State, chosen: seq<Node>, end: RoundEnd, run: Run)
    requires EndsFrom(env, req, active, last, chosen, end, run)
    ensures Partition(req.nodes, run.end.available, run.end.faults)
    ensures run.end.rounds <= (if |active| < req.threshold then 0 else |active| - req.threshold + 1)
    ensures |run.end.history| <= run.end.rounds * req.threshold
    ensures run.result.Err? && run.result.error.QuorumUnavailable? ==>
              var error := run.result.error;
              QuorumFailureExplained(req, run, error.needed, error.active, error.faults)
  {
    if req.threshold <= |last.available| {
      assert |run.end.history| <= |last.history| + req.threshold;
      OneMoreRound(last.rounds, req.threshold);
    }
  }

  ghost predicate GoesOn(env: Env, req: DecryptRequest, st: State)
    requires DrawsInRange(env)
  {
    |st.available| >= req.threshold && Round(env, req, st).Dropped?
  }

  ghost function NextHead(env: Env, req: DecryptRequest, st: State): State
    requires DrawsInRange(env) && GoesOn(env, req, st)
  {
    var end := Round(env, req, st);
    end.st.(available := Without(end.st.available, end.bad))
  }

  ghost predicate LeadsTo(env: Env, req: DecryptRequest, before: State, after: State)
    requires DrawsInRange(env)
  {
    GoesOn(env, req, before) && after == NextHead(env, req, before)
  }

  /** The states at the head of the loop, from the first on. */
  ghost predicate LoopHeads(env: Env, req: DecryptRequest, heads: seq<State>)
    requires DrawsInRange(env)
  {
    && heads != [] && heads[0] == Start(env, req)
    && forall k, m | 0 <= k && m == k + 1 < |heads| :: LeadsTo(env, req, heads[k], heads[m])
  }

  /** The last node asked, which gave no answer or one for another epoch, and is blamed for that. */
  ghost predicate Blamed(req: DecryptRequest, ex: Exchange, fault: Fault) {
    && fault.index == ex.node.index && fault.endpoint == ex.node.endpoint
    && match ex.reply
       case Unreachable => fault.stage == PartialDecrypt
       case Served(epoch, _, _) => fault.stage == EpochMismatch && epoch != 0 && epoch != req.epoch
  }

  /** A round that goes on removes exactly one node, the last it asked, and adds exactly its fault. */
  ghost predicate DropsOne(req: DecryptRequest, before: State, after: State) {
    && |after.faults| == |before.faults| + 1 && before.faults <= after.faults
    && before.history < after.history
    && var fault := after.faults[|before.faults|];
       && Blamed(req, after.history[|after.history| - 1], fault)
       && fault.index in Indices(before.available) && after.available == Without(before.available, fault.index)
       && |after.available| == |before.available| - 1
  }

  lemma {:induction false} RoundDropsOne(env: Env, req: DecryptRequest, st: State, chosen: seq<Node>, end: RoundEnd)
    requires Distinct(Indices(st.available)) && RoundFacts(env, req, st, chosen, end) && end.Dropped?
    ensures DropsOne(req, st, end.st.(available := Without(end.st.available, end.bad)))
    ensures end.st.rounds == st.rounds + 1
  {
    var h := end.st.history;
    assert h[|h| - 1].node in st.available;
    IndexOfNode(st.available, h[|h| - 1].node);
    WithoutOne(st.available, end.bad);
  }

  lemma {:induction false} NextHeadFollows(env: Env, req: DecryptRequest, st: State)
    requires DrawsInRange(env) && GoesOn(env, req, st) && Distinct(Indices(st.available))
    ensures DropsOne(req, st, NextHead(env, req, st)) && NextHead(env, req, st).rounds == st.rounds + 1
    ensures Rounds(env, req, NextHead(env, req, st)) == Rounds(env, req, st)
  {
    RoundHasFacts(env, req, st);
    RoundDropsOne(env, req, st, ChosenQuorum(env, req, st), Round(env, req, st));
    ChosenAreAvailable(env, req, st);
  }

  /** After `k` rounds, with `run` what comes of the call from here. */
  ghost predicate AtHead(env: Env, req: DecryptRequest, active: seq<Node>, run: Run, k: nat, st: State)
    requires DrawsInRange(env)
  {
    Inv(env, req, active, st) && st.rounds == k && Rounds(env, req, st) == run
  }

  lemma {:induction false} NextAtHead(env: Env, req: DecryptRequest, active: seq<Node>, run: Run, k: nat, st: State)
    requires DrawsInRange(env) && Distinct(Indices(active)) && AtHead(env, req, active, run, k, st)
               && GoesOn(env, req, st)
    ensures AtHead(env, req, active, run, k + 1, NextHead(env, req, st)) && DropsOne(req, st, NextHead(env, req, st))
  {
    DropKeepsInv(env, req, active, st);
    NextHeadFollows(env, req, st);
  }

  lemma {:induction false} HeadIsAtHead(
    env: Env, req: DecryptRequest, active: seq<Node>, run: Run, heads: seq<State>, k: nat)
    requires DrawsInRange(env) && Distinct(Indices(active)) && LoopHeads(env, req, heads) && k < |heads|
    requires AtHead(env, req, active, run, 0, heads[0])
    ensures AtHead(env, req, active, run, k, heads[k])
    ensures k > 0 ==> DropsOne(req, heads[k - 1], heads[k])
  {
    if k > 0 {
      HeadIsAtHead(env, req, active, run, heads, k - 1);
      assert LeadsTo(env, req, heads[k - 1], heads[k]);
      NextAtHead(env, req, active, run, k - 1, heads[k - 1]);
    }
  }

  /** At every loop head of every run the probed nodes are split into available and faulted, one
      node and one fault a round; and what is left to do from there is the rest of the call. */
  lemma {:induction false} EveryLoopHead(env: Env, req: DecryptRequest, heads: seq<State>, k: nat)
    requires WellFormed(req) && DrawsInRange(env) && LoopHeads(env, req, heads) && k < |heads|
    ensures var st := heads[k];
            && Partition(req.nodes, st.available, st.faults)
            && st.rounds == k && |st.available| == |ActiveNodes(env, req)| - k && |st.history| <= k * req.threshold
            && Rounds(env, req, st) == DecryptRun(env, req)
    ensures k > 0 ==> DropsOne(req, heads[k - 1], heads[k])
    ensures k == 0 ==> Probed(env, req.nodes, heads[k].available, heads[k].faults)
  {
    if k == 0 {
      ProbedMeaning(env, req.nodes);
    }
    StartInv(env, req);
    HeadIsAtHead(env, req, ActiveNodes(env, req), DecryptRun(env, req), heads, k);
  }

  // ---------- rotations ----------

  predicate Rotated(run: Run) {
    run.result.Err? && run.result.error.EpochRotated?
  }

  /** The vote count behind each epoch when the call ends. */
  ghost function Backing(req: DecryptRequest, run: Run, e: nat): nat {
    |Voters(req, run.end.history, e)|
  }

  lemma {:induction false} EndIsTallied(
    env: Env, req: DecryptRequest, active: seq<Node>, last: State, chosen: seq<Node>, end: RoundEnd, run: Run)
    requires EndsFrom(env, req, active, last, chosen, end, run)
    ensures Tallied(req, run.end.votes, run.end.history)
  {
    if req.threshold <= |last.available| {
      LastRoundIsTallied(env, req, active, last, chosen, end);
    }
  }

  lemma {:induction false} LastRoundIsTallied(
    env: Env, req: DecryptRequest, active: seq<Node>, last: State, chosen: seq<Node>, end: RoundEnd)
    requires Tallied(req, last.votes, last.history) && FailedAreGone(env, req, active, last)
    requires RoundFacts(env, req, last, chosen, end) && !end.Dropped?
    ensures Tallied(req, end.st.votes, end.st.history)
  {
    if end.Stopped? && end.error.EpochRotated? {
      RoundIsTallied(env, req, active, last, chosen, end);
    } else {
      GoodRoundKeepsTally(req, last.votes, end.st.history, |last.history|);
    }
  }

  lemma {:induction false} GoodRoundKeepsTally(req: DecryptRequest, votes: Votes, h: History, n: nat)
    requires n <= |h| && AllGood(req, h, n, |h|) && Tallied(req, votes, h[..n])
    ensures Tallied(req, votes, h)
  {
    forall e: nat
      ensures Voters(req, h, e) == Voters(req, h[..n], e)
    {
      GoodRepliesDoNotVote(req, h, n, |h|, e);
      assert h[..|h|] == h;
    }
  }

  /** The voters for an epoch are active nodes that are no longer asked, so they and the
      available nodes together are no more than the active ones. */
  lemma {:induction false} VotersAreSpent(env: Env, req: DecryptRequest, active: seq<Node>, st: State, e: nat)
    requires Inv(env, req, active, st) && Distinct(Indices(active))
    ensures |Voters(req, st.history, e)| + |st.available| <= |active|
  {
    var voters, left := Voters(req, st.history, e), Elements(Indices(st.available));
    forall x | x in voters
      ensures x in Elements(Indices(active)) && x !in left
    {
      var i :| 0 <= i < |st.history| && Divergent(req, st.history[i].reply) && st.history[i].node.index == x;
      assert RequestOk(env, req, active, st.history, i);
      IndexOfNode(active, st.history[i].node);
      assert !Good(req, st.history[i].reply);
    }
    forall x | x in left
      ensures x in Elements(Indices(active))
    {
      var k :| 0 <= k < |st.available| && Indices(st.available)[k] == x;
      assert st.available[k] in active;
      IndexOfNode(active, st.available[k]);
    }
    SamplingCounts.DistinctSize(Indices(active));
    SamplingCounts.DistinctSize(Indices(st.available));
    SubsetSize(voters + left, Elements(Indices(active)));
    assert |voters + left| == |voters| + |left|;
  }

  ghost predicate MostBacked(votes: Votes, served: nat) {
    forall e: nat :: Count(votes, e) < Count(votes, served) || (Count(votes, e) == Count(votes, served) && e <= served)
  }

  /** In the loop the reported epoch has just gained its `threshold`-th vote; after the loop
      it is the best of those that fell short. */
  lemma {:induction false} RotationIsDominant(
    env: Env, req: DecryptRequest, active: seq<Node>, last: State, chosen: seq<Node>, end: RoundEnd, run: Run)
    requires EndsFrom(env, req, active, last, chosen, end, run) && 0 < req.threshold
    ensures Rotated(run) ==>
              && run.result.error.provided == req.epoch
              && run.result.error.served in run.end.votes && MostBacked(run.end.votes, run.result.error.served)
    ensures Rotated(run) && |last.available| >= req.threshold ==>
              Count(run.end.votes, run.result.error.served) == req.threshold ==
                Count(last.votes, run.result.error.served) + 1
    ensures Rotated(run) && |last.available| < req.threshold ==>
              Count(run.end.votes, run.result.error.served) < req.threshold == |last.available| + 1
    ensures !(Rotated(run) && |last.available| >= req.threshold) ==>
              forall e: nat :: Count(run.end.votes, e) < req.threshold
  {
    if Rotated(run) {
      var served, votes := run.result.error.served, run.end.votes;
      if req.threshold <= |last.available| {
        assert forall e: nat | e != served :: Count(votes, e) == Count(last.votes, e) < req.threshold;
      } else {
        DominantIsMostBacked(votes, served);
      }
    }
  }

  lemma {:induction false} DominantIsMostBacked(votes: Votes, served: nat)
    requires LargestDominant(votes, served) && votes[served] > 0
    ensures MostBacked(votes, served)
  {
    forall e: nat
      ensures Count(votes, e) < Count(votes, served) || (Count(votes, e) == Count(votes, served) && e <= served)
    {
      if e in votes && votes[e] == votes[served] {
        assert Dominant(votes, e);
      }
    }
  }

  /** A rotation names the epoch with the most voters, the largest on a tie. Either
      `threshold` distinct nodes served that epoch, which takes at least `2 * threshold - 1`
      active nodes, or the client ran out of nodes and fewer than `threshold` did. */
  ghost predicate RotationExplained(req: DecryptRequest, run: Run, active: nat, served: nat) {
    var t, backing, left := req.threshold, Backing(req, run, served), |run.end.available|;
    && served != 0 && served != req.epoch && 0 < backing <= t
    && (forall e: nat :: Backing(req, run, e) < backing || (Backing(req, run, e) == backing && e <= served))
    && (backing == t ==> left >= t && active >= 2 * t - 1)
    && (backing < t ==> left == t - 1)
  }

  lemma {:induction false} RotationSoundness(env: Env, req: DecryptRequest)
    requires WellFormed(req) && DrawsInRange(env)
    ensures var run := DecryptRun(env, req);
            && (Rotated(run) ==> run.result.error.provided == req.epoch
                                 && RotationExplained(req, run, |ActiveNodes(env, req)|, run.result.error.served))
            && ((exists e: nat :: Backing(req, run, e) >= req.threshold) <==>
                 Rotated(run) && |run.end.available| >= req.threshold)
  {
    var run, active := DecryptRun(env, req), ActiveNodes(env, req);
    var last, chosen, end := Ending(env, req);
    EndIsTallied(env, req, active, last, chosen, end, run);
    RotationIsDominant(env, req, active, last, chosen, end, run);
    RotationFromTally(env, req, active, last, run);
  }

  lemma {:induction false} RotationFromTally(env: Env, req: DecryptRequest, active: seq<Node>, last: State, run: Run)
    requires Inv(env, req, active, last) && Distinct(Indices(active)) && Tallied(req, run.end.votes, run.end.history)
    requires run.end.available == last.available
    requires Rotated(run) ==>
               run.result.error.served in run.end.votes && MostBacked(run.end.votes, run.result.error.served)
    requires Rotated(run) && |last.available| >= req.threshold ==>
              Count(run.end.votes, run.result.error.served) == req.threshold ==
                Count(last.votes, run.result.error.served) + 1
    requires Rotated(run) && |last.available| < req.threshold ==>
              Count(run.end.votes, run.result.error.served) < req.threshold == |last.available| + 1
    requires !(Rotated(run) && |last.available| >= req.threshold) ==>
               forall e: nat :: Count(run.end.votes, e) < req.threshold
    ensures Rotated(run) ==> RotationExplained(req, run, |active|, run.result.error.served)
    ensures (exists e: nat :: Backing(req, run, e) >= req.threshold) <==>
              Rotated(run) && |run.end.available| >= req.threshold
  {
    assert forall e: nat :: Backing(req, run, e) == Count(run.end.votes, e);
    if Rotated(run) {
      VotersAreSpent(env, req, active, last, run.result.error.served);
      assert Backing(req, run, run.result.error.served) == Count(run.end.votes, run.result.error.served);
    }
  }

  /** A committee too small to outvote its own threshold twice over can never confirm a
      rotation: every one it reports rests on fewer than `threshold` nodes. */
  lemma {:induction false} SmallCommitteeCannotConfirm(env: Env, req: DecryptRequest)
    requires WellFormed(req) && DrawsInRange(env)
    requires |ActiveNodes(env, req)| < 2 * req.threshold - 1
    ensures var run := DecryptRun(env, req);
            Rotated(run) ==> Backing(req, run, run.result.error.served) < req.threshold
  {
    RotationSoundness(env, req);
  }

  // ---------- requests and hand-off ----------

  /** Every request of every run is one that its recipient may be sent. */
  lemma {:induction false} RequestContract(env: Env, req: DecryptRequest)
    requires WellFormed(req) && DrawsInRange(env)
    ensures RequestsOk(env, req, ActiveNodes(env, req), DecryptRun(env, req).end.history)
  {
    var last, chosen, end := Ending(env, req);
    if req.threshold <= |last.available| {
      RoundRequestsOk(env, req, ActiveNodes(env, req), last, chosen, end);
    }
  }

  lemma {:induction false} ActiveAreNodes(env: Env, nodes: seq<Node>, replies: seq<HealthReply>)
    requires |replies| == |nodes|
    ensures forall n | n in Active(env, nodes, replies) :: n in nodes
    decreases |nodes|
  {
    if nodes != [] {
      ActiveAreNodes(env, nodes[..|nodes| - 1], replies[..|nodes| - 1]);
    }
  }

  /** The core gets one partial from each member of the last quorum, in the order of the
      subset that all of them were sent, with the commitments read from the chain; it never
      rejects their points. */
  ghost predicate HandedOff(env: Env, req: DecryptRequest, h: History, partials: seq<PartialInput>) {
    var n := |h| - req.threshold;
    && |partials| == req.threshold <= |h| && UsablePoints(Points(partials))
    && forall j | 0 <= j < |partials| ::
         && h[n + j].node in req.nodes && h[n + j].request.subset == Points(partials) && Good(req, h[n + j].reply)
         && partials[j].point == h[n + j].node.index && partials[j].commitment == h[n + j].node.shareCommitment
         && env.fromHex(h[n + j].reply.partial) == Some(partials[j].partial)
         && env.fromHex(h[n + j].reply.proof) == Some(partials[j].proof)
  }

  lemma {:induction false} HandOffContract(env: Env, req: DecryptRequest)
    requires WellFormed(req) && DrawsInRange(env)
    ensures var run := DecryptRun(env, req);
            && (run.result.Ok? ==> run.handedOff.Some?)
            && (run.handedOff.Some? ==>
                 && HandedOff(env, req, run.end.history, run.handedOff.value)
                 && run.result == (match env.open(req, run.handedOff.value)
                                   case Ok(plaintext) => Ok(plaintext)
                                   case Err(e) => Err(Core(e))))
  {
    var run := DecryptRun(env, req);
    var last, chosen, end := Ending(env, req);
    if req.threshold <= |last.available| && end.Collected? {
      ActiveAreNodes(env, req.nodes, HealthReplies(env, req.nodes));
      forall k | 0 <= k < |chosen|
        ensures chosen[k] in req.nodes
      {
        assert chosen[k] in last.available;
      }
      LastQuorumHandedOff(env, req, last, chosen, end);
    }
  }

  lemma {:induction false} LastQuorumHandedOff(
    env: Env, req: DecryptRequest, last: State, chosen: seq<Node>, end: RoundEnd)
    requires WellFormed(req) && RoundFacts(env, req, last, chosen, end) && end.Collected?
    requires forall k | 0 <= k < |chosen| :: chosen[k] in req.nodes
    ensures HandedOff(env, req, end.st.history, end.partials)
  {
    assert end.partials == end.partials[0..];
    DecodedQuorum(env, req, chosen, end.st.history, |last.history|, end.partials);
  }

  lemma {:induction false} DecodedQuorum(
    env: Env, req: DecryptRequest, chosen: seq<Node>, h: History, n: nat, partials: seq<PartialInput>)
    requires WellFormed(req) && |chosen| == req.threshold && Ascending(Indices(chosen))
    requires forall k | 0 <= k < |chosen| :: chosen[k] in req.nodes
    requires |h| == n + |chosen| && Asks(env, req, chosen, 0, n, h) && AllGood(req, h, n, |h|)
               && Decoded(env, h, n, partials)
    ensures HandedOff(env, req, h, partials)
  {
    forall j | 0 <= j < |partials|
      ensures Points(partials)[j] == Indices(chosen)[j] && Points(partials)[j] != 0
    {
      assert h[n + j].node == chosen[j];
      IndexOfNode(req.nodes, chosen[j]);
    }
    assert Points(partials) == Indices(chosen);
  }

  // ---------- liveness ----------

  /** No request fails before it is sent and no served reply is malformed hex. */
  ghost predicate NoAborts(env: Env) {
    && (forall i: nat, s: seq<nat> :: env.lagrange(i, s).Ok?)
    && (forall h: History, s: SigningRequest :: env.authorize(h, s).Ok?)
    && (forall h: History, e: string, r: Request | env.answer(h, e, r).Served? ::
          env.fromHex(env.answer(h, e, r).partial).Some? && env.fromHex(env.answer(h, e, r).proof).Some?)
  }

  /** Whatever happened before, these nodes answer for the client's epoch. */
  ghost predicate Honest(env: Env, req: DecryptRequest, honest: set<nat>) {
    forall n, h: History, r: Request | n in ActiveNodes(env, req) && n.index in honest ::
      Good(req, env.answer(h, n.endpoint, r))
  }

  /** Only the nodes in `liars(e)` ever serve another epoch `e`, and they are too few to
      outvote the client. */
  ghost predicate TooFewLiars(env: Env, req: DecryptRequest, liars: nat -> set<nat>) {
    && (forall e: nat :: |liars(e)| < req.threshold)
    && (forall n, h: History, r: Request | n in ActiveNodes(env, req) && Divergent(req, env.answer(h, n.endpoint, r)) ::
          n.index in liars(env.answer(h, n.endpoint, r).epoch))
  }

  /** Whatever quorums are drawn and whatever the other nodes do, the core is handed a full
      quorum of partials and its verdict is the result: never a rotation, never an
      unavailable quorum. */
  lemma {:induction false} QuorumLiveness(env: Env, req: DecryptRequest, honest: set<nat>, liars: nat -> set<nat>)
    requires WellFormed(req) && DrawsInRange(env) && NoAborts(env)
    requires honest <= Elements(Indices(ActiveNodes(env, req))) && |honest| >= req.threshold && Honest(env, req, honest)
    requires TooFewLiars(env, req, liars)
    ensures var run := DecryptRun(env, req);
            && run.handedOff.Some? && |run.handedOff.value| == req.threshold
            && (run.result.Ok?
                || (run.result.error.Core? && env.open(req, run.handedOff.value) == Err(run.result.error.error)))
  {
    var active, run := ActiveNodes(env, req), DecryptRun(env, req);
    var last, chosen, end := Ending(env, req);
    EnoughNodesLeft(env, req, active, last, honest);
    RequestContract(env, req);
    EndIsTallied(env, req, active, last, chosen, end, run);
    NoRotation(env, req, active, run.end, liars);
    RoundCollects(env, req, active, last, chosen, end);
    HandOffContract(env, req);
  }

  lemma {:induction false} EnoughNodesLeft(
    env: Env, req: DecryptRequest, active: seq<Node>, last: State, honest: set<nat>)
    requires Inv(env, req, active, last) && active == ActiveNodes(env, req)
    requires honest <= Elements(Indices(active)) && |honest| >= req.threshold && Honest(env, req, honest)
    ensures req.threshold <= |last.available|
  {
    HonestStay(env, req, active, last, honest);
    SamplingCounts.DistinctSize(Indices(last.available));
    SubsetSize(honest, Elements(Indices(last.available)));
  }

  /** Honest nodes are never dropped. */
  lemma {:induction false} HonestStay(env: Env, req: DecryptRequest, active: seq<Node>, st: State, honest: set<nat>)
    requires FailedAreGone(env, req, active, st) && RequestsOk(env, req, active, st.history)
    requires active == ActiveNodes(env, req) && Honest(env, req, honest) && honest <= Elements(Indices(active))
    ensures honest <= Elements(Indices(st.available))
  {
    var h := st.history;
    forall i | 0 <= i < |h| && h[i].node.index in honest
      ensures Good(req, h[i].reply)
    {
      assert RequestOk(env, req, active, h, i);
    }
    forall x | x in honest
      ensures x in Elements(Indices(st.available))
    {
      var k :| 0 <= k < |active| && Indices(active)[k] == x;
      assert active[k] in st.available;
      IndexOfNode(st.available, active[k]);
    }
  }

  /** The liars do not outvote the client. */
  lemma {:induction false} NoRotation(
    env: Env, req: DecryptRequest, active: seq<Node>, end: State, liars: nat -> set<nat>)
    requires active == ActiveNodes(env, req) && RequestsOk(env, req, active, end.history)
               && TooFewLiars(env, req, liars)
    requires Tallied(req, end.votes, end.history)
    ensures forall e: nat :: Count(end.votes, e) < req.threshold
  {
    var h := end.history;
    forall i | 0 <= i < |h| && Divergent(req, h[i].reply)
      ensures h[i].node.index in liars(h[i].reply.epoch)
    {
      assert RequestOk(env, req, active, h, i);
    }
    forall e: nat
      ensures Count(end.votes, e) < req.threshold
    {
      SubsetSize(Voters(req, h, e), liars(e));
    }
  }

  lemma {:induction false} RoundCollects(
    env: Env, req: DecryptRequest, active: seq<Node>, last: State, chosen: seq<Node>, end: RoundEnd)
    requires RoundFacts(env, req, last, chosen, end) && !end.Dropped? && NoAborts(env)
    requires forall e: nat :: Count(end.st.votes, e) < req.threshold
    requires RequestsOk(env, req, active, end.st.history)
    ensures end.Collected?
  {
    var h := end.st.history;
    forall i | 0 <= i < |h| && h[i].reply.Served?
      ensures env.fromHex(h[i].reply.partial).Some? && env.fromHex(h[i].reply.proof).Some?
    {
      assert RequestOk(env, req, active, h, i);
    }
  }
}
