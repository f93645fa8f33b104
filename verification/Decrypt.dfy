/** The threshold-decrypt quorum loop: probe, draw a quorum, sign and query each member,
    drop a node that fails or serves another epoch, re-form the quorum.

    Everything outside the client is an arbitrary function of what has happened so far, so
    a property proved for every environment holds for nodes that change their answers from
    call to call and conspire on the history. */
module Decrypt {
  import opened Wrappers
  import opened Sampling
  import opened Committee
  import opened RotationReport

  datatype FaultStage = Health | Inactive | PartialDecrypt | EpochMismatch | ProtocolVersion

  datatype Fault = Fault(index: nat, endpoint: string, stage: FaultStage)

  datatype SdkError =
    | Core(error: CoreError)
    | SignerRefused(detail: string)
    | QuorumUnavailable(needed: nat, active: nat, faults: seq<Fault>)
    | EpochRotated(served: nat, provided: nat)

  datatype DecryptRequest = DecryptRequest(
    secretId: nat, epoch: nat, bindingId: Bytes, aad: Bytes, capsule: Bytes, ct: Bytes,
    sharedA: Bytes, blockHash: Bytes, threshold: nat, nodes: seq<Node>)

  datatype HealthReply = NoAnswer | Answered(status: string, version: nat)

  datatype SigningRequest = SigningRequest(secretId: nat, subset: seq<nat>, recipient: nat, blockHash: Bytes)

  datatype Request = Request(secretId: nat, subset: seq<nat>, lambda: Bytes, blockHash: Bytes, auth: Bytes)

  /** `Served` carries the epoch and the two hex fields of a node's answer. */
  datatype Reply = Unreachable | Served(epoch: nat, partial: string, proof: string)

  datatype Exchange = Exchange(node: Node, request: Request, reply: Reply)

  type History = seq<Exchange>

  /** The outside world: nodes, random draws, signer, Lagrange coefficients, hex decoding
      and the cryptographic core. */
  datatype Env = Env(
    protocolVersion: nat,
    health: (seq<HealthReply>, string) -> HealthReply,
    draws: (History, nat, nat) -> seq<nat>,
    lagrange: (nat, seq<nat>) -> Result<Bytes, CoreError>,
    authorize: (History, SigningRequest) -> Result<Bytes, string>,
    answer: (History, string, Request) -> Reply,
    fromHex: string -> Option<Bytes>,
    open: (DecryptRequest, seq<PartialInput>) -> Result<Bytes, CoreError>)

  /** What the random source owes the client: `threshold` draws, each below its bound. */
  ghost predicate DrawsInRange(env: Env) {
    forall h, n: nat, t: nat | t <= n :: |env.draws(h, n, t)| == t && ValidDraws(env.draws(h, n, t), n)
  }

  /** A committee as the chain seats it: 1-based, pairwise distinct evaluation points. */
  ghost predicate WellFormed(req: DecryptRequest) {
    0 < req.threshold && Distinct(Indices(req.nodes)) && 0 !in Indices(req.nodes)
  }

  // ---------- health probes ----------

  predicate SpeaksOurProtocol(env: Env, version: nat) {
    version == 0 || version == env.protocolVersion
  }

  predicate Usable(env: Env, reply: HealthReply) {
    reply.Answered? && SpeaksOurProtocol(env, reply.version) && reply.status == "active"
  }

  function ProbeFault(env: Env, node: Node, reply: HealthReply): Fault
    requires !Usable(env, reply)
  {
    Fault(node.index, node.endpoint,
          if reply.NoAnswer? then Health
          else if !SpeaksOurProtocol(env, reply.version) then ProtocolVersion
          else Inactive)
  }

  /** The replies of the probes, each probe made after the ones before it. */
  ghost function HealthReplies(env: Env, nodes: seq<Node>): (replies: seq<HealthReply>)
    ensures |replies| == |nodes|
  {
    if nodes == [] then []
    else
      var before := HealthReplies(env, nodes[..|nodes| - 1]);
      before + [env.health(before, nodes[|nodes| - 1].endpoint)]
  }

  ghost function Active(env: Env, nodes: seq<Node>, replies: seq<HealthReply>): (active: seq<Node>)
    requires |replies| == |nodes|
  {
    if nodes == [] then []
    else
      var last := |nodes| - 1;
      Active(env, nodes[..last], replies[..last]) + if Usable(env, replies[last]) then [nodes[last]] else []
  }

  ghost function ProbeFaults(env: Env, nodes: seq<Node>, replies: seq<HealthReply>): seq<Fault>
    requires |replies| == |nodes|
  {
    if nodes == [] then []
    else
      var last := |nodes| - 1;
      ProbeFaults(env, nodes[..last], replies[..last]) +
      if Usable(env, replies[last]) then [] else [ProbeFault(env, nodes[last], replies[last])]
  }

  /** `up` are the positions of the nodes that report themselves active, in the client's protocol
      version or in none, and `down` all the others; each of these has its one fault. */
  ghost predicate SortedOut(
    env: Env, nodes: seq<Node>, replies: seq<HealthReply>, up: seq<nat>, down: seq<nat>,
    active: seq<Node>, faults: seq<Fault>)
    requires |replies| == |nodes|
  {
    && Ascending(up) && Ascending(down) && |active| == |up| && |faults| == |down|
    && (forall i | 0 <= i < |nodes| ::
          && (i in up <==> replies[i] == Answered("active", 0) || replies[i] == Answered("active", env.protocolVersion))
          && (i in down <==> i !in up))
    && (forall k | 0 <= k < |up| :: up[k] < |nodes| && active[k] == nodes[up[k]])
    && forall k | 0 <= k < |down| ::
         && down[k] < |nodes|
         && faults[k].index == nodes[down[k]].index && faults[k].endpoint == nodes[down[k]].endpoint
         && match replies[down[k]]
            case NoAnswer => faults[k].stage == Health
            case Answered(_, version) =>
              faults[k].stage == if version != 0 && version != env.protocolVersion then ProtocolVersion else Inactive
  }

  lemma {:induction false} LastIsUp(
    env: Env, nodes: seq<Node>, replies: seq<HealthReply>, up: seq<nat>, down: seq<nat>,
    active: seq<Node>, faults: seq<Fault>)
    requires |replies| == |nodes| && nodes != []
    requires var n := |nodes| - 1;
             Usable(env, replies[n]) && SortedOut(env, nodes[..n], replies[..n], up, down, active, faults)
    ensures var n := |nodes| - 1;
            SortedOut(env, nodes, replies, up + [n], down, active + [nodes[n]], faults)
  {
    assert forall i :: i in up + [|nodes| - 1] <==> i in up || i == |nodes| - 1;
  }

  lemma {:induction false} LastIsDown(
    env: Env, nodes: seq<Node>, replies: seq<HealthReply>, up: seq<nat>, down: seq<nat>,
    active: seq<Node>, faults: seq<Fault>)
    requires |replies| == |nodes| && nodes != []
    requires var n := |nodes| - 1;
             !Usable(env, replies[n]) && SortedOut(env, nodes[..n], replies[..n], up, down, active, faults)
    ensures var n := |nodes| - 1;
            SortedOut(env, nodes, replies, up, down + [n], active, faults + [ProbeFault(env, nodes[n], replies[n])])
  {
    assert forall i :: i in down + [|nodes| - 1] <==> i in down || i == |nodes| - 1;
  }

  lemma {:induction false} ProbesSortOut(env: Env, nodes: seq<Node>, replies: seq<HealthReply>)
    returns (up: seq<nat>, down: seq<nat>)
    requires |replies| == |nodes|
    ensures SortedOut(env, nodes, replies, up, down, Active(env, nodes, replies), ProbeFaults(env, nodes, replies))
    decreases |nodes|
  {
    if nodes == [] {
      return [], [];
    }
    var n := |nodes| - 1;
    var active, faults := Active(env, nodes[..n], replies[..n]), ProbeFaults(env, nodes[..n], replies[..n]);
    up, down := ProbesSortOut(env, nodes[..n], replies[..n]);
    if Usable(env, replies[n]) {
      LastIsUp(env, nodes, replies, up, down, active, faults);
      assert faults + [] == faults;
      up := up + [n];
    } else {
      LastIsDown(env, nodes, replies, up, down, active, faults);
      assert active + [] == active;
      down := down + [n];
    }
  }

  /** Each node's answer to its own probe, after the ones before it. */
  ghost predicate AnswersInTurn(env: Env, nodes: seq<Node>, replies: seq<HealthReply>)
    requires |replies| == |nodes|
  {
    forall i | 0 <= i < |nodes| :: replies[i] == env.health(replies[..i], nodes[i].endpoint)
  }

  lemma {:induction false} RepliesAreInTurn(env: Env, nodes: seq<Node>)
    ensures AnswersInTurn(env, nodes, HealthReplies(env, nodes))
    decreases |nodes|
  {
    if nodes != [] {
      var last := |nodes| - 1;
      var replies, before := HealthReplies(env, nodes), HealthReplies(env, nodes[..last]);
      RepliesAreInTurn(env, nodes[..last]);
      forall i | 0 <= i < |nodes|
        ensures replies[..i] == before[..i]
      {
      }
      assert before[..last] == before;
    }
  }

  /** Every node is asked once, in order, and sorted out by its answer alone. */
  ghost predicate Probed(env: Env, nodes: seq<Node>, active: seq<Node>, faults: seq<Fault>) {
    exists replies, up, down ::
      |replies| == |nodes| && AnswersInTurn(env, nodes, replies)
      && SortedOut(env, nodes, replies, up, down, active, faults)
  }

  lemma {:induction false} ProbedMeaning(env: Env, nodes: seq<Node>)
    ensures var replies := HealthReplies(env, nodes);
            Probed(env, nodes, Active(env, nodes, replies), ProbeFaults(env, nodes, replies))
  {
    RepliesAreInTurn(env, nodes);
    var up, down := ProbesSortOut(env, nodes, HealthReplies(env, nodes));
  }

  method Probe(env: Env, nodes: seq<Node>) returns (active: seq<Node>, faults: seq<Fault>)
    ensures Probed(env, nodes, active, faults)
    ensures active == Active(env, nodes, HealthReplies(env, nodes))
    ensures faults == ProbeFaults(env, nodes, HealthReplies(env, nodes))
  {
    active, faults := [], [];
    var replies: seq<HealthReply> := [];
    for i := 0 to |nodes|
      invariant replies == HealthReplies(env, nodes[..i])
      invariant active == Active(env, nodes[..i], replies)
      invariant faults == ProbeFaults(env, nodes[..i], replies)
    {
      var node := nodes[i];
      var reply := env.health(replies, node.endpoint);
      assert nodes[..i + 1][..i] == nodes[..i] && (replies + [reply])[..i] == replies;
      if reply.Answered? && !SpeaksOurProtocol(env, reply.version) {
        faults := faults + [Fault(node.index, node.endpoint, ProtocolVersion)];
      } else if reply.Answered? && reply.status == "active" {
        active := active + [node];
      } else if reply.Answered? {
        faults := faults + [Fault(node.index, node.endpoint, Inactive)];
      } else {
        faults := faults + [Fault(node.index, node.endpoint, Health)];
      }
      replies := replies + [reply];
    }
    assert nodes[..|nodes|] == nodes;
    ProbedMeaning(env, nodes);
  }

  // ---------- one round ----------

  /** What the loop carries from round to round; `history` and `rounds` record the run. */
  datatype State = State(available: seq<Node>, faults: seq<Fault>, votes: Votes, history: History, rounds: nat)

  datatype RoundEnd =
    | Collected(st: State, partials: seq<PartialInput>)
    | Dropped(st: State, bad: nat)
    | Stopped(st: State, error: SdkError)

  /** The reply is for another epoch: a vote for a rotation. Epoch 0 comes from older
      nodes and stands for the current one. */
  predicate Divergent(req: DecryptRequest, reply: Reply) {
    reply.Served? && reply.epoch != 0 && reply.epoch != req.epoch
  }

  function Count(votes: Votes, e: nat): nat {
    if e in votes then votes[e] else 0
  }

  /** A request to `node` carries the secret, the block, the recipient's coefficient in the
      subset that it names, and a signature over just that, made after the exchanges `before`. */
  ghost predicate Carries(env: Env, req: DecryptRequest, before: History, node: Node, request: Request) {
    && request.secretId == req.secretId && request.blockHash == req.blockHash
    && env.lagrange(node.index, request.subset) == Ok(request.lambda)
    && env.authorize(before, SigningRequest(req.secretId, request.subset, node.index, req.blockHash))
       == Ok(request.auth)
  }

  /** No coefficient for the node, or no signature: the error is the core's or the signer's. */
  ghost predicate CannotAsk(env: Env, req: DecryptRequest, subset: seq<nat>, node: Node, h: History, error: SdkError) {
    || (error.Core? && env.lagrange(node.index, subset) == Err(error.error))
    || (&& error.SignerRefused? && env.lagrange(node.index, subset).Ok?
        && env.authorize(h, SigningRequest(req.secretId, subset, node.index, req.blockHash)) == Err(error.detail))
  }

  /** The request for one member of the quorum, or why it cannot be made. */
  function MakeRequest(
    env: Env, req: DecryptRequest, subset: seq<nat>, node: Node, history: History): (r: Result<Request, SdkError>)
    ensures r.Ok? ==> r.value.subset == subset && Carries(env, req, history, node, r.value)
    ensures r.Err? ==> CannotAsk(env, req, subset, node, history, r.error)
  {
    match env.lagrange(node.index, subset)
    case Err(e) => Err(Core(e))
    case Ok(lambda) =>
      match env.authorize(history, SigningRequest(req.secretId, subset, node.index, req.blockHash))
      case Err(detail) => Err(SignerRefused(detail))
      case Ok(auth) => Ok(Request(req.secretId, subset, lambda, req.blockHash, auth))
  }

  function ToPartial(env: Env, node: Node, reply: Reply): Result<PartialInput, CoreError>
    requires reply.Served?
  {
    match (env.fromHex(reply.partial), env.fromHex(reply.proof))
    case (Some(partial), Some(proof)) => Ok(PartialInput(node.index, partial, proof, node.shareCommitment))
    case _ => Err(Hex)
  }

  /** The members from the k-th on are still to be asked. */
  ghost function Query(
    env: Env, req: DecryptRequest, chosen: seq<Node>, k: nat, partials: seq<PartialInput>, st: State): (end: RoundEnd)
    requires k <= |chosen|
    ensures end.Dropped? ==>
              end.st.available == st.available && exists j :: k <= j < |chosen| && chosen[j].index == end.bad
    decreases |chosen| - k
  {
    if k == |chosen| then Collected(st, partials)
    else
      var node := chosen[k];
      match MakeRequest(env, req, Indices(chosen), node, st.history)
      case Err(error) => Stopped(st, error)
      case Ok(request) =>
        var reply := env.answer(st.history, node.endpoint, request);
        var asked := st.(history := st.history + [Exchange(node, request, reply)]);
        if reply.Unreachable? then
          Dropped(asked.(faults := st.faults + [Fault(node.index, node.endpoint, PartialDecrypt)]), node.index)
        else if Divergent(req, reply) then
          var votes := Count(st.votes, reply.epoch) + 1;
          var voted := asked.(votes := st.votes[reply.epoch := votes]);
          if votes >= req.threshold then Stopped(voted, EpochRotated(reply.epoch, req.epoch))
          else Dropped(voted.(faults := st.faults + [Fault(node.index, node.endpoint, EpochMismatch)]), node.index)
        else
          match ToPartial(env, node, reply)
          case Err(e) => Stopped(asked, Core(e))
          case Ok(partial) => Query(env, req, chosen, k + 1, partials + [partial], asked)
  }

  // ---------- all rounds ----------

  function Without(nodes: seq<Node>, bad: nat): (r: seq<Node>)
    ensures |r| <= |nodes| && forall n :: n in r <==> n in nodes && n.index != bad
    ensures (exists n | n in nodes :: n.index == bad) ==> |r| < |nodes|
  {
    if nodes == [] then []
    else (if nodes[0].index == bad then [] else [nodes[0]]) + Without(nodes[1..], bad)
  }

  /** The core checks the points before anything else. */
  ghost function OpenSecret(env: Env, req: DecryptRequest, partials: seq<PartialInput>): Result<Bytes, SdkError> {
    if !UsablePoints(Points(partials)) then Err(Core(InvalidSubset))
    else
      match env.open(req, partials)
      case Ok(plaintext) => Ok(plaintext)
      case Err(e) => Err(Core(e))
  }

  ghost function OutOfNodes(req: DecryptRequest, st: State): SdkError {
    match Reported(st.votes)
    case Some(served) => EpochRotated(served, req.epoch)
    case None => QuorumUnavailable(req.threshold, |st.available|, st.faults)
  }

  /** A finished run; `handedOff` is what the core was asked to open, if it was. */
  datatype Run = Run(result: Result<Bytes, SdkError>, end: State, handedOff: Option<seq<PartialInput>>)

  ghost function ChosenQuorum(env: Env, req: DecryptRequest, st: State): seq<Node>
    requires DrawsInRange(env) && req.threshold <= |st.available|
  {
    Quorum(st.available, env.draws(st.history, |st.available|, req.threshold))
  }

  lemma {:induction false} ChosenAreAvailable(env: Env, req: DecryptRequest, st: State)
    requires DrawsInRange(env) && req.threshold <= |st.available|
    ensures forall n | n in ChosenQuorum(env, req, st) :: n in st.available
  {
    var draws := env.draws(st.history, |st.available|, req.threshold);
    SampleFromPool(st.available, draws);
    var chosen := ChosenQuorum(env, req, st);
    assert forall n | n in chosen :: n in Elements(chosen);
  }

  ghost function Round(env: Env, req: DecryptRequest, st: State): RoundEnd
    requires DrawsInRange(env) && req.threshold <= |st.available|
  {
    Query(env, req, ChosenQuorum(env, req, st), 0, [], st.(rounds := st.rounds + 1))
  }

  ghost function Rounds(env: Env, req: DecryptRequest, st: State): Run
    requires DrawsInRange(env)
    decreases |st.available|
  {
    if |st.available| < req.threshold then Run(Err(OutOfNodes(req, st)), st, None)
    else
      match Round(env, req, st)
      case Collected(end, partials) => Run(OpenSecret(env, req, partials), end, Some(partials))
      case Stopped(end, error) => Run(Err(error), end, None)
      case Dropped(end, bad) =>
        ChosenAreAvailable(env, req, st);
        Rounds(env, req, end.(available := Without(end.available, bad)))
  }

  ghost function Start(env: Env, req: DecryptRequest): State {
    var replies := HealthReplies(env, req.nodes);
    State(Active(env, req.nodes, replies), ProbeFaults(env, req.nodes, replies), map[], [], 0)
  }

  ghost function DecryptRun(env: Env, req: DecryptRequest): Run
    requires DrawsInRange(env)
  {
    Rounds(env, req, Start(env, req))
  }

  /** The i-th exchange carries what it should, and its reply is what the node then answered. */
  ghost predicate Proper(env: Env, req: DecryptRequest, h: History, i: nat)
    requires i < |h|
  {
    Carries(env, req, h[..i], h[i].node, h[i].request)
    && h[i].reply == env.answer(h[..i], h[i].node.endpoint, h[i].request)
  }

  /** From `n` on, the history asks the quorum's members in turn, starting with the k-th. */
  ghost predicate Asks(env: Env, req: DecryptRequest, chosen: seq<Node>, k: nat, n: nat, h: History) {
    && n <= |h| <= n + |chosen| - k
    && forall i | n <= i < |h| ::
         h[i].node == chosen[k + i - n] && h[i].request.subset == Indices(chosen) && Proper(env, req, h, i)
  }

  lemma {:induction false} OneMoreAsked(
    env: Env, req: DecryptRequest, chosen: seq<Node>, n: nat, h: History, ex: Exchange)
    requires Asks(env, req, chosen, 0, n, h) && |h| < n + |chosen| && ex.node == chosen[|h| - n]
    requires ex.request.subset == Indices(chosen) && Carries(env, req, h, ex.node, ex.request)
    requires ex.reply == env.answer(h, ex.node.endpoint, ex.request)
    ensures Asks(env, req, chosen, 0, n, h + [ex])
  {
    assert h[..|h|] == h && forall i | n <= i <= |h| :: (h + [ex])[..i] == h[..i];
  }

  /** The inner loop: ask each member of the quorum in turn, up to the first fault. */
  method AskQuorum(env: Env, req: DecryptRequest, chosen: seq<Node>, st: State) returns (end: RoundEnd)
    ensures st.history <= end.st.history && Asks(env, req, chosen, 0, |st.history|, end.st.history)
    ensures end == Query(env, req, chosen, 0, [], st)
  {
    var subset := Indices(chosen);
    var partials: seq<PartialInput> := [];
    var history := st.history;
    for k := 0 to |chosen|
      invariant |history| == |st.history| + k && st.history <= history
      invariant Asks(env, req, chosen, 0, |st.history|, history)
      invariant Query(env, req, chosen, k, partials, st.(history := history)) == Query(env, req, chosen, 0, [], st)
    {
      var node := chosen[k];
      var made := MakeRequest(env, req, subset, node, history);
      if made.Err? {
        return Stopped(st.(history := history), made.error);
      }
      var reply := env.answer(history, node.endpoint, made.value);
      OneMoreAsked(env, req, chosen, |st.history|, history, Exchange(node, made.value, reply));
      history := history + [Exchange(node, made.value, reply)];
      if reply.Unreachable? {
        return Dropped(st.(history := history,
          faults := st.faults + [Fault(node.index, node.endpoint, PartialDecrypt)]), node.index);
      }
      if reply.epoch != 0 && reply.epoch != req.epoch {
        var votes := Count(st.votes, reply.epoch) + 1;
        var rotatedVotes := st.votes[reply.epoch := votes];
        if votes >= req.threshold {
          return Stopped(st.(history := history, votes := rotatedVotes), EpochRotated(reply.epoch, req.epoch));
        }
        var mismatch := Fault(node.index, node.endpoint, EpochMismatch);
        return Dropped(st.(history := history, votes := rotatedVotes, faults := st.faults + [mismatch]), node.index);
      }
      var decoded := ToPartial(env, node, reply);
      if decoded.Err? {
        return Stopped(st.(history := history), Core(decoded.error));
      }
      partials := partials + [decoded.value];
    }
    end := Collected(st.(history := history), partials);
  }

  method Open(env: Env, req: DecryptRequest, partials: seq<PartialInput>) returns (result: Result<Bytes, SdkError>)
    ensures result == OpenSecret(env, req, partials)
  {
    var points := SubsetPoints(partials);
    if points.Err? {
      return Err(Core(points.error));
    }
    var outcome := env.open(req, partials);
    result := if outcome.Ok? then Ok(outcome.value) else Err(Core(outcome.error));
  }

  /** Draw a quorum and ask it. */
  method QueryOneQuorum(env: Env, req: DecryptRequest, st: State) returns (end: RoundEnd)
    requires DrawsInRange(env) && req.threshold <= |st.available|
    ensures end == Round(env, req, st)
  {
    var chosen := ChooseQuorum(st.available, req.threshold, env.draws(st.history, |st.available|, req.threshold));
    end := AskQuorum(env, req, chosen, st.(rounds := st.rounds + 1));
  }

  method ReportFailure(req: DecryptRequest, st: State) returns (error: SdkError)
    ensures error == OutOfNodes(req, st)
  {
    var served := RustReport(st.votes);
    error := match served
      case Some(epoch) => EpochRotated(epoch, req.epoch)
      case None => QuorumUnavailable(req.threshold, |st.available|, st.faults);
  }

  /** The whole call. `st.rounds` and `st.history` only record; the client never reads them. */
  method DecryptSecret(env: Env, req: DecryptRequest) returns (result: Result<Bytes, SdkError>, ghost run: Run)
    requires DrawsInRange(env)
    ensures result == DecryptRun(env, req).result
    ensures run == DecryptRun(env, req)
  {
    run := DecryptRun(env, req);
    var active, faults := Probe(env, req.nodes);
    var st := State(active, faults, map[], [], 0);
    if |active| < req.threshold {
      return Err(QuorumUnavailable(req.threshold, |active|, faults)), run;
    }
    while |st.available| >= req.threshold
      invariant Rounds(env, req, st) == run
      decreases |st.available|
    {
      var end := QueryOneQuorum(env, req, st);
      if end.Collected? {
        var outcome := Open(env, req, end.partials);
        return outcome, run;
      } else if end.Stopped? {
        return Err(end.error), run;
      }
      ChosenAreAvailable(env, req, st);
      st := end.st.(available := Without(end.st.available, end.bad));
    }
    var error := ReportFailure(req, st);
    result := Err(error);
  }
}
