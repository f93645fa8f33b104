/** What one round of the quorum loop did, read off the exchanges it left in the history. */
module QuorumRounds {
  import opened Wrappers
  import opened Committee
  import opened RotationReport
  import opened Decrypt

  /** The node answered for the epoch the client asked about. */
  predicate Good(req: DecryptRequest, reply: Reply) {
    reply.Served? && !Divergent(req, reply)
  }

  ghost predicate AllGood(req: DecryptRequest, h: History, from: nat, to: int) {
    forall i | from <= i < to && i < |h| :: Good(req, h[i].reply)
  }

  /** The partials are the good replies from `n` on, decoded. */
  ghost predicate Decoded(env: Env, h: History, n: nat, partials: seq<PartialInput>) {
    && n + |partials| == |h|
    && forall j | 0 <= j < |partials| ::
         h[n + j].reply.Served? && ToPartial(env, h[n + j].node, h[n + j].reply) == Ok(partials[j])
  }

  /** The vote table after the reply. */
  ghost function Voted(req: DecryptRequest, votes: Votes, reply: Reply): Votes {
    if Divergent(req, reply) then votes[reply.epoch := Count(votes, reply.epoch) + 1] else votes
  }

  function FaultOf(ex: Exchange): Fault {
    Fault(ex.node.index, ex.node.endpoint, if ex.reply.Unreachable? then PartialDecrypt else EpochMismatch)
  }

  ghost predicate DroppedShape(req: DecryptRequest, n: nat, st: State, end: State, bad: nat) {
    var h := end.history;
    n < |h| && AllGood(req, h, n, |h| - 1) && !Good(req, h[|h| - 1].reply) && bad == h[|h| - 1].node.index
    && end.faults == st.faults + [FaultOf(h[|h| - 1])]
    && end.votes == Voted(req, st.votes, h[|h| - 1].reply)
    && (Divergent(req, h[|h| - 1].reply) ==> Count(end.votes, h[|h| - 1].reply.epoch) < req.threshold)
  }

  ghost predicate RotatedShape(req: DecryptRequest, n: nat, st: State, end: State, served: nat, provided: nat) {
    var h := end.history;
    n < |h| && AllGood(req, h, n, |h| - 1) && Divergent(req, h[|h| - 1].reply)
    && h[|h| - 1].reply.epoch == served && provided == req.epoch
    && end.faults == st.faults && end.votes == Voted(req, st.votes, h[|h| - 1].reply)
    && Count(end.votes, served) >= req.threshold
  }

  /** A request could not be made, or a reply was not well-formed hex. */
  ghost predicate AbortCause(env: Env, req: DecryptRequest, chosen: seq<Node>, h: History, error: SdkError) {
    (exists node | node in chosen :: CannotAsk(env, req, Indices(chosen), node, h, error))
    || (error == Core(Hex) && h != [] && h[|h| - 1].reply.Served?
        && (env.fromHex(h[|h| - 1].reply.partial).None? || env.fromHex(h[|h| - 1].reply.proof).None?))
  }

  /** The history grows by the members asked; the set of available nodes waits for the round to end. */
  ghost predicate Trail(env: Env, req: DecryptRequest, chosen: seq<Node>, k: nat, st: State, end: State) {
    |st.history| <= |end.history| && end.history[..|st.history|] == st.history
    && Asks(env, req, chosen, k, |st.history|, end.history)
    && end.available == st.available && end.rounds == st.rounds
  }

  ghost predicate Shape(
    env: Env, req: DecryptRequest, chosen: seq<Node>, k: nat, partials: seq<PartialInput>, st: State, end: RoundEnd)
  {
    var n, h := |st.history|, end.st.history;
    match end
    case Collected(s, out) =>
      |h| == n + |chosen| - k && AllGood(req, h, n, |h|) && s.faults == st.faults && s.votes == st.votes
      && partials <= out && Decoded(env, h, n, out[|partials|..])
    case Dropped(s, bad) => DroppedShape(req, n, st, s, bad)
    case Stopped(s, EpochRotated(served, provided)) => RotatedShape(req, n, st, s, served, provided)
    case Stopped(s, error) =>
      !error.QuorumUnavailable? && AllGood(req, h, n, |h|) && s.faults == st.faults && s.votes == st.votes
      && AbortCause(env, req, chosen, h, error)
  }

  lemma {:induction false} QueryLeavesTrail(
    env: Env, req: DecryptRequest, chosen: seq<Node>, k: nat, partials: seq<PartialInput>, st: State)
    requires k <= |chosen|
    ensures Trail(env, req, chosen, k, st, Query(env, req, chosen, k, partials, st).st)
    decreases |chosen| - k
  {
    if k < |chosen| {
      var node := chosen[k];
      var made := MakeRequest(env, req, Indices(chosen), node, st.history);
      if made.Ok? {
        var reply := env.answer(st.history, node.endpoint, made.value);
        var h := st.history + [Exchange(node, made.value, reply)];
        if Good(req, reply) && ToPartial(env, node, reply).Ok? {
          var next := partials + [ToPartial(env, node, reply).value];
          QueryLeavesTrail(env, req, chosen, k + 1, next, st.(history := h));
          LongerTrail(env, req, chosen, k, st, h, Query(env, req, chosen, k + 1, next, st.(history := h)).st);
        } else {
          ShortTrail(env, req, chosen, k, st, h, Query(env, req, chosen, k, partials, st).st);
        }
      }
    }
  }

  /** One member asked, and the round over. */
  lemma {:induction false} ShortTrail(
    env: Env, req: DecryptRequest, chosen: seq<Node>, k: nat, st: State, h: History, end: State)
    requires k < |chosen| && |h| == |st.history| + 1 && h[..|st.history|] == st.history
    requires h[|h| - 1].node == chosen[k] && h[|h| - 1].request.subset == Indices(chosen)
    requires Proper(env, req, h, |h| - 1)
    requires end.history == h && end.available == st.available && end.rounds == st.rounds
    ensures Trail(env, req, chosen, k, st, end)
  {
  }

  lemma {:induction false} LongerTrail(
    env: Env, req: DecryptRequest, chosen: seq<Node>, k: nat, st: State, h: History, end: State)
    requires k < |chosen| && |h| == |st.history| + 1 && h[..|st.history|] == st.history
    requires h[|h| - 1].node == chosen[k] && h[|h| - 1].request.subset == Indices(chosen)
               && Proper(env, req, h, |h| - 1)
    requires Trail(env, req, chosen, k + 1, st.(history := h), end)
    ensures Trail(env, req, chosen, k, st, end)
  {
    var n, all := |st.history|, end.history;
    assert all[..n] == all[..n + 1][..n] == st.history;
    assert all[n] == all[..n + 1][n] == h[n];
    assert Proper(env, req, all, n);
  }

  lemma {:induction false} QueryHasShape(
    env: Env, req: DecryptRequest, chosen: seq<Node>, k: nat, partials: seq<PartialInput>, st: State)
    requires k <= |chosen|
    ensures Shape(env, req, chosen, k, partials, st, Query(env, req, chosen, k, partials, st))
    decreases |chosen| - k
  {
    if k < |chosen| {
      var node := chosen[k];
      var made := MakeRequest(env, req, Indices(chosen), node, st.history);
      if made.Err? {
        assert CannotAsk(env, req, Indices(chosen), node, st.history, made.error);
      } else {
        var reply := env.answer(st.history, node.endpoint, made.value);
        var h := st.history + [Exchange(node, made.value, reply)];
        if Good(req, reply) && ToPartial(env, node, reply).Ok? {
          var next := partials + [ToPartial(env, node, reply).value];
          QueryLeavesTrail(env, req, chosen, k + 1, next, st.(history := h));
          QueryHasShape(env, req, chosen, k + 1, next, st.(history := h));
          GoodReplyFirst(env, req, chosen, k, partials, st, ToPartial(env, node, reply).value, h,
                         Query(env, req, chosen, k + 1, next, st.(history := h)));
        } else {
          FaultHasShape(env, req, chosen, k, partials, st);
        }
      }
    }
  }

  /** The round ends with this member's reply. */
  lemma {:induction false} FaultHasShape(
    env: Env, req: DecryptRequest, chosen: seq<Node>, k: nat, partials: seq<PartialInput>, st: State)
    requires k < |chosen| && MakeRequest(env, req, Indices(chosen), chosen[k], st.history).Ok?
    requires var request := MakeRequest(env, req, Indices(chosen), chosen[k], st.history).value;
             var reply := env.answer(st.history, chosen[k].endpoint, request);
             !(Good(req, reply) && ToPartial(env, chosen[k], reply).Ok?)
    ensures Shape(env, req, chosen, k, partials, st, Query(env, req, chosen, k, partials, st))
  {
  }

  /** A good reply followed by a round end of the right shape is a round end of that shape. */
  lemma {:induction false} GoodReplyFirst(
    env: Env, req: DecryptRequest, chosen: seq<Node>, k: nat, partials: seq<PartialInput>, st: State,
      partial: PartialInput, h: History, end: RoundEnd)
    requires k < |chosen| && |h| == |st.history| + 1 && |h| <= |end.st.history| && end.st.history[..|h|] == h
    requires h[|h| - 1].node == chosen[k]
    requires Good(req, h[|h| - 1].reply) && ToPartial(env, chosen[k], h[|h| - 1].reply) == Ok(partial)
    requires Shape(env, req, chosen, k + 1, partials + [partial], st.(history := h), end)
    ensures Shape(env, req, chosen, k, partials, st, end)
  {
    var n, all := |st.history|, end.st.history;
    assert all[n] == all[..n + 1][n] == h[n];
    if end.Collected? {
      var out := end.partials;
      assert out[|partials|] == partial;
      assert out[|partials|..] == [partial] + out[|partials| + 1..];
    }
  }
}
