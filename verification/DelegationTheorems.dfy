/** What holds over every sequence of transactions, whatever the chain answers. */
module DelegationTheorems {
  import opened Wrappers
  import opened Scopes
  import opened DelegatedClient

  // ---------- what the chain has said ----------

  /** The scopes in the last answer that names `principal`, or `initial` if none does. */
  function LatestScopes(log: seq<Entry>, principal: Account, initial: ScopeSet): ScopeSet {
    if log == [] then initial
    else
      var last := log[|log| - 1];
      if last.Answered? && Names(last.grant, principal) then last.grant.value.value.1
      else LatestScopes(log[..|log| - 1], principal, initial)
  }

  predicate SubmitsOnlyCoveredProxies(required: Table, principal: Account, initial: ScopeSet, log: seq<Entry>) {
    forall i | 0 <= i < |log| && log[i].Submitted? ::
      IsCoveredProxy(required, principal, LatestScopes(log[..i], principal, initial), log[i].payload)
  }

  /** A client acting for `principal`, in step with the chain. */
  predicate InStep(required: Table, principal: Account, initial: ScopeSet, c: Client) {
    && c.signer.Some?
    && c.mode == Delegated(principal, LatestScopes(c.log, principal, initial))
    && SubmitsOnlyCoveredProxies(required, principal, initial, c.log)
  }

  /** A longer log is as good if its new entry is. */
  lemma {:induction false} LogStaysCovered(
    required: Table, principal: Account, initial: ScopeSet, log: seq<Entry>, entry: Entry)
    requires SubmitsOnlyCoveredProxies(required, principal, initial, log)
    requires entry.Submitted? ==>
               IsCoveredProxy(required, principal, LatestScopes(log, principal, initial), entry.payload)
    ensures SubmitsOnlyCoveredProxies(required, principal, initial, log + [entry])
  {
    var longer := log + [entry];
    forall i | 0 <= i < |longer| && longer[i].Submitted?
      ensures IsCoveredProxy(required, principal, LatestScopes(longer[..i], principal, initial), longer[i].payload)
    {
      assert longer[..i] == log[..i];
      assert log[..|log|] == log;
    }
  }

  lemma {:induction false} AnswerKeepsStep(
    required: Table, principal: Account, initial: ScopeSet, c: Client, answer: Result<Grant, string>)
    requires InStep(required, principal, initial, c)
    ensures InStep(required, principal, initial, Refreshed(c, answer).0)
  {
    LogStaysCovered(required, principal, initial, c.log, Answered(answer));
  }

  lemma {:induction false} SubmissionKeepsStep(
    required: Table, principal: Account, initial: ScopeSet, c: Client, call: Call)
    requires InStep(required, principal, initial, c) && OutOfScope(required, c.mode.scopes, call).None?
    ensures InStep(required, principal, initial, c.(log := c.log + [Submitted(ProxyPayload(principal, call))]))
  {
    var entry := Submitted(ProxyPayload(principal, call));
    LogStaysCovered(required, principal, initial, c.log, entry);
  }

  lemma {:induction false} StepKeepsStep(
    required: Table, principal: Account, initial: ScopeSet, c: Client, call: Call, world: World)
    requires InStep(required, principal, initial, c)
    ensures InStep(required, principal, initial, Step(required, c, call, world).0)
  {
    var payload := Payload(required, c.mode, call);
    if payload.Ok? {
      var sent := c.(log := c.log + [Submitted(payload.value)]);
      SubmissionKeepsStep(required, principal, initial, c, call);
      AnswerKeepsStep(required, principal, initial, sent, world.grant);
    }
  }

  lemma {:induction false} RunKeepsStep(
    required: Table, principal: Account, initial: ScopeSet, c: Client, txs: seq<(Call, World)>)
    requires InStep(required, principal, initial, c)
    ensures InStep(required, principal, initial, Run(required, c, txs))
  {
    if txs != [] {
      var last := |txs| - 1;
      RunKeepsStep(required, principal, initial, c, txs[..last]);
      StepKeepsStep(required, principal, initial, Run(required, c, txs[..last]), txs[last].0, txs[last].1);
    }
  }

  /** Every payload of a client acting as itself is a call it was handed, unwrapped. */
  predicate InPerson(c: Client, calls: seq<Call>) {
    c.mode.Direct? && forall e | e in c.log && e.Submitted? :: e.payload in calls
  }

  function Calls(txs: seq<(Call, World)>): seq<Call> {
    seq(|txs|, i requires 0 <= i < |txs| => txs[i].0)
  }

  lemma {:induction false} RunStaysInPerson(required: Table, c: Client, txs: seq<(Call, World)>)
    requires c.mode.Direct? && c.log == []
    ensures InPerson(Run(required, c, txs), Calls(txs))
  {
    if txs != [] {
      var last := |txs| - 1;
      RunStaysInPerson(required, c, txs[..last]);
      var before := Run(required, c, txs[..last]);
      var after := Run(required, c, txs);
      assert Calls(txs) == Calls(txs[..last]) + [txs[last].0];
      forall e | e in after.log && e.Submitted?
        ensures e.payload in Calls(txs)
      {
        assert e in before.log || e == Submitted(txs[last].0);
      }
    }
  }

  /** Whom the answer at connect makes this client act for, and with which scopes. */
  function ActsFor(signer: Option<Account>, override: Option<Account>, answer: Result<Grant, string>): Grant {
    if signer.None? then None
    else if override.Some? then Some((override.value, ALL))
    else if answer.Ok? then answer.value
    else None
  }

  /** Over every run from connect: whether and for whom the client acts never changes; its
      scopes are those of the chain's latest answer naming that member; everything it submits
      as a delegate is a covered proxy call for that member; and a client acting as itself
      wraps nothing. */
  lemma {:induction false} DelegatedRunInvariant(
    required: Table, signer: Option<Account>, override: Option<Account>, answer: Result<Grant, string>,
    c: Client, txs: seq<(Call, World)>)
    requires Connected(signer, override, answer) == Ok(c)
    ensures match ActsFor(signer, override, answer)
            case Some((principal, initial)) => InStep(required, principal, initial, Run(required, c, txs))
            case None => InPerson(Run(required, c, txs), Calls(txs))
  {
    match ActsFor(signer, override, answer)
    case Some((principal, initial)) => RunKeepsStep(required, principal, initial, c, txs);
    case None => RunStaysInPerson(required, c, txs);
  }

  // ---------- what one outcome means ----------

  /** The node refused the transaction at validation. */
  predicate PoolRefused(fate: Fate) {
    fate.Refused? && fate.refusal.poolRejection
  }

  /** The proxy call itself failed for want of a proxy. */
  predicate FoundNoProxy(fate: Fate) {
    fate.Finalized? && OuterFailure(fate.block).Some? && OuterFailure(fate.block).value.notProxy
  }

  /** The transaction was signed and handed to the node. */
  predicate Sent(before: Client, after: Client) {
    |after.log| > |before.log|
  }

  /** A call leaves the client exactly when the cached scopes cover it (or it is not delegated)
      and it could be built and signed; what leaves is the proxied or the bare call. */
  lemma {:induction false} SentExactlyWhenCovered(required: Table, c: Client, call: Call, world: World)
    requires c.signer.Some?
    ensures var after := Step(required, c, call, world).0;
            && (Sent(c, after) <==>
                && (c.mode.Delegated? ==> InScope(required, c.mode.scopes, call))
                && world.buildError.None? && world.signError.None?)
            && (Sent(c, after) ==>
                c.log + [Submitted(if c.mode.Direct? then call else ProxyPayload(c.mode.principal, call))] <= after.log)
            && (!Sent(c, after) ==> after == c)
  {
  }

  /** The extrinsic itself succeeded. */
  predicate Landed(fate: Fate) {
    fate.Finalized? && OuterFailure(fate.block).None?
  }

  /** A receipt is returned exactly when the extrinsic succeeded and, if it was wrapped on the
      way out, the first report of the wrapped call is not a failure: the two decisions to treat
      the call as delegated always agree. */
  lemma {:induction false} ReceiptIsEarned(required: Table, c: Client, call: Call, world: World)
    requires c.signer.Some?
    ensures var (after, r) := Step(required, c, call, world);
            && (r.Ok? <==> Sent(c, after) && Landed(world.fate)
                           && (after.log[|c.log|] == Submitted(call) || InnerFailure(world.fate.block).None?))
            && (r.Ok? ==> after.log == c.log + [Submitted(r.value.submitted)])
            && (r.Ok? && c.mode.Delegated? ==>
                r.value.submitted == ProxyPayload(c.mode.principal, call) && InnerFailure(world.fate.block).None?)
  {
    SentExactlyWhenCovered(required, c, call, world);
  }

  /** Each delegated failure names its cause. The key is reported revoked exactly when this
      transaction's re-read found no grant for its principal; a sent call is reported out of
      scope exactly when the re-read scopes miss what it needs, and unsponsored exactly when
      they cover it. */
  lemma {:induction false} FailuresAreFaithful(required: Table, c: Client, call: Call, world: World)
    requires c.signer.Some? && c.mode.Delegated?
    ensures var (after, r) := Step(required, c, call, world);
            var principal := c.mode.principal;
            var reread := Names(world.grant, principal);
            && (r == Err(KeyRevoked) <==>
                Sent(c, after) && (PoolRefused(world.fate) || FoundNoProxy(world.fate)) && world.grant.Ok? && !reread)
            && (r == Err(Unsponsored(principal, call)) <==>
                Sent(c, after) && PoolRefused(world.fate) && reread
                  && required(call).value <= world.grant.value.value.1)
            && (r.Err? && r.error.Unsponsored? ==> r.error == Unsponsored(principal, call))
            && (Sent(c, after) ==>
                (r.Err? && r.error.NotPermitted? <==>
                 PoolRefused(world.fate) && reread && !(required(call).value <= world.grant.value.value.1)))
            && (Sent(c, after) && r.Err? && r.error.NotPermitted? ==>
                r.error == NotPermitted(call, required(call).value, world.grant.value.value.1))
            && (!Sent(c, after) && r.Err? && r.error.NotPermitted? ==>
                r.error == NotPermitted(call, required(call).value, c.mode.scopes)
                  && !(required(call).value <= c.mode.scopes))
  {
    SentExactlyWhenCovered(required, c, call, world);
    var after := Step(required, c, call, world).0;
    if Sent(c, after) && Names(world.grant, c.mode.principal) {
      var needs, held := required(call).value, world.grant.value.value.1;
      assert IsSuperset(held, needs) <==> needs <= held;
    }
  }

  /** What a transaction after any run from connect reports agrees with what the chain has said
      by then: a refusal for scopes names the latest scopes and they miss the call, an unpaid
      call is covered by them, and a key is revoked exactly when this transaction's re-read
      does not name the member the client was connected for. */
  lemma {:induction false} ReportsMatchTheChain(
    required: Table, signer: Option<Account>, override: Option<Account>, answer: Result<Grant, string>,
    c: Client, txs: seq<(Call, World)>, call: Call, world: World)
    requires Connected(signer, override, answer) == Ok(c) && ActsFor(signer, override, answer).Some?
    ensures var (principal, initial) := ActsFor(signer, override, answer).value;
            var before := Run(required, c, txs);
            var (after, r) := Step(required, before, call, world);
            var latest := LatestScopes(after.log, principal, initial);
            && (r == Err(KeyRevoked) <==>
                Sent(before, after) && (PoolRefused(world.fate) || FoundNoProxy(world.fate)) && world.grant.Ok?
                  && !Names(world.grant, principal))
            && (r.Err? && r.error.NotPermitted? ==>
                required(call).Some? && r.error == NotPermitted(call, required(call).value, latest)
                  && !(required(call).value <= latest))
            && (r.Err? && r.error.Unsponsored? ==>
                required(call).Some? && r.error == Unsponsored(principal, call) && required(call).value <= latest)
  {
    var (principal, initial) := ActsFor(signer, override, answer).value;
    var before := Run(required, c, txs);
    RunKeepsStep(required, principal, initial, c, txs);
    StepKeepsStep(required, principal, initial, before, call, world);
    SentExactlyWhenCovered(required, before, call, world);
    FailuresAreFaithful(required, before, call, world);
  }

  /** After any run from connect a client that acts for nobody reports no grant as the cause. */
  lemma {:induction false} DirectFailuresBlameNoGrant(
    required: Table, signer: Option<Account>, override: Option<Account>, answer: Result<Grant, string>,
    c: Client, txs: seq<(Call, World)>, call: Call, world: World)
    requires Connected(signer, override, answer) == Ok(c) && ActsFor(signer, override, answer).None?
    ensures var r := Step(required, Run(required, c, txs), call, world).1;
            r.Err? ==>
              !r.error.KeyRevoked? && !r.error.Unsponsored? && !r.error.NotPermitted? && !r.error.NeverAdmitted?
  {
    RunStaysInPerson(required, c, txs);
  }

  /** After any run from connect, a delegate's call leaves the client exactly when the chain's
      latest scopes cover it and it can be built and signed. */
  lemma {:induction false} LatestScopesDecide(
    required: Table, signer: Option<Account>, override: Option<Account>, answer: Result<Grant, string>,
    c: Client, txs: seq<(Call, World)>, call: Call, world: World)
    requires Connected(signer, override, answer) == Ok(c) && ActsFor(signer, override, answer).Some?
    ensures var (principal, initial) := ActsFor(signer, override, answer).value;
            var before := Run(required, c, txs);
            var (after, r) := Step(required, before, call, world);
            var latest := LatestScopes(before.log, principal, initial);
            && (Sent(before, after) <==>
                InScope(required, latest, call) && world.buildError.None? && world.signError.None?)
            && (!InScope(required, latest, call) ==>
                after == before && r == Err(OutOfScope(required, latest, call).value))
  {
    var (principal, initial) := ActsFor(signer, override, answer).value;
    RunKeepsStep(required, principal, initial, c, txs);
    SentExactlyWhenCovered(required, Run(required, c, txs), call, world);
  }

  // ---------- after a failure ----------

  /** However long the run, a delegate whose grant is gone keeps hearing that it is gone: a
      covered call the node refuses is reported as a revoked key, never sent unwrapped. */
  lemma {:induction false} RevocationKeepsItsName(
    required: Table, principal: Account, initial: ScopeSet, c: Client, txs: seq<(Call, World)>, call: Call,
    world: World)
    requires InStep(required, principal, initial, c)
    requires PoolRefused(world.fate) && world.grant.Ok? && !Names(world.grant, principal)
    ensures var before := Run(required, c, txs);
            var (after, r) := Step(required, before, call, world);
            && after.mode == before.mode
            && (Sent(before, after) ==>
                r == Err(KeyRevoked) && before.log + [Submitted(ProxyPayload(principal, call))] <= after.log)
  {
    RunKeepsStep(required, principal, initial, c, txs);
    var before := Run(required, c, txs);
    SentExactlyWhenCovered(required, before, call, world);
    FailuresAreFaithful(required, before, call, world);
  }

  /** The run goes on after a transaction, up to a point at which the chain's latest word on the
      principal's scopes is still what it was right after it. */
  ghost predicate StillTheSame(
    required: Table, principal: Account, initial: ScopeSet, after: Client, more: seq<(Call, World)>)
  {
    LatestScopes(Run(required, after, more).log, principal, initial) == LatestScopes(after.log, principal, initial)
  }

  /** A call refused for scopes the chain has withdrawn is refused in the same words, without
      asking anyone, at any later point of the run until the chain says otherwise. */
  lemma {:induction false} NarrowedCallIsNotResent(
    required: Table, principal: Account, initial: ScopeSet, c: Client, txs: seq<(Call, World)>, call: Call,
    world: World, more: seq<(Call, World)>, retry: World)
    requires InStep(required, principal, initial, c)
    requires var r := Step(required, Run(required, c, txs), call, world).1; r.Err? && r.error.NotPermitted?
    requires StillTheSame(required, principal, initial, Step(required, Run(required, c, txs), call, world).0, more)
    ensures var (after, r) := Step(required, Run(required, c, txs), call, world);
            var later := Run(required, after, more);
            Step(required, later, call, retry) == (later, r)
  {
    var before := Run(required, c, txs);
    var after := Step(required, before, call, world).0;
    RunKeepsStep(required, principal, initial, c, txs);
    StepKeepsStep(required, principal, initial, before, call, world);
    RunKeepsStep(required, principal, initial, after, more);
    SentExactlyWhenCovered(required, before, call, world);
    FailuresAreFaithful(required, before, call, world);
    SentExactlyWhenCovered(required, Run(required, after, more), call, retry);
  }

  /** A call refused for want of a payer is still in scope: at any later point until the chain
      says otherwise it is sent again if it can be built and signed. */
  lemma {:induction false} UnsponsoredCallIsStillCovered(
    required: Table, principal: Account, initial: ScopeSet, c: Client, txs: seq<(Call, World)>, call: Call,
    world: World, more: seq<(Call, World)>, retry: World)
    requires InStep(required, principal, initial, c)
    requires var r := Step(required, Run(required, c, txs), call, world).1; r.Err? && r.error.Unsponsored?
    requires StillTheSame(required, principal, initial, Step(required, Run(required, c, txs), call, world).0, more)
    ensures var later := Run(required, Step(required, Run(required, c, txs), call, world).0, more);
            Sent(later, Step(required, later, call, retry).0) <==> retry.buildError.None? && retry.signError.None?
  {
    var before := Run(required, c, txs);
    var after := Step(required, before, call, world).0;
    RunKeepsStep(required, principal, initial, c, txs);
    StepKeepsStep(required, principal, initial, before, call, world);
    RunKeepsStep(required, principal, initial, after, more);
    SentExactlyWhenCovered(required, before, call, world);
    FailuresAreFaithful(required, before, call, world);
    SentExactlyWhenCovered(required, Run(required, after, more), call, retry);
  }
}
