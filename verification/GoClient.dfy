/** The Go client's transaction: the same delegation, its own reading of the block's events and
    its own account of a failure. */
module GoClient {
  import opened Wrappers
  import opened Scopes
  import Events
  import opened DelegatedClient

  /** What is reported of a wrapped call of which no report arrived. */
  const SILENCE := "the extrinsic finalized without a Proxy.ProxyExecuted event"

  /** Go's re-read: nothing is asked for a client that is not delegated. */
  function GoRefreshed(c: Client, answer: Result<Grant, string>): (Client, Result<Refresh, SdkError>) {
    if c.mode.Direct? then (c, Ok(Unchanged)) else Refreshed(c, answer)
  }

  /** Every failure up to reading the outcome is explained here, and a rescoped call is checked
      again from the start, against the scopes just stored. */
  function GoExplainSubmission(
    required: Table, c: Client, call: Call, refusal: Refusal, error: SdkError, answer: Result<Grant, string>)
    : (Client, SdkError)
  {
    if c.mode.Direct? || !refusal.poolRejection then (c, error)
    else
      var (after, outcome) := GoRefreshed(c, answer);
      match outcome
      case Err(_) => (after, error)
      case Ok(Gone) => (after, KeyRevoked)
      case Ok(Unchanged) => (after, Unsponsored(after.mode.principal, call))
      case Ok(Rescoped(_)) =>
        match OutOfScope(required, after.mode.scopes, call)
        case Some(e) => (after, e)
        case None => (after, Unsponsored(after.mode.principal, call))
  }

  function GoExplainDispatch(c: Client, reading: Reading, answer: Result<Grant, string>): (Client, SdkError) {
    if c.mode.Direct? || !reading.notProxy then (c, Chain(reading.text))
    else
      var (after, outcome) := GoRefreshed(c, answer);
      if outcome == Ok(Gone) then (after, KeyRevoked) else (after, Chain(reading.text))
  }

  /** The events are parsed from the block's bytes, and a wrapped call's silence is an error. */
  function GoSettleBlock(
    required: Table, sent: Client, call: Call, payload: Call, block: Block, answer: Result<Grant, string>)
    : (Client, Result<Receipt, SdkError>)
  {
    match Events.Parsed(block.runtime, block.raw, block.index)
    case Err(e) =>
      var refusal := block.unreadable(e);
      var (after, error) := GoExplainSubmission(required, sent, call, refusal, Chain(refusal.detail), answer);
      (after, Err(error))
    case Ok(outcome) =>
      match Events.DelegatedOutcome(outcome, sent.mode.Delegated?)
      case Succeeded => (sent, Ok(Receipt(payload)))
      case Refused(error) =>
        var (after, e) := GoExplainDispatch(sent, block.read(error), answer);
        (after, Err(e))
      case Dispatched(error) => (sent, Err(Dispatch(call, block.read(error).text)))
      case FateUnknown => (sent, Err(Chain(SILENCE)))
  }

  function GoSettle(required: Table, sent: Client, call: Call, payload: Call, world: World)
    : (Client, Result<Receipt, SdkError>)
  {
    match world.fate
    case TimedOut => (sent, Err(FinalityTimeout))
    case Refused(refusal) =>
      var (after, e) := GoExplainSubmission(required, sent, call, refusal, Chain(refusal.detail), world.grant);
      (after, Err(e))
    case NotFinalized(refusal) =>
      var (after, e) := GoExplainSubmission(required, sent, call, refusal, Chain(refusal.detail), world.grant);
      (after, Err(e))
    case Finalized(block) => GoSettleBlock(required, sent, call, payload, block, world.grant)
  }

  function GoStep(required: Table, c: Client, call: Call, world: World): (Client, Result<Receipt, SdkError>) {
    if c.signer.None? then (c, Err(ReadOnly))
    else
      match Payload(required, c.mode, call)
      case Err(e) => (c, Err(e))
      case Ok(payload) =>
        match (world.buildError, world.signError)
        case (Some(refusal), _) =>
          var (after, e) := GoExplainSubmission(required, c, call, refusal, Chain(refusal.detail), world.grant);
          (after, Err(e))
        case (None, Some(refusal)) =>
          var (after, e) := GoExplainSubmission(required, c, call, refusal, Key(refusal.detail), world.grant);
          (after, Err(e))
        case (None, None) =>
          GoSettle(required, c.(log := c.log + [Submitted(payload)]), call, payload, world)
  }

  /** The grant a Go client acts under; none means it acts as itself. */
  datatype Delegation = Delegation(principal: Account, scopes: ScopeSet)

  /** What the answer of the chain makes of a refusal of a covered call that needs `needs`. */
  ghost predicate Explains(
    answer: Result<Grant, string>, principal: Account, needs: ScopeSet, call: Call, e: SdkError)
  {
    && (e == KeyRevoked <==> !Names(answer, principal))
    && (e == Unsponsored(principal, call) <==> Names(answer, principal) && needs <= answer.value.value.1)
    && (e.NotPermitted? <==> Names(answer, principal) && !(needs <= answer.value.value.1))
    && (e.NotPermitted? ==> e == NotPermitted(call, needs, answer.value.value.1))
  }

  function ModeOf(d: Option<Delegation>): Mode {
    match d
    case None => Direct
    case Some(Delegation(principal, scopes)) => Mode.Delegated(principal, scopes)
  }

  class MatterClient {
    const required: Table
    const signer: Option<Account>
    var delegation: Option<Delegation>
    ghost var log: seq<Entry>

    ghost function State(): Client
      reads this
    {
      Client(signer, ModeOf(delegation), log)
    }

    constructor (required: Table, signer: Option<Account>, delegation: Option<Delegation>)
      ensures this.required == required && State() == Client(signer, ModeOf(delegation), [])
    {
      this.required, this.signer, this.delegation, this.log := required, signer, delegation, [];
    }

    /** Nothing is asked for a client that acts for nobody. Only an answer that names the principal
        changes the client: the whole grant is replaced, which moves only the scopes. */
    method RefreshDelegation(answer: Result<Grant, string>) returns (r: Result<Refresh, SdkError>)
      modifies this
      ensures log == old(log) + if signer.Some? && old(delegation).Some? then [Answered(answer)] else []
      ensures signer.Some? && old(delegation).Some? && Names(answer, old(delegation).value.principal) ==>
                delegation == Some(Delegation(old(delegation).value.principal, answer.value.value.1))
      ensures !(signer.Some? && old(delegation).Some? && Names(answer, old(delegation).value.principal)) ==>
                delegation == old(delegation)
      ensures r == Ok(Gone) <==>
                && signer.Some? && old(delegation).Some? && answer.Ok?
                && !Names(answer, old(delegation).value.principal)
      ensures r.Err? <==> signer.Some? && old(delegation).Some? && answer.Err?
      ensures r.Err? ==> r == Err(Chain(answer.error))
      ensures r.Ok? && r.value.Rescoped? <==> delegation != old(delegation)
      ensures r.Ok? && r.value.Rescoped? ==> r.value.held == answer.value.value.1
      ensures (State(), r) == GoRefreshed(old(State()), answer)
    {
      var previous := delegation;
      if previous.None? || signer.None? {
        return Ok(Unchanged);
      }
      log := log + [Answered(answer)];
      if answer.Err? {
        return Err(Chain(answer.error));
      }
      var outcome := AfterRefresh(ModeOf(previous), answer.value);
      if outcome.Rescoped? {
        delegation := Some(Delegation(answer.value.value.0, answer.value.value.1));
      }
      r := Ok(outcome);
    }

    method RefuseIfOutOfScope(call: Call) returns (e: Option<SdkError>)
      requires delegation.Some?
      ensures e.None? <==> InScope(required, delegation.value.scopes, call)
      ensures e == Some(NeverAdmitted(call)) <==>
                call.pallet == "Proxy" || call.pallet == "Utility" || call.pallet == "EthSigning"
                || required(call).None?
      ensures e.Some? && e.value != NeverAdmitted(call) ==>
                e.value == NotPermitted(call, required(call).value, delegation.value.scopes)
      ensures e == OutOfScope(required, delegation.value.scopes, call)
    {
      if call.pallet == "Proxy" || call.pallet == "Utility" || call.pallet == "EthSigning" {
        return Some(NeverAdmitted(call));
      }
      var needs := required(call);
      if needs.None? {
        return Some(NeverAdmitted(call));
      }
      if !IsSuperset(delegation.value.scopes, needs.value) {
        return Some(NotPermitted(call, needs.value, delegation.value.scopes));
      }
      e := None;
    }

    /** Of a delegate's call that was in scope, the answer that names the principal says unsponsored
        or out of scope, by whether its scopes cover the call; any other answer says revoked; without
        an answer, and for anything but a pool rejection, the error stands. */
    method ClassifySubmissionFailure(call: Call, refusal: Refusal, error: SdkError, answer: Result<Grant, string>)
      returns (e: SdkError)
      modifies this
      ensures signer.Some? && old(delegation).Some? && InScope(required, old(delegation).value.scopes, call)
              && refusal.poolRejection && answer.Ok? ==>
                var principal := old(delegation).value.principal;
                && Explains(answer, principal, required(call).value, call, e)
                && (Names(answer, principal) ==> delegation == Some(Delegation(principal, answer.value.value.1)))
                && (!Names(answer, principal) ==> delegation == old(delegation))
      ensures old(delegation).None? || !refusal.poolRejection || (signer.Some? && answer.Err?) ==>
                e == error && delegation == old(delegation)
      ensures (State(), e) == GoExplainSubmission(required, old(State()), call, refusal, error, answer)
    {
      if delegation.None? || !refusal.poolRejection {
        return error;
      }
      var outcome := RefreshDelegation(answer);
      if outcome.Err? {
        return error;
      }
      if outcome.value.Gone? {
        return KeyRevoked;
      }
      if outcome.value.Rescoped? {
        var scopeError := RefuseIfOutOfScope(call);
        if scopeError.Some? {
          return scopeError.value;
        }
      }
      e := Unsponsored(delegation.value.principal, call);
    }

    /** Revoked exactly when a delegate's proxy is missing and the chain, asked, does not name its
        principal; in every other case, a failed lookup included, the failure itself stands. */
    method ClassifyDispatchFailure(reading: Reading, answer: Result<Grant, string>) returns (e: SdkError)
      modifies this
      ensures e == KeyRevoked <==>
                && reading.notProxy && signer.Some? && answer.Ok?
                && old(delegation).Some? && !Names(answer, old(delegation).value.principal)
      ensures e != KeyRevoked ==> e == Chain(reading.text)
      ensures !reading.notProxy || old(delegation).None? ==> log == old(log) && delegation == old(delegation)
      ensures (State(), e) == GoExplainDispatch(old(State()), reading, answer)
    {
      if delegation.None? || !reading.notProxy {
        return Chain(reading.text);
      }
      var outcome := RefreshDelegation(answer);
      e := if outcome.Ok? && outcome.value.Gone? then KeyRevoked else Chain(reading.text);
    }

    /** A delegate's call goes out, wrapped and otherwise untouched, exactly when it is in scope. */
    method Prepare(call: Call) returns (r: Result<Call, SdkError>)
      ensures r.Ok? <==> signer.Some? && (delegation.Some? ==> InScope(required, delegation.value.scopes, call))
      ensures r.Ok? && delegation.None? ==> r.value == call
      ensures r.Ok? && delegation.Some? ==>
                && IsCoveredProxy(required, delegation.value.principal, delegation.value.scopes, r.value)
                && r.value.args[2] == Nested(call)
      ensures r == Err(ReadOnly) <==> signer.None?
      ensures signer.Some? && delegation.Some? ==>
                (r == Err(NeverAdmitted(call)) <==>
                  call.pallet == "Proxy" || call.pallet == "Utility" || call.pallet == "EthSigning"
                  || required(call).None?)
      ensures r.Err? && signer.Some? && r.error != NeverAdmitted(call) ==>
                r.error == NotPermitted(call, required(call).value, delegation.value.scopes)
      ensures signer.Some? ==> r == Payload(required, ModeOf(delegation), call)
    {
      if signer.None? {
        return Err(ReadOnly);
      }
      if delegation.None? {
        return Ok(call);
      }
      var scopeError := RefuseIfOutOfScope(call);
      if scopeError.Some? {
        return Err(scopeError.value);
      }
      r := Ok(ProxyPayload(delegation.value.principal, call));
    }

    /** A receipt exactly when the block can be read, the extrinsic did not fail and, for a delegate,
        a report of the wrapped call arrived and none failed; a dispatch error exactly when one did;
        and silence is an error of its own. None of these asks the chain anything. A block that cannot
        be read is explained as a refusal, and an extrinsic that failed by its own error. */
    method SettleBlock(call: Call, payload: Call, block: Block, answer: Result<Grant, string>)
      returns (r: Result<Receipt, SdkError>)
      modifies this
      ensures var parsed := Events.Parsed(block.runtime, block.raw, block.index);
              var landed := parsed.Ok? && parsed.value.failed.None?;
              && (r.Ok? <==> landed && (old(delegation).Some? ==> parsed.value.proxied.None? && parsed.value.sawProxy))
              && (r.Err? && r.error.Dispatch? <==> landed && old(delegation).Some? && parsed.value.proxied.Some?)
              && (r.Ok? ==> r.value == Receipt(payload))
              && (r.Err? && r.error.Dispatch? ==>
                  r.error == Dispatch(call, block.read(parsed.value.proxied.value).text))
              && (landed && old(delegation).Some? && parsed.value.proxied.None? && !parsed.value.sawProxy ==>
                  r == Err(Chain("the extrinsic finalized without a Proxy.ProxyExecuted event")))
              && (landed ==> State() == old(State()))
      ensures var parsed := Events.Parsed(block.runtime, block.raw, block.index);
              parsed.Err? ==>
                var refusal := block.unreadable(parsed.error);
                && r.Err?
                && (old(delegation).None? || !refusal.poolRejection || (signer.Some? && answer.Err?) ==>
                     r.error == Chain(refusal.detail))
                && (signer.Some? && old(delegation).Some? && InScope(required, old(delegation).value.scopes, call)
                    && refusal.poolRejection && answer.Ok? ==>
                     Explains(answer, old(delegation).value.principal, required(call).value, call, r.error))
      ensures var parsed := Events.Parsed(block.runtime, block.raw, block.index);
              parsed.Ok? && parsed.value.failed.Some? ==>
                var reading := block.read(parsed.value.failed.value);
                && r.Err? && (r.error == KeyRevoked || r.error == Chain(reading.text))
                && (r.error == KeyRevoked <==>
                     && reading.notProxy && signer.Some? && answer.Ok?
                     && old(delegation).Some? && !Names(answer, old(delegation).value.principal))
      ensures (State(), r) == GoSettleBlock(required, old(State()), call, payload, block, answer)
    {
      var parsed := Events.ParseOutcome(block.runtime, block.raw, block.index);
      if parsed.Err? {
        var refusal := block.unreadable(parsed.error);
        var e := ClassifySubmissionFailure(call, refusal, Chain(refusal.detail), answer);
        return Err(e);
      }
      match Events.DelegatedOutcome(parsed.value, delegation.Some?) {
        case Succeeded => r := Ok(Receipt(payload));
        case Refused(error) =>
          var e := ClassifyDispatchFailure(block.read(error), answer);
          r := Err(e);
        case Dispatched(error) => r := Err(Dispatch(call, block.read(error).text));
        case FateUnknown => r := Err(Chain(SILENCE));
      }
    }

    method TxAndWait(call: Call, world: World) returns (r: Result<Receipt, SdkError>)
      modifies this
      ensures (State(), r) == GoStep(required, old(State()), call, world)
    {
      var outgoing := Prepare(call);
      if outgoing.Err? {
        return Err(outgoing.error);
      }
      if world.buildError.Some? {
        var refusal := world.buildError.value;
        var e := ClassifySubmissionFailure(call, refusal, Chain(refusal.detail), world.grant);
        return Err(e);
      }
      if world.signError.Some? {
        var refusal := world.signError.value;
        var e := ClassifySubmissionFailure(call, refusal, Key(refusal.detail), world.grant);
        return Err(e);
      }
      log := log + [Submitted(outgoing.value)];
      match world.fate {
        case TimedOut => r := Err(FinalityTimeout);
        case Refused(refusal) =>
          var e := ClassifySubmissionFailure(call, refusal, Chain(refusal.detail), world.grant);
          r := Err(e);
        case NotFinalized(refusal) =>
          var e := ClassifySubmissionFailure(call, refusal, Chain(refusal.detail), world.grant);
          r := Err(e);
        case Finalized(block) => r := SettleBlock(call, outgoing.value, block, world.grant);
      }
    }
  }
}
