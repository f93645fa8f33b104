/** The chain client that may act for a member: what it signs, when it re-reads the chain's
    grant, and how it explains a refusal. The chain is whatever answers it gives; `required`,
    the table of scopes a call needs, is arbitrary. */
module DelegatedClient {
  import opened Wrappers
  import opened Scopes
  import Events
  import EventTheorems

  datatype Account = Account(bytes: seq<nat>)

  /** A call and its arguments, as far as the client builds or looks into them. */
  datatype Call = Call(pallet: string, name: string, args: seq<Value>)
  datatype Value =
    | Variant(name: string, args: seq<Value>)
    | Named(fields: seq<(string, Value)>)
    | AccountId(account: Account)
    | Nested(call: Call)
    | Other(encoded: seq<nat>)

  type Table = Call -> Option<ScopeSet>

  datatype Mode = Direct | Delegated(principal: Account, scopes: ScopeSet)

  /** The chain's grant for a key: who it acts for, and what it may do. */
  type Grant = Option<(Account, ScopeSet)>

  datatype Refresh = Unchanged | Rescoped(held: ScopeSet) | Gone

  /** A failure reported by the chain library, with what the client reads off it. */
  datatype Refusal = Refusal(poolRejection: bool, detail: string)

  datatype SdkError =
    | ReadOnly
    | NeverAdmitted(call: Call)
    | NotPermitted(call: Call, required: ScopeSet, held: ScopeSet)
    | KeyRevoked
    | Unsponsored(principal: Account, call: Call)
    | FinalityTimeout
    | Dispatch(call: Call, detail: string)
    | Chain(detail: string)
    | Key(detail: string)

  datatype Receipt = Receipt(submitted: Call)

  /** What the metadata says of a runtime error: whether it is a missing proxy, its text, and
      whether it could be decoded at all. */
  datatype Reading = Reading(notProxy: bool, decodable: bool, text: string)

  /** A finalized block, as records and as the bytes that encode them; the extrinsic's own
      records carry `index`. `unreadable` is how a block that does not decode is reported. */
  datatype Block = Block(
    runtime: Events.Runtime, views: EventTheorems.Views, index: nat, records: seq<EventTheorems.Record>,
    raw: Events.Bytes, read: Events.DispatchError -> Reading, unreadable: Events.ParseError -> Refusal)

  /** How a signed extrinsic fares. */
  datatype Fate =
    | TimedOut
    | Refused(refusal: Refusal)
    | NotFinalized(refusal: Refusal)
    | Finalized(block: Block)

  /** Everything outside the client that one transaction may meet. */
  datatype World = World(
    buildError: Option<Refusal>, signError: Option<Refusal>, fate: Fate, grant: Result<Grant, string>)

  datatype Entry = Submitted(payload: Call) | Answered(grant: Result<Grant, string>)

  datatype Client = Client(signer: Option<Account>, mode: Mode, log: seq<Entry>)

  // ---------- connecting and refreshing ----------

  function Decide(grant: Grant, override: Option<Account>): Mode {
    match override
    case Some(principal) => Delegated(principal, ALL)
    case None =>
      match grant
      case Some((principal, scopes)) => Delegated(principal, scopes)
      case None => Direct
  }

  function Connected(
    signer: Option<Account>, override: Option<Account>, answer: Result<Grant, string>): Result<Client, SdkError>
  {
    if signer.None? then Ok(Client(signer, Direct, []))
    else if override.Some? then Ok(Client(signer, Decide(None, override), []))
    else match answer
      case Err(e) => Err(Chain(e))
      case Ok(grant) => Ok(Client(signer, Decide(grant, None), []))
  }

  function AfterRefresh(previous: Mode, found: Grant): Refresh {
    match previous
    case Direct => Unchanged
    case Delegated(principal, scopes) =>
      match found
      case None => Gone
      case Some((freshPrincipal, freshScopes)) =>
        if freshPrincipal != principal then Gone
        else if freshScopes == scopes then Unchanged
        else Rescoped(freshScopes)
  }

  function WithScopes(mode: Mode, outcome: Refresh): Mode {
    if outcome.Rescoped? && mode.Delegated? then Delegated(mode.principal, outcome.held) else mode
  }

  function Refreshed(c: Client, answer: Result<Grant, string>): (Client, Result<Refresh, SdkError>) {
    if c.signer.None? then (c, Ok(Unchanged))
    else
      var asked := c.(log := c.log + [Answered(answer)]);
      match answer
      case Err(e) => (asked, Err(Chain(e)))
      case Ok(found) =>
        var outcome := AfterRefresh(c.mode, found);
        (asked.(mode := WithScopes(c.mode, outcome)), Ok(outcome))
  }

  // ---------- one transaction ----------

  predicate Launders(call: Call) {
    call.pallet == "Proxy" || call.pallet == "Utility" || call.pallet == "EthSigning"
  }

  /** A key holding `held` may send the call. */
  predicate InScope(required: Table, held: ScopeSet, call: Call) {
    !Launders(call) && required(call).Some? && required(call).value <= held
  }

  /** The grant names `principal`. */
  predicate Names(grant: Result<Grant, string>, principal: Account) {
    grant.Ok? && grant.value.Some? && grant.value.value.0 == principal
  }

  /** `proxy(principal, None, call)` for a call in scope, which carries no proxy, batch or foreign
      signature of its own. */
  predicate IsCoveredProxy(required: Table, principal: Account, held: ScopeSet, payload: Call) {
    && payload.pallet == "Proxy" && payload.name == "proxy" && |payload.args| == 3
    && payload.args[0] == Variant("Id", [AccountId(principal)]) && payload.args[1] == Variant("None", [])
    && payload.args[2].Nested? && InScope(required, held, payload.args[2].call)
  }

  /** Why a key holding `held` must not send `call`, if it must not. */
  function OutOfScope(required: Table, held: ScopeSet, call: Call): Option<SdkError> {
    if Launders(call) then Some(NeverAdmitted(call))
    else
      match required(call)
      case None => Some(NeverAdmitted(call))
      case Some(needs) => if IsSuperset(held, needs) then None else Some(NotPermitted(call, needs, held))
  }

  function ProxyPayload(principal: Account, call: Call): Call {
    Call("Proxy", "proxy", [Variant("Id", [AccountId(principal)]), Variant("None", []), Nested(call)])
  }

  function Payload(required: Table, mode: Mode, call: Call): Result<Call, SdkError> {
    match mode
    case Direct => Ok(call)
    case Delegated(principal, scopes) =>
      match OutOfScope(required, scopes, call)
      case Some(e) => Err(e)
      case None => Ok(ProxyPayload(principal, call))
  }

  function ExplainRefusal(required: Table, c: Client, call: Call, refusal: Refusal, answer: Result<Grant, string>)
    : (Client, SdkError)
  {
    if c.mode.Direct? || !refusal.poolRejection then (c, Chain(refusal.detail))
    else
      var (after, outcome) := Refreshed(c, answer);
      match outcome
      case Err(_) => (after, Chain(refusal.detail))
      case Ok(Gone) => (after, KeyRevoked)
      case Ok(Unchanged) => (after, Unsponsored(c.mode.principal, call))
      case Ok(Rescoped(held)) =>
        if required(call).Some? && !IsSuperset(held, required(call).value)
        then (after, NotPermitted(call, required(call).value, held))
        else (after, Unsponsored(c.mode.principal, call))
  }

  function ExplainOuterFailure(c: Client, reading: Reading, answer: Result<Grant, string>): (Client, SdkError) {
    if !reading.notProxy then (c, Chain(reading.text))
    else
      var (after, outcome) := Refreshed(c, answer);
      match outcome
      case Err(e) => (after, e)
      case Ok(Gone) => (after, KeyRevoked)
      case Ok(_) => (after, Chain(reading.text))
  }

  /** The extrinsic's own failure, as the chain library reports it. */
  function OuterFailure(block: Block): Option<Reading> {
    match EventTheorems.FirstFailure(block.runtime, block.views, block.index, block.records)
    case None => None
    case Some(error) => Some(block.read(error))
  }

  /** The wrapped call's failure by the first proxy report. */
  function InnerFailure(block: Block): Option<Reading> {
    match EventTheorems.FirstReport(block.runtime, block.views, block.index, block.records)
    case None => None
    case Some(error) => Some(block.read(error))
  }

  function Settle(required: Table, sent: Client, call: Call, payload: Call, world: World)
    : (Client, Result<Receipt, SdkError>)
  {
    match world.fate
    case TimedOut => (sent, Err(FinalityTimeout))
    case Refused(refusal) =>
      var (after, e) := ExplainRefusal(required, sent, call, refusal, world.grant);
      (after, Err(e))
    case NotFinalized(refusal) => (sent, Err(Chain(refusal.detail)))
    case Finalized(block) =>
      if OuterFailure(block).Some? then
        var (after, e) := ExplainOuterFailure(sent, OuterFailure(block).value, world.grant);
        (after, Err(e))
      else if sent.mode.Direct? || InnerFailure(block).None? then (sent, Ok(Receipt(payload)))
      else
        var reading := InnerFailure(block).value;
        (sent, Err(if reading.decodable then Dispatch(call, reading.text) else Chain(reading.text)))
  }

  function Step(required: Table, c: Client, call: Call, world: World): (Client, Result<Receipt, SdkError>) {
    if c.signer.None? then (c, Err(ReadOnly))
    else match Payload(required, c.mode, call)
      case Err(e) => (c, Err(e))
      case Ok(payload) =>
        if world.buildError.Some? then (c, Err(Chain(world.buildError.value.detail)))
        else if world.signError.Some? then (c, Err(Key(world.signError.value.detail)))
        else Settle(required, c.(log := c.log + [Submitted(payload)]), call, payload, world)
  }

  /** The client after each of some transactions in turn. */
  function Run(required: Table, c: Client, txs: seq<(Call, World)>): Client {
    if txs == [] then c
    else Step(required, Run(required, c, txs[..|txs| - 1]), txs[|txs| - 1].0, txs[|txs| - 1].1).0
  }

  // ---------- the client object ----------

  class MatterClient {
    const required: Table
    const signer: Option<Account>
    var mode: Mode
    ghost var log: seq<Entry>

    ghost function State(): Client
      reads this
    {
      Client(signer, mode, log)
    }

    constructor (required: Table, signer: Option<Account>, mode: Mode)
      ensures this.required == required && State() == Client(signer, mode, [])
    {
      this.required, this.signer, this.mode, this.log := required, signer, mode, [];
    }

    /** Fails exactly when the chain had to be asked and could not answer. Acts for nobody without a
        key, or when the chain was asked and names nobody; otherwise for the member the override
        names, with every scope, or else for the one the chain names, with the scopes it grants. */
    static method Connect(
      required: Table, signer: Option<Account>, override: Option<Account>, answer: Result<Grant, string>)
      returns (r: Result<MatterClient, SdkError>)
      ensures r.Ok? ==> fresh(r.value) && r.value.required == required
                        && r.value.signer == signer && r.value.log == []
      ensures r.Err? <==> signer.Some? && override.None? && answer.Err?
      ensures r.Err? ==> r == Err(Chain(answer.error))
      ensures r.Ok? ==>
                (r.value.mode == Direct <==> signer.None? || (override.None? && answer == Ok(None)))
      ensures r.Ok? && signer.Some? && override.Some? ==> r.value.mode == Delegated(override.value, ALL)
      ensures r.Ok? && signer.Some? && override.None? && answer.value.Some? ==>
                r.value.mode == Delegated(answer.value.value.0, answer.value.value.1)
      ensures match r
              case Ok(client) => Connected(signer, override, answer) == Ok(client.State())
              case Err(e) => Connected(signer, override, answer) == Err(e)
    {
      var resolved := Direct;
      if signer.Some? {
        if override.Some? {
          resolved := Decide(None, override);
        } else {
          match answer {
            case Err(e) => return Err(Chain(e));
            case Ok(grant) => resolved := Decide(grant, None);
          }
        }
      }
      var client := new MatterClient(required, signer, resolved);
      r := Ok(client);
    }

    /** The chain is asked once, if there is a key to ask about. Only an answer that names the
        client's principal changes the client, and only its scopes; revoked is any other answer. */
    method RefreshDelegation(answer: Result<Grant, string>) returns (r: Result<Refresh, SdkError>)
      modifies this
      ensures log == old(log) + if signer.Some? then [Answered(answer)] else []
      ensures signer.Some? && old(mode).Delegated? && Names(answer, old(mode).principal) ==>
                mode == Delegated(old(mode).principal, answer.value.value.1)
      ensures !(signer.Some? && old(mode).Delegated? && Names(answer, old(mode).principal)) ==> mode == old(mode)
      ensures r == Ok(Gone) <==>
                signer.Some? && old(mode).Delegated? && answer.Ok? && !Names(answer, old(mode).principal)
      ensures r.Err? <==> signer.Some? && answer.Err?
      ensures r.Err? ==> r == Err(Chain(answer.error))
      ensures r.Ok? && r.value.Rescoped? <==> mode != old(mode)
      ensures r.Ok? && r.value.Rescoped? ==> r.value.held == answer.value.value.1
      ensures (State(), r) == Refreshed(old(State()), answer)
    {
      var previous := mode;
      if signer.None? {
        return Ok(Unchanged);
      }
      log := log + [Answered(answer)];
      match answer {
        case Err(e) => return Err(Chain(e));
        case Ok(found) =>
          var outcome := AfterRefresh(previous, found);
          if outcome.Rescoped? && previous.Delegated? {
            mode := Delegated(previous.principal, outcome.held);
          }
          return Ok(outcome);
      }
    }

    /** A direct client sends the call as it is. A delegate sends it, wrapped and otherwise
        untouched, exactly when it is in scope; a refusal says what is missing. */
    method BuildPayload(call: Call) returns (r: Result<Call, SdkError>)
      ensures mode.Direct? ==> r == Ok(call)
      ensures mode.Delegated? ==> (r.Ok? <==> InScope(required, mode.scopes, call))
      ensures mode.Delegated? && r.Ok? ==>
                IsCoveredProxy(required, mode.principal, mode.scopes, r.value) && r.value.args[2] == Nested(call)
      ensures r.Err? && r.error.NotPermitted? ==>
                && mode.Delegated? && required(call).Some? && !(required(call).value <= mode.scopes)
                && r.error == NotPermitted(call, required(call).value, mode.scopes)
      ensures mode.Delegated? ==>
                (r == Err(NeverAdmitted(call)) <==>
                  call.pallet == "Proxy" || call.pallet == "Utility" || call.pallet == "EthSigning"
                  || required(call).None?)
      ensures r.Err? ==> r.error.NotPermitted? || r.error == NeverAdmitted(call)
      ensures r == Payload(required, mode, call)
    {
      if mode.Direct? {
        return Ok(call);
      }
      if call.pallet == "Proxy" || call.pallet == "Utility" || call.pallet == "EthSigning" {
        return Err(NeverAdmitted(call));
      }
      match required(call) {
        case None => return Err(NeverAdmitted(call));
        case Some(needs) =>
          if !IsSuperset(mode.scopes, needs) {
            return Err(NotPermitted(call, needs, mode.scopes));
          }
      }
      r := Ok(ProxyPayload(mode.principal, call));
    }

    /** Of a delegate's refused call that was in scope: the answer that names the principal says
        unsponsored or out of scope, by whether its scopes cover the call; any other answer says
        revoked; without an answer, and for anything but a pool rejection, the refusal stands. */
    method SubmissionError(call: Call, refusal: Refusal, answer: Result<Grant, string>) returns (e: SdkError)
      modifies this
      ensures signer.Some? && old(mode).Delegated? && InScope(required, old(mode).scopes, call)
                && refusal.poolRejection ==>
                var principal, needs := old(mode).principal, required(call).value;
                && (e == KeyRevoked <==> answer.Ok? && !Names(answer, principal))
                && (e == Unsponsored(principal, call) <==> Names(answer, principal) && needs <= answer.value.value.1)
                && (e.NotPermitted? <==> Names(answer, principal) && !(needs <= answer.value.value.1))
                && (e.NotPermitted? ==> e == NotPermitted(call, needs, answer.value.value.1))
                && mode == if Names(answer, principal) then Delegated(principal, answer.value.value.1) else old(mode)
      ensures old(mode).Direct? || !refusal.poolRejection || (signer.Some? && answer.Err?) ==>
                e == Chain(refusal.detail) && mode == old(mode)
      ensures log == old(log) + if signer.Some? && old(mode).Delegated? && refusal.poolRejection
                                then [Answered(answer)] else []
      ensures (State(), e) == ExplainRefusal(required, old(State()), call, refusal, answer)
    {
      var before := mode;
      if before.Direct? || !refusal.poolRejection {
        return Chain(refusal.detail);
      }
      var needs := required(call);
      var outcome := RefreshDelegation(answer);
      match outcome {
        case Err(_) => e := Chain(refusal.detail);
        case Ok(Gone) => e := KeyRevoked;
        case Ok(Unchanged) => e := Unsponsored(before.principal, call);
        case Ok(Rescoped(held)) =>
          if needs.Some? && !IsSuperset(held, needs.value) {
            e := NotPermitted(call, needs.value, held);
          } else {
            e := Unsponsored(before.principal, call);
          }
      }
    }

    /** Revoked exactly when a delegate's proxy is missing and the chain, asked, does not name its
        principal; a failed lookup is reported in place of the failure, which stands otherwise. */
    method OuterDispatchError(reading: Reading, answer: Result<Grant, string>) returns (e: SdkError)
      modifies this
      ensures e == KeyRevoked <==>
                && reading.notProxy && signer.Some? && answer.Ok?
                && old(mode).Delegated? && !Names(answer, old(mode).principal)
      ensures reading.notProxy && signer.Some? && answer.Err? ==> e == Chain(answer.error)
      ensures !(reading.notProxy && signer.Some? && answer.Err?) && e != KeyRevoked ==> e == Chain(reading.text)
      ensures !reading.notProxy ==> log == old(log) && mode == old(mode)
      ensures reading.notProxy ==> log == old(log) + if signer.Some? then [Answered(answer)] else []
      ensures (State(), e) == ExplainOuterFailure(old(State()), reading, answer)
    {
      if !reading.notProxy {
        return Chain(reading.text);
      }
      var outcome := RefreshDelegation(answer);
      match outcome {
        case Ok(Gone) => e := KeyRevoked;
        case Ok(_) => e := Chain(reading.text);
        case Err(lookupFailed) => e := lookupFailed;
      }
    }

    /** The first proxy report decides; without one the wrapped call counts as successful. */
    method InnerDispatchError(block: Block) returns (r: Result<Option<string>, SdkError>)
      ensures r == Ok(None) <==> InnerFailure(block).None?
      ensures InnerFailure(block).Some? ==>
                var reading := InnerFailure(block).value;
                r == if reading.decodable then Ok(Some(reading.text)) else Err(Chain(reading.text))
    {
      var rt, views, records := block.runtime, block.views, block.records;
      for i := 0 to |records|
        invariant EventTheorems.FirstReport(rt, views, block.index, records)
                  == EventTheorems.FirstReport(rt, views, block.index, records[i..])
      {
        assert records[i..][1..] == records[i + 1..];
        if EventTheorems.OwnProxy(rt, block.index, records[i]) && records[i].values != [] {
          match views.result(records[i].values[0]) {
            case None => return Ok(None);
            case Some(error) =>
              var reading := block.read(error);
              return if reading.decodable then Ok(Some(reading.text)) else Err(Chain(reading.text));
          }
        }
      }
      r := Ok(None);
    }

    /** The failures that no grant explains, each from its own cause: no key, a refusal by the builder,
        the signer or the node, time running out, the extrinsic's own failure, and a wrapped call that
        failed behind an extrinsic that did not. Anything else that was sent earns a receipt. */
    method Tx(call: Call, world: World) returns (r: Result<Receipt, SdkError>)
      modifies this
      ensures r == Err(ReadOnly) <==> signer.None?
      ensures signer.Some? && (old(mode).Delegated? ==> InScope(required, old(mode).scopes, call)) ==>
                match (world.buildError, world.signError, world.fate)
                case (Some(refusal), _, _) => r == Err(Chain(refusal.detail))
                case (None, Some(refusal), _) => r == Err(Key(refusal.detail))
                case (None, None, TimedOut) => r == Err(FinalityTimeout)
                case (None, None, NotFinalized(refusal)) => r == Err(Chain(refusal.detail))
                case (None, None, Refused(refusal)) =>
                  && r.Err?
                  && (old(mode).Direct? || !refusal.poolRejection || world.grant.Err? ==>
                       r.error == Chain(refusal.detail))
                case (None, None, Finalized(block)) =>
                  var outer, inner := OuterFailure(block), InnerFailure(block);
                  if outer.Some? && outer.value.notProxy && world.grant.Err? then r == Err(Chain(world.grant.error))
                  else if outer.Some? then r == Err(Chain(outer.value.text)) || r == Err(KeyRevoked)
                  else if old(mode).Delegated? && inner.Some? then
                    var reading := inner.value;
                    r == Err(if reading.decodable then Dispatch(call, reading.text) else Chain(reading.text))
                  else r.Ok?
      ensures (State(), r) == Step(required, old(State()), call, world)
    {
      if signer.None? {
        return Err(ReadOnly);
      }
      var built := BuildPayload(call);
      if built.Err? {
        return Err(built.error);
      }
      if world.buildError.Some? {
        return Err(Chain(world.buildError.value.detail));
      }
      if world.signError.Some? {
        return Err(Key(world.signError.value.detail));
      }
      log := log + [Submitted(built.value)];
      match world.fate {
        case TimedOut => return Err(FinalityTimeout);
        case Refused(refusal) =>
          var e := SubmissionError(call, refusal, world.grant);
          return Err(e);
        case NotFinalized(refusal) => return Err(Chain(refusal.detail));
        case Finalized(block) =>
          if OuterFailure(block).Some? {
            var e := OuterDispatchError(OuterFailure(block).value, world.grant);
            return Err(e);
          }
          if mode.Delegated? {
            var inner := InnerDispatchError(block);
            if inner.Err? {
              return Err(inner.error);
            }
            if inner.value.Some? {
              return Err(Dispatch(call, inner.value.value));
            }
          }
      }
      r := Ok(Receipt(built.value));
    }
  }
}
