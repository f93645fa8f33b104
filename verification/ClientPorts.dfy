/** The Rust and the Go client side by side: on every transaction they report the same thing,
    except in the situations named here. */
module ClientPorts {
  import opened Wrappers
  import opened Scopes
  import Events
  import R = EventTheorems
  import opened DelegatedClient
  import opened DelegationTheorems
  import opened ScopesTable
  import opened GoClient

  // ---------- what a block says ----------

  /** The bytes encode the records, in a runtime that both clients can decode. */
  ghost predicate WellFormedBlock(b: Block) {
    && R.SpeaksFor(b.runtime, b.views) && b.runtime.count.fits(|b.records|)
    && (forall r | r in b.records :: R.Known(b.runtime, r))
    && b.raw == R.EncodeBlock(b.runtime, b.records) && R.FailsOnce(b.runtime, b.index, b.records)
  }

  /** No report of the wrapped call arrived: Rust takes that for success. */
  ghost predicate Silent(b: Block) {
    forall r | r in b.records :: !R.OwnProxy(b.runtime, b.index, r)
  }

  /** A failing report behind a first one that does not fail: Rust reads only the first. */
  ghost predicate FailsBehindSuccess(b: Block) {
    && !R.FirstReportFails(b.runtime, b.views, b.index, b.records)
    && exists r :: r in b.records && R.FailingProxy(b.runtime, b.views, b.index, r)
  }

  /** The wrapped call failed by both readings, but Rust cannot decode the first report's error,
      or Go reads a later report with another text. */
  ghost predicate ToldApart(b: Block) {
    var last := R.LastProxyFailure(b.runtime, b.views, b.index, b.records);
    && InnerFailure(b).Some? && last.Some?
    && (!InnerFailure(b).value.decodable || InnerFailure(b).value.text != b.read(last.value).text)
  }

  lemma {:induction false} GoReadsTheFold(b: Block)
    requires WellFormedBlock(b)
    ensures Events.Parsed(b.runtime, b.raw, b.index) == Ok(R.Expected(b.runtime, b.views, b.index, b.records))
  {
    R.ParserRefinesFold(b.runtime, b.views, b.index, b.records, []);
    assert b.raw + [] == b.raw;
  }

  lemma {:induction false} SameOuterFailure(b: Block)
    requires WellFormedBlock(b)
    ensures var last := R.LastFailure(b.runtime, b.views, b.index, b.records);
            OuterFailure(b) == if last.Some? then Some(b.read(last.value)) else None
  {
    R.FirstFailureIsLast(b.runtime, b.views, b.index, b.records);
  }

  /** The wrapped call's outcome, by Go's reading. */
  ghost function GoVerdict(b: Block): Events.Verdict
    requires WellFormedBlock(b)
  {
    Events.DelegatedOutcome(R.Expected(b.runtime, b.views, b.index, b.records), true)
  }

  /** How the readings of a wrapped call compare, if the extrinsic itself did not fail. */
  lemma {:induction false} ReadingsOfWrappedCall(b: Block)
    requires WellFormedBlock(b) && OuterFailure(b).None?
    ensures var last := R.LastProxyFailure(b.runtime, b.views, b.index, b.records);
            && (last.Some? ==> GoVerdict(b) == Events.Dispatched(last.value))
            && (last.None? ==>
                InnerFailure(b).None? && GoVerdict(b) == if Silent(b) then Events.FateUnknown else Events.Succeeded)
            && (last.Some? && InnerFailure(b).None? <==> FailsBehindSuccess(b))
            && (Silent(b) ==> last.None?)
  {
    var rt, views, index, records := b.runtime, b.views, b.index, b.records;
    SameOuterFailure(b);
    NoFailureNoRecord(b);
    R.FirstReportMeaning(rt, views, index, records);
    R.PortsAgreeOnDelegatedSuccess(rt, views, index, records);
  }

  lemma {:induction false} NoFailureNoRecord(b: Block)
    requires WellFormedBlock(b) && OuterFailure(b).None?
    ensures forall r | r in b.records :: !R.OwnFailure(b.runtime, b.index, r)
  {
    SameOuterFailure(b);
    forall r | r in b.records
      ensures !R.OwnFailure(b.runtime, b.index, r)
    {
      assert R.Known(b.runtime, r);
      assert R.OwnFailure(b.runtime, b.index, r) ==> r.values != [];
    }
  }

  // ---------- where the clients part ----------

  /** The tables disagree on the call, for a key holding `held`. */
  predicate TablesSplit(required: Table, goRequired: Table, held: ScopeSet, call: Call) {
    OutOfScope(required, held, call) != OutOfScope(goRequired, held, call)
  }

  predicate CanBeSent(world: World) {
    world.buildError.None? && world.signError.None?
  }

  /** A failure other than the node's refusal reads like one, and the chain answers: only Go
      re-reads the grant then. */
  predicate Misread(world: World) {
    && world.grant.Ok?
    && match (world.buildError, world.signError)
       case (Some(refusal), _) => refusal.poolRejection
       case (None, Some(refusal)) => refusal.poolRejection
       case (None, None) => world.fate.NotFinalized? && world.fate.refusal.poolRejection
  }

  /** The proxy call failed for want of a proxy and the grant could not be re-read: Rust reports
      the failed re-read, Go the dispatch failure. */
  predicate BlindToRevocation(world: World) {
    && CanBeSent(world) && FoundNoProxy(world.fate)
    && world.grant.Err? && world.grant.error != OuterFailure(world.fate.block).value.text
  }

  /** The node refused the call and the scopes read again split the tables. */
  predicate SplitByRescoping(required: Table, goRequired: Table, principal: Account, call: Call, world: World) {
    && CanBeSent(world) && PoolRefused(world.fate) && Names(world.grant, principal)
    && TablesSplit(required, goRequired, world.grant.value.value.1, call)
  }

  /** The extrinsic landed and its events are read differently. */
  ghost predicate EventsSplit(world: World) {
    && CanBeSent(world) && Landed(world.fate)
    && var b := world.fate.block; Silent(b) || FailsBehindSuccess(b) || ToldApart(b)
  }

  ghost predicate PortsPart(required: Table, goRequired: Table, c: Client, call: Call, world: World) {
    && c.signer.Some?
    && ((c.mode.Delegated? && TablesSplit(required, goRequired, c.mode.scopes, call))
        || (&& Payload(required, c.mode, call).Ok?
            && (|| BlindToRevocation(world)
                || (&& c.mode.Delegated?
                    && (|| Misread(world) || EventsSplit(world)
                        || SplitByRescoping(required, goRequired, c.mode.principal, call, world))))))
  }

  // ---------- stage by stage ----------

  lemma {:induction false} RefusalsCompared(
    required: Table, goRequired: Table, c: Client, call: Call, refusal: Refusal, answer: Result<Grant, string>)
    requires c.signer.Some?
    requires c.mode.Delegated? ==>
               InScope(required, c.mode.scopes, call) && !TablesSplit(required, goRequired, c.mode.scopes, call)
    ensures var (rust, r) := ExplainRefusal(required, c, call, refusal, answer);
            var (go, g) := GoExplainSubmission(goRequired, c, call, refusal, Chain(refusal.detail), answer);
            && go.mode == rust.mode
            && (g == r <==> !(&& c.mode.Delegated? && refusal.poolRejection && Names(answer, c.mode.principal)
                              && TablesSplit(required, goRequired, answer.value.value.1, call)))
  {
  }

  /** Go alone explains a failure that is not the node's refusal of the extrinsic. */
  lemma {:induction false} MisreadIsTold(
    goRequired: Table, c: Client, call: Call, refusal: Refusal, error: SdkError, answer: Result<Grant, string>)
    requires c.signer.Some? && (error.Chain? || error.Key?)
    ensures var (go, g) := GoExplainSubmission(goRequired, c, call, refusal, error, answer);
            && (g == error <==> !(c.mode.Delegated? && refusal.poolRejection && answer.Ok?))
            && (g == error ==> go.mode == c.mode)
  {
  }

  /** Go's result, from what it reads in the block. */
  lemma {:induction false} GoSettlesFailure(
    goRequired: Table, sent: Client, call: Call, payload: Call, b: Block, grant: Result<Grant, string>)
    requires WellFormedBlock(b) && OuterFailure(b).Some?
    ensures GoSettleBlock(goRequired, sent, call, payload, b, grant) ==
              (GoExplainDispatch(sent, OuterFailure(b).value, grant).0,
               Err(GoExplainDispatch(sent, OuterFailure(b).value, grant).1))
  {
    GoReadsTheFold(b);
    SameOuterFailure(b);
  }

  lemma {:induction false} GoSettlesLanding(
    goRequired: Table, sent: Client, call: Call, payload: Call, b: Block, grant: Result<Grant, string>)
    requires WellFormedBlock(b) && OuterFailure(b).None?
    ensures var (go, g) := GoSettleBlock(goRequired, sent, call, payload, b, grant);
            var last := R.LastProxyFailure(b.runtime, b.views, b.index, b.records);
            && go == sent
            && g == if sent.mode.Direct? then Ok(Receipt(payload))
                    else if last.Some? then Err(Dispatch(call, b.read(last.value).text))
                    else if Silent(b) then Err(Chain(SILENCE))
                    else Ok(Receipt(payload))
  {
    GoReadsTheFold(b);
    SameOuterFailure(b);
    ReadingsOfWrappedCall(b);
  }

  /** A landed block whose first report does not fail: a receipt from Rust; Go goes by the last
      failing report, and by silence. */
  lemma {:induction false} FirstReportIsTold(
    required: Table, goRequired: Table, sent: Client, call: Call, payload: Call, b: Block, grant: Result<Grant, string>)
    requires WellFormedBlock(b) && OuterFailure(b).None? && InnerFailure(b).None? && sent.mode.Delegated?
    ensures Settle(required, sent, call, payload, World(None, None, Finalized(b), grant)).1 == Ok(Receipt(payload))
    ensures var g := GoSettleBlock(goRequired, sent, call, payload, b, grant).1;
            && (FailsBehindSuccess(b) ==>
                var last := R.LastProxyFailure(b.runtime, b.views, b.index, b.records);
                last.Some? && g == Err(Dispatch(call, b.read(last.value).text)))
            && (Silent(b) ==> g == Err(Chain(SILENCE)))
  {
    GoSettlesLanding(goRequired, sent, call, payload, b, grant);
    ReadingsOfWrappedCall(b);
  }

  /** A missing proxy and a lookup that fails: each client reports another of the two. */
  lemma {:induction false} FailedLookupIsTold(
    required: Table, goRequired: Table, sent: Client, call: Call, payload: Call, b: Block, why: string)
    requires WellFormedBlock(b) && OuterFailure(b).Some? && OuterFailure(b).value.notProxy && sent.signer.Some?
    ensures Settle(required, sent, call, payload, World(None, None, Finalized(b), Err(why))).1 == Err(Chain(why))
    ensures GoSettleBlock(goRequired, sent, call, payload, b, Err(why)).1 == Err(Chain(OuterFailure(b).value.text))
  {
    GoSettlesFailure(goRequired, sent, call, payload, b, Err(why));
  }

  lemma {:induction false} FailedBlocksCompared(
    required: Table, goRequired: Table, sent: Client, call: Call, payload: Call, world: World)
    requires sent.signer.Some? && world.fate.Finalized? && WellFormedBlock(world.fate.block)
    requires OuterFailure(world.fate.block).Some?
    ensures var (rust, r) := Settle(required, sent, call, payload, world);
            var (go, g) := GoSettleBlock(goRequired, sent, call, payload, world.fate.block, world.grant);
            && go.mode == rust.mode
            && (g == r <==> !(FoundNoProxy(world.fate) && world.grant.Err?
                              && world.grant.error != OuterFailure(world.fate.block).value.text))
  {
    GoSettlesFailure(goRequired, sent, call, payload, world.fate.block, world.grant);
  }

  lemma {:induction false} LandedBlocksCompared(
    required: Table, goRequired: Table, sent: Client, call: Call, payload: Call, world: World)
    requires sent.signer.Some? && Landed(world.fate) && WellFormedBlock(world.fate.block)
    ensures var (rust, r) := Settle(required, sent, call, payload, world);
            var (go, g) := GoSettleBlock(goRequired, sent, call, payload, world.fate.block, world.grant);
            var b := world.fate.block;
            && go.mode == rust.mode
            && (g == r <==> !(sent.mode.Delegated? && (Silent(b) || FailsBehindSuccess(b) || ToldApart(b))))
  {
    GoSettlesLanding(goRequired, sent, call, payload, world.fate.block, world.grant);
    ReadingsOfWrappedCall(world.fate.block);
  }

  /** On every transaction, of any client and whatever the world does, the two clients report
      the same thing exactly when they do not part; and unless their tables part at once or Go
      misreads a failure, they end in the same mode. */
  lemma {:induction false} PortsAgreeOnFailures(required: Table, goRequired: Table, c: Client, call: Call, world: World)
    requires world.fate.Finalized? ==> WellFormedBlock(world.fate.block)
    ensures var (rust, r) := Step(required, c, call, world);
            var (go, g) := GoStep(goRequired, c, call, world);
            && (g == r <==> !PortsPart(required, goRequired, c, call, world))
            && (go.mode != rust.mode ==>
                c.mode.Delegated? && (TablesSplit(required, goRequired, c.mode.scopes, call) || Misread(world)))
  {
    if c.signer.Some? && Payload(required, c.mode, call).Ok? && Payload(goRequired, c.mode, call).Ok? {
      SentCallsCompared(required, goRequired, c, call, world);
    } else if c.signer.Some? && c.mode.Delegated? {
      SplitIsTold(required, goRequired, c, call, world);
    }
  }

  /** One client refuses at once, in words the other cannot come to use. */
  lemma {:induction false} SplitIsTold(required: Table, goRequired: Table, c: Client, call: Call, world: World)
    requires c.signer.Some? && c.mode.Delegated?
    requires Payload(required, c.mode, call).Err? || Payload(goRequired, c.mode, call).Err?
    ensures var (rust, r) := Step(required, c, call, world);
            var (go, g) := GoStep(goRequired, c, call, world);
            && (g == r <==> !TablesSplit(required, goRequired, c.mode.scopes, call))
            && (g == r ==> go.mode == rust.mode)
  {
  }

  lemma {:induction false} SentCallsCompared(required: Table, goRequired: Table, c: Client, call: Call, world: World)
    requires c.signer.Some? && Payload(required, c.mode, call).Ok? && Payload(goRequired, c.mode, call).Ok?
    requires world.fate.Finalized? ==> WellFormedBlock(world.fate.block)
    ensures var (rust, r) := Step(required, c, call, world);
            var (go, g) := GoStep(goRequired, c, call, world);
            && (g == r <==> !PortsPart(required, goRequired, c, call, world))
            && (go.mode != rust.mode ==> c.mode.Delegated? && Misread(world))
  {
    var payload := Payload(required, c.mode, call).value;
    var sent := c.(log := c.log + [Submitted(payload)]);
    match (world.buildError, world.signError)
    case (Some(refusal), _) => MisreadIsTold(goRequired, c, call, refusal, Chain(refusal.detail), world.grant);
    case (None, Some(refusal)) => MisreadIsTold(goRequired, c, call, refusal, Key(refusal.detail), world.grant);
    case (None, None) =>
      match world.fate
      case TimedOut =>
      case Refused(refusal) => RefusalsCompared(required, goRequired, sent, call, refusal, world.grant);
      case NotFinalized(refusal) => MisreadIsTold(goRequired, sent, call, refusal, Chain(refusal.detail), world.grant);
      case Finalized(b) =>
        if OuterFailure(b).Some? {
          FailedBlocksCompared(required, goRequired, sent, call, payload, world);
        } else {
          LandedBlocksCompared(required, goRequired, sent, call, payload, world);
        }
  }

  /** With the two clients' own tables, a split of the tables is a prefixed call that Rust does
      not list; rescoping never splits what was admitted by both. */
  lemma {:induction false} OwnTablesPart(c: Client, call: Call, world: World)
    requires world.fate.Finalized? ==> WellFormedBlock(world.fate.block)
    ensures Step(RequiredScopes, c, call, world).1 == GoStep(GoRequiredScopes, c, call, world).1 <==>
            !(&& c.signer.Some?
              && ((c.mode.Delegated? && ForcedButUnlisted(call))
                  || (&& Payload(RequiredScopes, c.mode, call).Ok?
                      && (BlindToRevocation(world) || (c.mode.Delegated? && (Misread(world) || EventsSplit(world)))))))
  {
    PortsAgreeOnFailures(RequiredScopes, GoRequiredScopes, c, call, world);
    if c.mode.Delegated? {
      TablesDifferOnPrefix(c.mode.scopes, call);
      if Names(world.grant, c.mode.principal) {
        TablesDifferOnPrefix(world.grant.value.value.1, call);
      }
    }
  }
}
