/** The blocks on which the Rust and Go clients part, in any runtime that can deposit them. */
module EventExamples {
  import opened Wrappers
  import Scopes
  import opened Events
  import opened EventTheorems
  import C = DelegatedClient
  import ScopesTable
  import GoClient
  import ClientPorts

  const PROXY_ID := EventId(1, 1)
  const FAILED_ID := EventId(0, 1)

  /** An event of extrinsic 0. */
  function Own(id: EventId, values: seq<Value>): Record {
    Record(ApplyExtrinsic(0), id, values, [])
  }

  const BAD_ORIGIN: Bytes := [2]

  /** A module error: pallet 29, error 1. */
  const NO_PROXY: Bytes := [3, 29, 1, 0, 0, 0]

  const RAN := Own(PROXY_ID, [[0]])
  const FAILED_INSIDE := Own(PROXY_ID, [[1] + BAD_ORIGIN])
  const NOT_PROXY := Own(FAILED_ID, [NO_PROXY, [0, 0, 0, 0, 0, 0, 0, 0, 0, 0]])

  /** The runtime's events include these three, and mean what their names say. */
  ghost predicate Deposits(rt: Runtime, views: Views) {
    && SpeaksFor(rt, views) && rt.proxyExecuted == Some(PROXY_ID) && rt.extrinsicFailed == Some(FAILED_ID)
    && Known(rt, RAN) && Known(rt, FAILED_INSIDE) && Known(rt, NOT_PROXY)
    && rt.count.fits(0) && rt.count.fits(1) && rt.count.fits(2)
    && views.result(RAN.values[0]) == None
    && views.result(FAILED_INSIDE.values[0]) == Some(DispatchError(BAD_ORIGIN))
    && views.error(NO_PROXY) == DispatchError(NO_PROXY)
  }

  // ---------- blocks ----------

  ghost predicate CanDeposit(rt: Runtime, views: Views, records: seq<Record>) {
    && SpeaksFor(rt, views) && rt.count.fits(|records|) && (forall r | r in records :: Known(rt, r))
    && FailsOnce(rt, 0, records)
  }

  function Read(e: DispatchError): C.Reading {
    C.Reading(e.variant == NO_PROXY, true, "refused")
  }

  ghost function BlockOf(rt: Runtime, views: Views, records: seq<Record>): (b: C.Block)
    requires CanDeposit(rt, views, records)
    ensures ClientPorts.WellFormedBlock(b)
  {
    C.Block(rt, views, 0, records, EncodeBlock(rt, records), Read, e => C.Refusal(false, "unreadable"))
  }

  lemma {:induction false} SecondReportFails(rt: Runtime, views: Views)
    requires Deposits(rt, views)
    ensures var records := [RAN, FAILED_INSIDE];
            && CanDeposit(rt, views, records)
            && FirstFailure(rt, views, 0, records).None? && FirstReport(rt, views, 0, records).None?
            && !FirstReportFails(rt, views, 0, records)
            && exists r :: r in records && FailingProxy(rt, views, 0, r)
  {
    var records := [RAN, FAILED_INSIDE];
    assert records[1..] == [FAILED_INSIDE] && [FAILED_INSIDE][1..] == [];
    assert FirstFailure(rt, views, 0, [FAILED_INSIDE]).None?;
    forall i: nat
      ensures !FailsFirst(rt, views, 0, records, i)
    {
      assert i > 0 ==> OwnProxy(rt, 0, records[0]);
    }
    assert records[1] in records && FailingProxy(rt, views, 0, records[1]);
  }

  // ---------- transactions ----------

  /** The key holds every scope of a member. */
  const KEY := C.Client(Some(C.Account([1])), C.Delegated(C.Account([2]), Scopes.ALL), [])
  const STORE := C.Call("Secrets", "store", [])

  ghost function Finalizes(b: C.Block, grant: Result<C.Grant, string>): C.World {
    C.World(None, None, C.Finalized(b), grant)
  }

  ghost function RustReport(b: C.Block, grant: Result<C.Grant, string>): Result<C.Receipt, C.SdkError> {
    C.Step(ScopesTable.RequiredScopes, KEY, STORE, Finalizes(b, grant)).1
  }

  ghost function GoReport(b: C.Block, grant: Result<C.Grant, string>): Result<C.Receipt, C.SdkError> {
    GoClient.GoStep(ScopesTable.GoRequiredScopes, KEY, STORE, Finalizes(b, grant)).1
  }

  /** Both clients send the call; how it settles decides. */
  lemma {:induction false} StoreIsSent(b: C.Block, grant: Result<C.Grant, string>)
    ensures var payload := C.ProxyPayload(KEY.mode.principal, STORE);
            var sent := KEY.(log := [C.Submitted(payload)]);
            && RustReport(b, grant) == C.Settle(ScopesTable.RequiredScopes, sent, STORE, payload, Finalizes(b, grant)).1
            && GoReport(b, grant) ==
               GoClient.GoSettleBlock(ScopesTable.GoRequiredScopes, sent, STORE, payload, b, grant).1
  {
    assert ScopesTable.RequiredScopes(STORE) == Some(ScopesTable.Write(ScopesTable.SECRETS));
    var entry := C.Submitted(C.ProxyPayload(KEY.mode.principal, STORE));
    assert KEY.log + [entry] == [entry];
  }

  /** The extrinsic landed and the first report did not fail. */
  lemma {:induction false} StoreLands(b: C.Block)
    requires ClientPorts.WellFormedBlock(b) && C.OuterFailure(b).None? && C.InnerFailure(b).None?
    ensures RustReport(b, Ok(None)).Ok?
    ensures ClientPorts.FailsBehindSuccess(b) ==> GoReport(b, Ok(None)).Err? && GoReport(b, Ok(None)).error.Dispatch?
    ensures ClientPorts.Silent(b) ==> GoReport(b, Ok(None)) == Err(C.Chain(GoClient.SILENCE))
  {
    StoreIsSent(b, Ok(None));
    var payload := C.ProxyPayload(KEY.mode.principal, STORE);
    var sent := KEY.(log := [C.Submitted(payload)]);
    ClientPorts.FirstReportIsTold(ScopesTable.RequiredScopes, ScopesTable.GoRequiredScopes, sent, STORE, payload,
                                  b, Ok(None));
  }

  /** No proxy report: a receipt from Rust, an error from Go. */
  lemma {:induction false} SilenceExample(rt: Runtime, views: Views)
    requires Deposits(rt, views)
    ensures CanDeposit(rt, views, [])
    ensures var b := BlockOf(rt, views, []);
            RustReport(b, Ok(None)).Ok? && GoReport(b, Ok(None)) == Err(C.Chain(GoClient.SILENCE))
  {
    StoreLands(BlockOf(rt, views, []));
  }

  /** A failing report behind a successful one: a receipt from Rust, a dispatch error from Go. */
  lemma {:induction false} SecondReportExample(rt: Runtime, views: Views)
    requires Deposits(rt, views)
    ensures CanDeposit(rt, views, [RAN, FAILED_INSIDE])
    ensures var b := BlockOf(rt, views, [RAN, FAILED_INSIDE]);
            RustReport(b, Ok(None)).Ok? && GoReport(b, Ok(None)).Err? && GoReport(b, Ok(None)).error.Dispatch?
  {
    SecondReportFails(rt, views);
    StoreLands(BlockOf(rt, views, [RAN, FAILED_INSIDE]));
  }

  /** The extrinsic failed for want of a proxy, and the grant could not be read again. */
  lemma {:induction false} StoreFails(b: C.Block, why: string)
    requires ClientPorts.WellFormedBlock(b) && C.OuterFailure(b) == Some(C.Reading(true, true, "refused"))
    ensures RustReport(b, Err(why)) == Err(C.Chain(why)) && GoReport(b, Err(why)) == Err(C.Chain("refused"))
  {
    StoreIsSent(b, Err(why));
    var payload := C.ProxyPayload(KEY.mode.principal, STORE);
    var sent := KEY.(log := [C.Submitted(payload)]);
    ClientPorts.FailedLookupIsTold(ScopesTable.RequiredScopes, ScopesTable.GoRequiredScopes, sent, STORE, payload, b,
      why);
  }

  /** The proxy is missing and the grant cannot be read again: Rust reports the failed lookup, Go
      the failure of the extrinsic. */
  lemma {:induction false} FailedRereadExample(rt: Runtime, views: Views)
    requires Deposits(rt, views)
    ensures CanDeposit(rt, views, [NOT_PROXY])
    ensures var b := BlockOf(rt, views, [NOT_PROXY]);
            RustReport(b, Err("offline")) == Err(C.Chain("offline"))
              && GoReport(b, Err("offline")) == Err(C.Chain("refused"))
  {
    StoreFails(BlockOf(rt, views, [NOT_PROXY]), "offline");
  }
}
