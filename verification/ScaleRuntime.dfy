/** A runtime in the SCALE form that meets the assumptions on codecs and deposits the blocks on
    which the Rust and Go clients part. */
module ScaleRuntime {
  import opened Wrappers
  import opened Events
  import opened EventTheorems
  import opened ScaleCodecs
  import opened EventExamples

  const TRANSFER_ID := EventId(2, 2)

  /** `Proxy.ProxyExecuted`, `System.ExtrinsicFailed` with a dispatch info of ten bytes, and
      `Balances.Transfer` between two accounts. */
  const REGISTRY: map<EventId, EventDecoder> := map[
    PROXY_ID := EventDecoder("Proxy.ProxyExecuted", [OUTCOME]),
    FAILED_ID := EventDecoder("System.ExtrinsicFailed", [ERROR_FIELD, FixedWidth(10)]),
    TRANSFER_ID := EventDecoder("Balances.Transfer", [FixedWidth(32), FixedWidth(32), FixedWidth(16)])]

  const RUNTIME: Runtime := Runtime(Some(PROXY_ID), Some(FAILED_ID), REGISTRY, COUNT, PHASE, ERROR, TOPICS)

  function ErrorOf(v: Value): DispatchError {
    DispatchError(v)
  }

  const VIEWS: Views := Views(ResultOf, ErrorOf)

  lemma {:induction false} FieldsOfRegistry(id: EventId)
    requires id in REGISTRY
    ensures FieldsRoundTrip(REGISTRY[id].fields)
  {
    OutcomeRoundTrips();
    ErrorFieldRoundTrips();
    FixedWidthRoundTrips(10);
    FixedWidthRoundTrips(16);
    FixedWidthRoundTrips(32);
  }

  /** The assumptions of the event theorems hold of a runtime in the SCALE form: compact counts,
      a 32-bit phase index, tagged errors, and fields of fixed width. */
  lemma {:induction false} RuntimeSpeaks()
    ensures SpeaksFor(RUNTIME, VIEWS)
  {
    CountRoundTrips();
    PhaseRoundTrips();
    ErrorRoundTrips();
    TopicsRoundTrips();
    forall id | id in REGISTRY
      ensures FieldsRoundTrip(REGISTRY[id].fields)
    {
      FieldsOfRegistry(id);
    }
    assert CarriesError(RUNTIME, VIEWS, [ERROR_FIELD, FixedWidth(10)]);
  }

  lemma {:induction false} RuntimeDeposits()
    ensures Deposits(RUNTIME, VIEWS)
  {
    RuntimeSpeaks();
    assert ([1] + BAD_ORIGIN)[1..] == BAD_ORIGIN;
  }

  /** A transfer of another extrinsic is a record of this runtime as well. */
  lemma {:induction false} TransferIsKnown(from: Value, to: Value, amount: Value, index: nat)
    requires |from| == 32 && |to| == 32 && |amount| == 16 && index < U32
    ensures Known(RUNTIME, Record(ApplyExtrinsic(index), TRANSFER_ID, [from, to, amount], []))
  {
  }

  /** The three blocks of this runtime: Rust returns receipts for the first two and Go errors, and
      on the third they report different failures. */
  lemma {:induction false} PortsPartInScale()
    ensures CanDeposit(RUNTIME, VIEWS, []) && CanDeposit(RUNTIME, VIEWS, [RAN, FAILED_INSIDE])
    ensures CanDeposit(RUNTIME, VIEWS, [NOT_PROXY])
    ensures var silent := BlockOf(RUNTIME, VIEWS, []);
            RustReport(silent, Ok(None)).Ok? && GoReport(silent, Ok(None)).Err?
    ensures var behind := BlockOf(RUNTIME, VIEWS, [RAN, FAILED_INSIDE]);
            RustReport(behind, Ok(None)).Ok? && GoReport(behind, Ok(None)).Err?
    ensures var missing := BlockOf(RUNTIME, VIEWS, [NOT_PROXY]);
            RustReport(missing, Err("offline")) != GoReport(missing, Err("offline"))
  {
    RuntimeDeposits();
    SilenceExample(RUNTIME, VIEWS);
    SecondReportExample(RUNTIME, VIEWS);
    FailedRereadExample(RUNTIME, VIEWS);
  }
}
