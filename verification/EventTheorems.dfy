/** The event parser stays in step with the encoder and computes a fold over the records. */
module EventTheorems {
  import opened Wrappers
  import opened Events
  import Text

  /** One event as the runtime emitted it. */
  datatype Record = Record(phase: Phase, id: EventId, values: seq<Value>, topics: Value)

  /** What the first field of the two hand-decoded events means. */
  datatype Views = Views(result: Value -> Option<DispatchError>, error: Value -> DispatchError)

  // ---------- the encoder ----------

  /** What the wire type can hold comes back, and what follows it is left. */
  ghost predicate RoundTrips<T(!new)>(c: Codec<T>) {
    forall x: T, rest: Bytes | c.fits(x) :: c.decode(c.encode(x) + rest) == Some((x, rest))
  }

  function EncodeResult(rt: Runtime, result: Option<DispatchError>): Bytes {
    if result.None? then [0] else [1] + rt.dispatchError.encode(result.value)
  }

  /** The registry decodes what the runtime encodes; the two special events have the fields
      their hand-written decoders expect. */
  ghost predicate SpeaksFor(rt: Runtime, views: Views) {
    && RoundTrips(rt.count) && RoundTrips(rt.phase) && RoundTrips(rt.dispatchError) && RoundTrips(rt.topics)
    && (forall id | id in rt.registry :: FieldsRoundTrip(rt.registry[id].fields))
    && (rt.proxyExecuted.Some? ==> rt.proxyExecuted != rt.extrinsicFailed)
    && (forall id | id in rt.registry
        && rt.proxyExecuted == Some(id) :: CarriesResult(rt, views, rt.registry[id].fields))
    && (forall id | id in rt.registry
        && rt.extrinsicFailed == Some(id) :: CarriesError(rt, views, rt.registry[id].fields))
  }

  ghost predicate FieldsRoundTrip(fields: seq<Codec<Value>>) {
    forall k | 0 <= k < |fields| :: RoundTrips(fields[k])
  }

  /** One field, a dispatch result. */
  ghost predicate CarriesResult(rt: Runtime, views: Views, fields: seq<Codec<Value>>) {
    && |fields| == 1
    && forall v | fields[0].fits(v) ::
         && fields[0].encode(v) == EncodeResult(rt, views.result(v))
         && (views.result(v).Some? ==> rt.dispatchError.fits(views.result(v).value))
  }

  /** A dispatch error, and whatever else. */
  ghost predicate CarriesError(rt: Runtime, views: Views, fields: seq<Codec<Value>>) {
    && |fields| >= 1
    && forall v | fields[0].fits(v) ::
         fields[0].encode(v) == rt.dispatchError.encode(views.error(v)) && rt.dispatchError.fits(views.error(v))
  }

  ghost predicate FieldsFit(fields: seq<Codec<Value>>, values: seq<Value>) {
    |values| == |fields| && forall k | 0 <= k < |fields| :: fields[k].fits(values[k])
  }

  /** A record the runtime can deposit. */
  ghost predicate Known(rt: Runtime, r: Record) {
    && r.id in rt.registry && FieldsFit(rt.registry[r.id].fields, r.values)
    && rt.phase.fits(r.phase) && rt.topics.fits(r.topics)
  }

  function EncodeFields(fields: seq<Codec<Value>>, values: seq<Value>): Bytes
    requires |fields| == |values|
    decreases |fields|
  {
    if fields == [] then [] else fields[0].encode(values[0]) + EncodeFields(fields[1..], values[1..])
  }

  ghost function EncodeRecord(rt: Runtime, r: Record): Bytes
    requires Known(rt, r)
  {
    rt.phase.encode(r.phase) +
      ([r.id.pallet, r.id.event] + (EncodeFields(rt.registry[r.id].fields, r.values) + rt.topics.encode(r.topics)))
  }

  ghost function EncodeRecords(rt: Runtime, records: seq<Record>): Bytes
    requires forall r | r in records :: Known(rt, r)
  {
    if records == [] then [] else EncodeRecord(rt, records[0]) + EncodeRecords(rt, records[1..])
  }

  ghost function EncodeBlock(rt: Runtime, records: seq<Record>): Bytes
    requires forall r | r in records :: Known(rt, r)
  {
    rt.count.encode(|records|) + EncodeRecords(rt, records)
  }

  // ---------- the fold ----------

  predicate OwnProxy(rt: Runtime, index: nat, r: Record) {
    r.phase == ApplyExtrinsic(index) && rt.proxyExecuted == Some(r.id)
  }

  predicate OwnFailure(rt: Runtime, index: nat, r: Record) {
    r.phase == ApplyExtrinsic(index) && rt.extrinsicFailed == Some(r.id)
  }

  predicate FailingProxy(rt: Runtime, views: Views, index: nat, r: Record) {
    OwnProxy(rt, index, r) && r.values != [] && views.result(r.values[0]).Some?
  }

  /** What the record adds to the extrinsic's events. */
  ghost function EventsOf(rt: Runtime, index: nat, r: Record): seq<Event>
    requires Known(rt, r)
  {
    if r.phase != ApplyExtrinsic(index) then []
    else if OwnProxy(rt, index, r) then [PROXY_EXECUTED]
    else if OwnFailure(rt, index, r) then [EXTRINSIC_FAILED]
    else [SplitEventName(rt.registry[r.id].name, r.values, r.phase)]
  }

  /** The extrinsic's own events, named and in order. */
  ghost function OwnEvents(rt: Runtime, index: nat, records: seq<Record>): seq<Event>
    requires forall r | r in records :: Known(rt, r)
  {
    if records == [] then []
    else
      var r := records[|records| - 1];
      assert Known(rt, r);
      OwnEvents(rt, index, records[..|records| - 1]) + EventsOf(rt, index, r)
  }

  ghost function LastFailure(rt: Runtime, views: Views, index: nat, records: seq<Record>): (f: Option<DispatchError>)
    ensures f.Some? <==> exists r :: r in records && OwnFailure(rt, index, r) && r.values != []
  {
    if records == [] then None
    else
      var r := records[|records| - 1];
      if OwnFailure(rt, index, r) && r.values != [] then Some(views.error(r.values[0]))
      else
        assert forall x | x in records :: x == r || x in records[..|records| - 1];
        LastFailure(rt, views, index, records[..|records| - 1])
  }

  ghost function LastProxyFailure(
    rt: Runtime, views: Views, index: nat, records: seq<Record>): (f: Option<DispatchError>)
    ensures f.Some? <==> exists r :: r in records && FailingProxy(rt, views, index, r)
  {
    if records == [] then None
    else
      var r := records[|records| - 1];
      if FailingProxy(rt, views, index, r) then views.result(r.values[0])
      else
        assert forall x | x in records :: x == r || x in records[..|records| - 1];
        LastProxyFailure(rt, views, index, records[..|records| - 1])
  }

  ghost function Expected(rt: Runtime, views: Views, index: nat, records: seq<Record>): Outcome
    requires forall r | r in records :: Known(rt, r)
  {
    Outcome(LastFailure(rt, views, index, records), LastProxyFailure(rt, views, index, records),
            exists r :: r in records && OwnProxy(rt, index, r), OwnEvents(rt, index, records))
  }

  // ---------- the parser follows the encoder ----------

  lemma {:induction false} Regroup(a: Bytes, b: Bytes, c: Bytes)
    ensures (a + b) + c == a + (b + c)
  {
  }

  lemma {:induction false} FieldsInStep(fields: seq<Codec<Value>>, values: seq<Value>, rest: Bytes)
    requires FieldsFit(fields, values) && FieldsRoundTrip(fields)
    ensures ReadFields(fields, EncodeFields(fields, values) + rest) == Some((values, rest))
    decreases |fields|
  {
    if fields == [] {
      assert EncodeFields(fields, values) + rest == rest;
    } else {
      var head, tail := fields[0].encode(values[0]), EncodeFields(fields[1..], values[1..]);
      FieldsInStep(fields[1..], values[1..], rest);
      Regroup(head, tail, rest);
      Decodes(fields[0], values[0], tail + rest);
      assert values == [values[0]] + values[1..];
    }
  }

  lemma {:induction false} Decodes(c: Codec<Value>, x: Value, rest: Bytes)
    requires RoundTrips(c) && c.fits(x)
    ensures c.decode(c.encode(x) + rest) == Some((x, rest))
  {
  }

  lemma {:induction false} DispatchResultInStep(rt: Runtime, result: Option<DispatchError>, rest: Bytes)
    requires RoundTrips(rt.dispatchError) && (result.Some? ==> rt.dispatchError.fits(result.value))
    ensures ReadDispatchResult(rt, EncodeResult(rt, result) + rest) == Some((result, rest))
  {
    var bytes := EncodeResult(rt, result) + rest;
    if result.None? {
      assert bytes[1..] == rest;
    } else {
      assert bytes[1..] == rt.dispatchError.encode(result.value) + rest;
    }
  }

  /** The outcome with one more record read. */
  ghost function After(rt: Runtime, views: Views, index: nat, r: Record, out: Outcome): Outcome
    requires Known(rt, r)
  {
    Outcome(
      if OwnFailure(rt, index, r) && r.values != [] then Some(views.error(r.values[0])) else out.failed,
      if FailingProxy(rt, views, index, r) then views.result(r.values[0]) else out.proxied,
      out.sawProxy || OwnProxy(rt, index, r),
      out.events + EventsOf(rt, index, r))
  }

  ghost function Payload(rt: Runtime, r: Record): Bytes
    requires Known(rt, r)
  {
    EncodeFields(rt.registry[r.id].fields, r.values)
  }

  lemma {:induction false} OneField(fields: seq<Codec<Value>>, values: seq<Value>)
    requires |fields| == 1 == |values|
    ensures EncodeFields(fields, values) == fields[0].encode(values[0])
  {
    assert EncodeFields(fields[1..], values[1..]) == [];
  }

  lemma {:induction false} ProxyInStep(rt: Runtime, views: Views, index: nat, r: Record, rest: Bytes, out: Outcome)
    requires SpeaksFor(rt, views) && Known(rt, r) && OwnProxy(rt, index, r)
    ensures ReadPayload(rt, index, r.phase, r.id, Payload(rt, r) + rest, out) ==
              Ok((After(rt, views, index, r, out), rest))
  {
    OneField(rt.registry[r.id].fields, r.values);
    assert Payload(rt, r) + rest == EncodeResult(rt, views.result(r.values[0])) + rest;
    DispatchResultInStep(rt, views.result(r.values[0]), rest);
  }

  lemma {:induction false} FailureInStep(rt: Runtime, views: Views, index: nat, r: Record, rest: Bytes, out: Outcome)
    requires SpeaksFor(rt, views) && Known(rt, r) && OwnFailure(rt, index, r)
    ensures ReadPayload(rt, index, r.phase, r.id, Payload(rt, r) + rest, out) ==
              Ok((After(rt, views, index, r, out), rest))
  {
    var fields := rt.registry[r.id].fields;
    var tail := EncodeFields(fields[1..], r.values[1..]);
    Regroup(rt.dispatchError.encode(views.error(r.values[0])), tail, rest);
    FieldsInStep(fields[1..], r.values[1..], rest);
  }

  lemma {:induction false} OtherInStep(rt: Runtime, views: Views, index: nat, r: Record, rest: Bytes, out: Outcome)
    requires SpeaksFor(rt, views) && Known(rt, r) && !OwnProxy(rt, index, r) && !OwnFailure(rt, index, r)
    ensures ReadPayload(rt, index, r.phase, r.id, Payload(rt, r) + rest, out) ==
              Ok((After(rt, views, index, r, out), rest))
  {
    FieldsInStep(rt.registry[r.id].fields, r.values, rest);
    assert out.events + [] == out.events;
  }

  /** The fields are consumed exactly, whatever was read before. */
  lemma {:induction false} RecordInStep(rt: Runtime, views: Views, index: nat, r: Record, rest: Bytes, out: Outcome)
    requires SpeaksFor(rt, views) && Known(rt, r)
    ensures ReadPayload(rt, index, r.phase, r.id, Payload(rt, r) + rest, out) ==
              Ok((After(rt, views, index, r, out), rest))
  {
    if OwnProxy(rt, index, r) {
      ProxyInStep(rt, views, index, r, rest, out);
    } else if OwnFailure(rt, index, r) {
      FailureInStep(rt, views, index, r, rest, out);
    } else {
      OtherInStep(rt, views, index, r, rest, out);
    }
  }

  lemma {:induction false} PayloadInStep(
    rt: Runtime, views: Views, index: nat, before: seq<Record>, r: Record, rest: Bytes)
    requires SpeaksFor(rt, views) && (forall x | x in before :: Known(rt, x)) && Known(rt, r)
    ensures ReadPayload(rt, index, r.phase, r.id, Payload(rt, r) + rest, Expected(rt, views, index, before))
            == Ok((Expected(rt, views, index, before + [r]), rest))
  {
    RecordInStep(rt, views, index, r, rest, Expected(rt, views, index, before));
  }

  /** One event: the cursor lands on the next record's first byte. */
  lemma {:induction false} EventInStep(
    rt: Runtime, views: Views, index: nat, before: seq<Record>, r: Record, rest: Bytes)
    requires SpeaksFor(rt, views) && (forall x | x in before :: Known(rt, x)) && Known(rt, r)
    ensures ReadEvent(rt, index, EncodeRecord(rt, r) + rest, Expected(rt, views, index, before))
            == Ok((Expected(rt, views, index, before + [r]), rest))
  {
    var topics := rt.topics.encode(r.topics);
    var payload := Payload(rt, r);
    var id := [r.id.pallet, r.id.event];
    Regroup(rt.phase.encode(r.phase), id + (payload + topics), rest);
    Regroup(id, payload + topics, rest);
    Regroup(payload, topics, rest);
    assert (id + (payload + (topics + rest)))[2..] == payload + (topics + rest);
    PayloadInStep(rt, views, index, before, r, topics + rest);
  }

  lemma {:induction false} OneEventOn(
    rt: Runtime, views: Views, index: nat, before: seq<Record>, r: Record, i: nat, n: nat, more: Bytes)
    requires SpeaksFor(rt, views) && (forall x | x in before :: Known(rt, x)) && Known(rt, r) && i < n
    ensures ReadEvents(rt, index, i, n, EncodeRecord(rt, r) + more, Expected(rt, views, index, before))
            == ReadEvents(rt, index, i + 1, n, more, Expected(rt, views, index, before + [r]))
  {
    EventInStep(rt, views, index, before, r, more);
  }

  lemma {:induction false} FirstRecordApart(rt: Runtime, records: seq<Record>, i: nat, rest: Bytes)
    requires i < |records| && forall r | r in records :: Known(rt, r)
    ensures EncodeRecords(rt, records[i..]) + rest ==
              EncodeRecord(rt, records[i]) + (EncodeRecords(rt, records[i + 1..]) + rest)
  {
    assert records[i..][0] == records[i] && records[i..][1..] == records[i + 1..];
    Regroup(EncodeRecord(rt, records[i]), EncodeRecords(rt, records[i + 1..]), rest);
  }

  /** Past encoded records the parser is where it would be had it read nothing else. */
  lemma {:induction false} EventsInStep(
    rt: Runtime, views: Views, index: nat, records: seq<Record>, i: nat, n: nat, rest: Bytes)
    requires SpeaksFor(rt, views) && i <= |records| <= n && forall r | r in records :: Known(rt, r)
    ensures ReadEvents(
              rt, index, i, n, EncodeRecords(rt, records[i..]) + rest, Expected(rt, views, index, records[..i]))
            == ReadEvents(rt, index, |records|, n, rest, Expected(rt, views, index, records))
    decreases |records| - i
  {
    if i == |records| {
      assert records[..i] == records && EncodeRecords(rt, records[i..]) + rest == rest;
    } else {
      assert records[..i + 1] == records[..i] + [records[i]];
      FirstRecordApart(rt, records, i, rest);
      OneEventOn(rt, views, index, records[..i], records[i], i, n, EncodeRecords(rt, records[i + 1..]) + rest);
      EventsInStep(rt, views, index, records, i + 1, n, rest);
    }
  }

  /** On any encoded block the parser yields exactly the fold, whatever follows the block. */
  lemma {:induction false} ParserRefinesFold(rt: Runtime, views: Views, index: nat, records: seq<Record>, rest: Bytes)
    requires SpeaksFor(rt, views) && rt.count.fits(|records|) && forall r | r in records :: Known(rt, r)
    ensures Parsed(rt, EncodeBlock(rt, records) + rest, index) == Ok(Expected(rt, views, index, records))
  {
    assert EncodeBlock(rt, records) + rest == rt.count.encode(|records|) + (EncodeRecords(rt, records) + rest);
    assert records[0..] == records && records[..0] == [];
    EventsInStep(rt, views, index, records, 0, |records|, rest);
  }

  // ---------- a block that cannot be read ----------

  /** A block that announces `n` events and holds these records, and then something else. */
  ghost function Torn(rt: Runtime, n: nat, records: seq<Record>, tail: Bytes): Bytes
    requires forall r | r in records :: Known(rt, r)
  {
    rt.count.encode(n) + (EncodeRecords(rt, records) + tail)
  }

  lemma {:induction false} TornAtTail(
    rt: Runtime, views: Views, index: nat, n: nat, records: seq<Record>, tail: Bytes)
    requires SpeaksFor(rt, views) && rt.count.fits(n) && |records| < n && forall r | r in records :: Known(rt, r)
    ensures ReadEvent(rt, index, tail, Expected(rt, views, index, records)).Err? ==>
              Parsed(rt, Torn(rt, n, records, tail), index)
              == Err(BadEvent(|records|, ReadEvent(rt, index, tail, Expected(rt, views, index, records)).error))
  {
    assert records[0..] == records && records[..0] == [];
    EventsInStep(rt, views, index, records, 0, n, tail);
  }

  /** The parse fails at the first event that cannot be read, and says where in it: at a phase that
      does not decode, an identity cut short, an identity unknown to the registry, a first field that
      does not decode, or a report of the wrapped call that is neither success nor error. */
  lemma {:induction false} TornBlockIsReported(
    rt: Runtime, views: Views, index: nat, n: nat, records: seq<Record>, tail: Bytes)
    requires SpeaksFor(rt, views) && rt.count.fits(n) && |records| < n && forall r | r in records :: Known(rt, r)
    ensures var parsed, at := Parsed(rt, Torn(rt, n, records, tail), index), |records|;
            match rt.phase.decode(tail)
            case None => parsed == Err(BadEvent(at, PhaseStage))
            case Some((phase, body)) =>
              if |body| < 2 then parsed == Err(BadEvent(at, IdStage))
              else
                var id, fields := EventId(body[0], body[1]), body[2..];
                var own := phase == ApplyExtrinsic(index);
                if own && rt.proxyExecuted == Some(id) then
                  fields == [] || fields[0] > 1 ==> parsed == Err(BadEvent(at, FieldsStage))
                else if own && rt.extrinsicFailed == Some(id) then
                  rt.dispatchError.decode(fields).None? ==> parsed == Err(BadEvent(at, FieldsStage))
                else if id !in rt.registry then parsed == Err(BadEvent(at, NoDecoder))
                else
                  rt.registry[id].fields != [] && rt.registry[id].fields[0].decode(fields).None? ==>
                    parsed == Err(BadEvent(at, FieldsStage))
  {
    TornAtTail(rt, views, index, n, records, tail);
  }

  lemma {:induction false} TopicsEndEvent(
    rt: Runtime, index: nat, r: Record, bytes: Bytes, fields: Bytes, out: Outcome, next: Outcome, tail: Bytes)
    requires rt.phase.decode(bytes) == Some((r.phase, [r.id.pallet, r.id.event] + fields))
    requires ReadPayload(rt, index, r.phase, r.id, fields, out) == Ok((next, tail)) && rt.topics.decode(tail).None?
    ensures ReadEvent(rt, index, bytes, out) == Err(TopicsStage)
  {
    assert ([r.id.pallet, r.id.event] + fields)[2..] == fields;
  }

  /** So it does at topics that do not decode behind a record that does. */
  lemma {:induction false} TornTopicsAreReported(
    rt: Runtime, views: Views, index: nat, n: nat, records: seq<Record>, r: Record, tail: Bytes)
    requires SpeaksFor(rt, views) && rt.count.fits(n) && |records| < n
    requires (forall x | x in records :: Known(rt, x)) && Known(rt, r)
    requires rt.topics.decode(tail).None?
    ensures var body := [r.id.pallet, r.id.event] + (Payload(rt, r) + tail);
            Parsed(rt, Torn(rt, n, records, rt.phase.encode(r.phase) + body), index)
            == Err(BadEvent(|records|, TopicsStage))
  {
    var body := rt.phase.encode(r.phase) + ([r.id.pallet, r.id.event] + (Payload(rt, r) + tail));
    var out, next := Expected(rt, views, index, records), Expected(rt, views, index, records + [r]);
    PayloadInStep(rt, views, index, records, r, tail);
    TopicsEndEvent(rt, index, r, body, Payload(rt, r) + tail, out, next, tail);
    TornAtTail(rt, views, index, n, records, body);
  }

  /** Success is reported exactly when the extrinsic was not refused and, for a delegated
      call, at least one of its own proxy reports arrived and none of them failed. */
  lemma {:induction false} SuccessIsEarned(
    rt: Runtime, views: Views, index: nat, records: seq<Record>, rest: Bytes, delegated: bool)
    requires SpeaksFor(rt, views) && rt.count.fits(|records|) && forall r | r in records :: Known(rt, r)
    ensures var parsed := Parsed(rt, EncodeBlock(rt, records) + rest, index);
            && parsed.Ok?
            && (DelegatedOutcome(parsed.value, delegated) == Succeeded <==>
                 && (forall r | r in records :: !OwnFailure(rt, index, r))
                 && (delegated ==> (exists r :: r in records && OwnProxy(rt, index, r))
                                   && forall r | r in records :: !FailingProxy(rt, views, index, r)))
  {
    ParserRefinesFold(rt, views, index, records, rest);
    assert forall r | r in records && OwnFailure(rt, index, r) :: r.values != [];
  }

  // ---------- what the events are called ----------

  /** The event is the record's: the two special ones by their own names and without fields, any
      other by the registry's name, split at its first dot, with the fields and the extrinsic. */
  ghost predicate NamedAfter(rt: Runtime, index: nat, r: Record, e: Event) {
    if rt.proxyExecuted == Some(r.id) then e == Event("Proxy", "ProxyExecuted", [], None)
    else if rt.extrinsicFailed == Some(r.id) then e == Event("System", "ExtrinsicFailed", [], None)
    else
      r.id in rt.registry &&
      var full := rt.registry[r.id].name;
      && e.fields == r.values && e.extrinsicIndex == Some(index)
      && if '.' in full then full == e.pallet + "." + e.name && '.' !in e.pallet else e.pallet == [] && e.name == full
  }

  /** `own` are the positions of the extrinsic's records, in order; the events are those records. */
  ghost predicate OwnRecords(rt: Runtime, index: nat, records: seq<Record>, own: seq<nat>, events: seq<Event>) {
    && |own| == |events| && (forall j, k | 0 <= j < k < |own| :: own[j] < own[k])
    && (forall i | 0 <= i < |records| :: i in own <==> records[i].phase == ApplyExtrinsic(index))
    && forall k | 0 <= k < |own| :: own[k] < |records| && NamedAfter(rt, index, records[own[k]], events[k])
  }

  /** One record more: an event more if it is the extrinsic's own. */
  lemma {:induction false} OneMoreRecord(
    rt: Runtime, index: nat, records: seq<Record>, own: seq<nat>, events: seq<Event>)
    requires records != [] && OwnRecords(rt, index, records[..|records| - 1], own, events)
    requires Known(rt, records[|records| - 1])
    ensures var n := |records| - 1;
            var mine := if records[n].phase == ApplyExtrinsic(index) then [n] else [];
            OwnRecords(rt, index, records, own + mine, events + EventsOf(rt, index, records[n]))
  {
    var n := |records| - 1;
    if records[n].phase == ApplyExtrinsic(index) {
      OwnRecordIsAdded(rt, index, records, own, events, EventsOf(rt, index, records[n])[0]);
      assert EventsOf(rt, index, records[n]) == [EventsOf(rt, index, records[n])[0]];
    } else {
      assert own + [] == own && events + [] == events;
    }
  }

  lemma {:induction false} OwnRecordIsAdded(
    rt: Runtime, index: nat, records: seq<Record>, own: seq<nat>, events: seq<Event>, e: Event)
    requires records != [] && OwnRecords(rt, index, records[..|records| - 1], own, events)
    requires records[|records| - 1].phase == ApplyExtrinsic(index)
    requires NamedAfter(rt, index, records[|records| - 1], e)
    ensures OwnRecords(rt, index, records, own + [|records| - 1], events + [e])
  {
    var n := |records| - 1;
    assert forall i :: i in own + [n] <==> i in own || i == n;
  }

  lemma {:induction false} EventsAreRecords(rt: Runtime, index: nat, records: seq<Record>) returns (own: seq<nat>)
    requires forall r | r in records :: Known(rt, r)
    ensures OwnRecords(rt, index, records, own, OwnEvents(rt, index, records))
  {
    if records == [] {
      return [];
    }
    var n := |records| - 1;
    own := EventsAreRecords(rt, index, records[..n]);
    OneMoreRecord(rt, index, records, own, OwnEvents(rt, index, records[..n]));
    own := own + if records[n].phase == ApplyExtrinsic(index) then [n] else [];
  }

  /** The outcome's events are the extrinsic's own records, in order and by name. */
  lemma {:induction false} EventsAreNamed(rt: Runtime, views: Views, index: nat, records: seq<Record>, rest: Bytes)
    returns (own: seq<nat>)
    requires SpeaksFor(rt, views) && rt.count.fits(|records|) && forall r | r in records :: Known(rt, r)
    ensures var parsed := Parsed(rt, EncodeBlock(rt, records) + rest, index);
            parsed.Ok? && OwnRecords(rt, index, records, own, parsed.value.events)
  {
    ParserRefinesFold(rt, views, index, records, rest);
    own := EventsAreRecords(rt, index, records);
  }

  // ---------- the Rust client reads only the first report ----------

  /** The wrapped call's error by the first own proxy report; no report counts as no error. */
  function FirstReport(rt: Runtime, views: Views, index: nat, records: seq<Record>): Option<DispatchError> {
    if records == [] then None
    else if OwnProxy(rt, index, records[0]) && records[0].values != [] then views.result(records[0].values[0])
    else FirstReport(rt, views, index, records[1..])
  }

  /** The error of the extrinsic's first failure event, if it has one. */
  function FirstFailure(rt: Runtime, views: Views, index: nat, records: seq<Record>): Option<DispatchError> {
    if records == [] then None
    else if OwnFailure(rt, index, records[0]) && records[0].values != [] then Some(views.error(records[0].values[0]))
    else FirstFailure(rt, views, index, records[1..])
  }

  /** A runtime deposits one failure event, at most, for an extrinsic. */
  predicate FailsOnce(rt: Runtime, index: nat, records: seq<Record>) {
    forall i, j | 0 <= i < j < |records| :: !(OwnFailure(rt, index, records[i]) && OwnFailure(rt, index, records[j]))
  }

  /** Then it does not matter which of them a client reads. */
  lemma {:induction false} FirstFailureIsLast(rt: Runtime, views: Views, index: nat, records: seq<Record>)
    requires FailsOnce(rt, index, records)
    ensures FirstFailure(rt, views, index, records) == LastFailure(rt, views, index, records)
  {
    FirstFailureExists(rt, views, index, records);
    if f :| 0 <= f < |records| && OwnFailure(rt, index, records[f]) && records[f].values != [] {
      OnlyFailure(rt, views, index, records, f);
    }
  }

  lemma {:induction false} FirstFailureExists(rt: Runtime, views: Views, index: nat, records: seq<Record>)
    ensures FirstFailure(rt, views, index, records).Some? <==>
            exists i :: 0 <= i < |records| && OwnFailure(rt, index, records[i]) && records[i].values != []
  {
    if records != [] {
      var tail := records[1..];
      FirstFailureExists(rt, views, index, tail);
      if i :| 0 < i < |records| && OwnFailure(rt, index, records[i]) && records[i].values != [] {
        assert tail[i - 1] == records[i];
      }
      if i :| 0 <= i < |tail| && OwnFailure(rt, index, tail[i]) && tail[i].values != [] {
        assert tail[i] == records[i + 1];
      }
    }
  }

  lemma {:induction false} OnlyFailure(rt: Runtime, views: Views, index: nat, records: seq<Record>, f: nat)
    requires FailsOnce(rt, index, records)
    requires f < |records| && OwnFailure(rt, index, records[f]) && records[f].values != []
    ensures FirstFailure(rt, views, index, records) == Some(views.error(records[f].values[0]))
    ensures LastFailure(rt, views, index, records) == Some(views.error(records[f].values[0]))
    decreases |records|
  {
    var tail, init, last := records[1..], records[..|records| - 1], |records| - 1;
    if f > 0 {
      assert tail[f - 1] == records[f];
      assert !OwnFailure(rt, index, records[0]);
      OnlyFailure(rt, views, index, tail, f - 1);
    }
    if f < last {
      assert init[f] == records[f];
      assert !OwnFailure(rt, index, records[last]);
      OnlyFailure(rt, views, index, init, f);
    }
  }

  /** The i-th record is the first own report, and it fails. */
  ghost predicate FailsFirst(rt: Runtime, views: Views, index: nat, records: seq<Record>, i: nat) {
    && i < |records| && FailingProxy(rt, views, index, records[i])
    && forall j | 0 <= j < i :: !OwnProxy(rt, index, records[j])
  }

  ghost predicate FirstReportFails(rt: Runtime, views: Views, index: nat, records: seq<Record>) {
    exists i: nat :: FailsFirst(rt, views, index, records, i)
  }

  lemma {:induction false} FirstReportMeaning(rt: Runtime, views: Views, index: nat, records: seq<Record>)
    requires SpeaksFor(rt, views) && forall r | r in records :: Known(rt, r)
    ensures FirstReport(rt, views, index, records).Some? <==> FirstReportFails(rt, views, index, records)
    ensures forall i: nat | FailsFirst(rt, views, index, records, i) ::
              FirstReport(rt, views, index, records) == views.result(records[i].values[0])
    decreases |records|
  {
    if records != [] {
      FirstReportMeaning(rt, views, index, records[1..]);
      assert Known(rt, records[0]);
      if OwnProxy(rt, index, records[0]) {
        assert FailsFirst(rt, views, index, records, 0) <==> FailingProxy(rt, views, index, records[0]);
      } else {
        OthersReportFirst(rt, views, index, records);
      }
    }
  }

  lemma {:induction false} OthersReportFirst(rt: Runtime, views: Views, index: nat, records: seq<Record>)
    requires records != [] && !OwnProxy(rt, index, records[0])
    ensures FirstReportFails(rt, views, index, records) <==> FirstReportFails(rt, views, index, records[1..])
  {
    var tail := records[1..];
    if i: nat :| FailsFirst(rt, views, index, records, i) {
      assert FailsFirst(rt, views, index, tail, i - 1);
    }
    if i: nat :| FailsFirst(rt, views, index, tail, i) {
      forall j | 0 <= j < i + 1
        ensures !OwnProxy(rt, index, records[j])
      {
        assert j > 0 ==> records[j] == tail[j - 1];
      }
      assert FailsFirst(rt, views, index, records, i + 1);
    }
  }

  /** For a delegated extrinsic that was not refused, the Go and Rust clients agree exactly
      when a proxy report arrived and either the first one fails or none does: Rust takes
      silence, and a failure behind a first success, for success. */
  lemma {:induction false} PortsAgreeOnDelegatedSuccess(rt: Runtime, views: Views, index: nat, records: seq<Record>)
    requires SpeaksFor(rt, views) && forall r | r in records :: Known(rt, r)
    requires forall r | r in records :: !OwnFailure(rt, index, r)
    ensures var go := DelegatedOutcome(Expected(rt, views, index, records), true) == Succeeded;
            var rust := FirstReport(rt, views, index, records).None?;
            && (go ==> rust)
            && (go == rust <==>
                 && (exists r :: r in records && OwnProxy(rt, index, r))
                 && (FirstReportFails(rt, views, index, records)
                     || forall r | r in records :: !FailingProxy(rt, views, index, r)))
  {
    FirstReportMeaning(rt, views, index, records);
    if i: nat :| FailsFirst(rt, views, index, records, i) {
      assert records[i] in records;
    }
  }
}
