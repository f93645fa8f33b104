/** Reading one extrinsic's outcome out of a block's SCALE-encoded events. Two events are
    decoded by hand when they belong to the extrinsic; the registry decodes the rest. */
module Events {
  import opened Wrappers
  import opened Text

  type Byte = b: nat | b < 256

  type Bytes = seq<Byte>

  /** A field as it is read; how the registry presents it is not modelled. */
  type Value = seq<Byte>

  datatype DispatchError = DispatchError(variant: Bytes)

  datatype Phase = ApplyExtrinsic(index: nat) | Finalization | Initialization

  datatype EventId = EventId(pallet: Byte, event: Byte)

  /** `fits` says which values the wire type can hold. */
  datatype Codec<!T> = Codec(encode: T -> Bytes, decode: Bytes -> Option<(T, Bytes)>, fits: T -> bool)

  datatype EventDecoder = EventDecoder(name: string, fields: seq<Codec<Value>>)

  /** What the client knows of the runtime from its metadata. */
  datatype Runtime = Runtime(
    proxyExecuted: Option<EventId>, extrinsicFailed: Option<EventId>, registry: map<EventId, EventDecoder>,
    count: Codec<nat>, phase: Codec<Phase>, dispatchError: Codec<DispatchError>, topics: Codec<Value>)

  datatype Event = Event(pallet: string, name: string, fields: seq<Value>, extrinsicIndex: Option<nat>)

  datatype Outcome = Outcome(
    failed: Option<DispatchError>, proxied: Option<DispatchError>, sawProxy: bool, events: seq<Event>)

  datatype Stage = PhaseStage | IdStage | FieldsStage | NoDecoder | TopicsStage

  datatype ParseError = BadCount | BadEvent(i: nat, stage: Stage)

  const PROXY_EXECUTED := Event("Proxy", "ProxyExecuted", [], None)
  const EXTRINSIC_FAILED := Event("System", "ExtrinsicFailed", [], None)

  // ---------- reading ----------

  function ReadEventId(bytes: Bytes): Option<(EventId, Bytes)> {
    if |bytes| < 2 then None else Some((EventId(bytes[0], bytes[1]), bytes[2..]))
  }

  /** `Ok` is a zero byte; `Err` is a one followed by the error. */
  function ReadDispatchResult(rt: Runtime, bytes: Bytes): Option<(Option<DispatchError>, Bytes)> {
    if bytes == [] then None
    else if bytes[0] == 0 then Some((None, bytes[1..]))
    else if bytes[0] == 1 then
      match rt.dispatchError.decode(bytes[1..])
      case None => None
      case Some((error, rest)) => Some((Some(error), rest))
    else None
  }

  /** The fields in declaration order. */
  function ReadFields(fields: seq<Codec<Value>>, bytes: Bytes): Option<(seq<Value>, Bytes)>
    decreases |fields|
  {
    if fields == [] then Some(([], bytes))
    else
      match fields[0].decode(bytes)
      case None => None
      case Some((value, rest)) =>
        match ReadFields(fields[1..], rest)
        case None => None
        case Some((values, rest')) => Some(([value] + values, rest'))
  }

  method DecodeFields(fields: seq<Codec<Value>>, bytes: Bytes) returns (r: Option<(seq<Value>, Bytes)>)
    ensures r == ReadFields(fields, bytes)
  {
    var values: seq<Value>, rest := [], bytes;
    assert fields[0..] == fields && forall tail: seq<Value> :: values + tail == tail;
    for i := 0 to |fields|
      invariant ReadFields(fields, bytes) ==
        match ReadFields(fields[i..], rest)
        case None => None
        case Some((tail, end)) => Some((values + tail, end))
    {
      assert fields[i..][0] == fields[i] && fields[i..][1..] == fields[i + 1..];
      match fields[i].decode(rest) {
        case None => return None;
        case Some((value, after)) =>
          assert forall tail: seq<Value> :: values + ([value] + tail) == (values + [value]) + tail;
          values, rest := values + [value], after;
      }
    }
    assert values + [] == values;
    r := Some((values, rest));
  }

  /** Moves past the fields after the first `consumed`. */
  method SkipRemainingFields(fields: seq<Codec<Value>>, bytes: Bytes, consumed: nat) returns (r: Option<Bytes>)
    ensures r == SkipFields(fields[if consumed <= |fields| then consumed else |fields|..], bytes)
  {
    var rest := bytes;
    ghost var from := if consumed <= |fields| then consumed else |fields|;
    for i := 0 to |fields|
      invariant SkipFields(fields[from..], bytes) == SkipFields(fields[if from < i then i else from..], rest)
    {
      if i >= consumed {
        assert fields[i..][1..] == fields[i + 1..];
        match fields[i].decode(rest) {
          case None => return None;
          case Some((_, after)) => rest := after;
        }
      }
    }
    r := Some(rest);
  }

  function SkipFields(fields: seq<Codec<Value>>, bytes: Bytes): Option<Bytes> {
    match ReadFields(fields, bytes)
    case None => None
    case Some((_, rest)) => Some(rest)
  }

  /** "Pallet.Name" at its first dot; without one, the whole text is the name. */
  function SplitEventName(name: string, fields: seq<Value>, phase: Phase): Event {
    var index := if phase.ApplyExtrinsic? then Some(phase.index) else None;
    var dot := FirstOf(name, '.');
    if dot < |name| then Event(name[..dot], name[dot + 1..], fields, index) else Event("", name, fields, index)
  }

  predicate IsMine(phase: Phase, index: nat) {
    phase == ApplyExtrinsic(index)
  }

  /** The fields of one event, into the outcome. */
  function ReadPayload(
    rt: Runtime, index: nat, phase: Phase, id: EventId, bytes: Bytes, out: Outcome): Result<(Outcome, Bytes), Stage>
  {
    if IsMine(phase, index) && rt.proxyExecuted == Some(id) then
      match ReadDispatchResult(rt, bytes)
      case None => Err(FieldsStage)
      case Some((error, rest)) =>
        var proxied := if error.Some? then error else out.proxied;
        Ok((out.(sawProxy := true, proxied := proxied, events := out.events + [PROXY_EXECUTED]), rest))
    else if IsMine(phase, index) && rt.extrinsicFailed == Some(id) then
      match rt.dispatchError.decode(bytes)
      case None => Err(FieldsStage)
      case Some((error, rest)) =>
        if id !in rt.registry then Err(NoDecoder)
        else
          var fields := rt.registry[id].fields;
          match SkipFields(if fields == [] then [] else fields[1..], rest)
          case None => Err(FieldsStage)
          case Some(rest') => Ok((out.(failed := Some(error), events := out.events + [EXTRINSIC_FAILED]), rest'))
    else if id !in rt.registry then Err(NoDecoder)
    else
      match ReadFields(rt.registry[id].fields, bytes)
      case None => Err(FieldsStage)
      case Some((values, rest)) =>
        var event := SplitEventName(rt.registry[id].name, values, phase);
        Ok((if IsMine(phase, index) then out.(events := out.events + [event]) else out, rest))
  }

  function ReadEvent(rt: Runtime, index: nat, bytes: Bytes, out: Outcome): Result<(Outcome, Bytes), Stage> {
    match rt.phase.decode(bytes)
    case None => Err(PhaseStage)
    case Some((phase, afterPhase)) =>
      match ReadEventId(afterPhase)
      case None => Err(IdStage)
      case Some((id, afterId)) =>
        match ReadPayload(rt, index, phase, id, afterId, out)
        case Err(stage) => Err(stage)
        case Ok((next, afterPayload)) =>
          match rt.topics.decode(afterPayload)
          case None => Err(TopicsStage)
          case Some((_, rest)) => Ok((next, rest))
  }

  /** Events `i` to `n`. */
  function ReadEvents(rt: Runtime, index: nat, i: nat, n: nat, bytes: Bytes, out: Outcome): Result<Outcome, ParseError>
    decreases n - i
  {
    if i >= n then Ok(out)
    else
      match ReadEvent(rt, index, bytes, out)
      case Err(stage) => Err(BadEvent(i, stage))
      case Ok((next, rest)) => ReadEvents(rt, index, i + 1, n, rest, next)
  }

  const NOTHING := Outcome(None, None, false, [])

  function Parsed(rt: Runtime, raw: Bytes, index: nat): Result<Outcome, ParseError> {
    match rt.count.decode(raw)
    case None => Err(BadCount)
    case Some((n, rest)) => ReadEvents(rt, index, 0, n, rest, NOTHING)
  }

  method DecodePayload(rt: Runtime, index: nat, phase: Phase, id: EventId, bytes: Bytes, out: Outcome)
    returns (r: Result<(Outcome, Bytes), Stage>)
    ensures r == ReadPayload(rt, index, phase, id, bytes, out)
  {
    var mine := phase.ApplyExtrinsic? && phase.index == index;
    if mine && rt.proxyExecuted == Some(id) {
      match ReadDispatchResult(rt, bytes) {
        case None => return Err(FieldsStage);
        case Some((error, rest)) =>
          var next := out.(sawProxy := true);
          if error.Some? {
            next := next.(proxied := error);
          }
          return Ok((next.(events := next.events + [PROXY_EXECUTED]), rest));
      }
    }
    if mine && rt.extrinsicFailed == Some(id) {
      match rt.dispatchError.decode(bytes) {
        case None => return Err(FieldsStage);
        case Some((error, rest)) =>
          if id !in rt.registry {
            return Err(NoDecoder);
          }
          var skipped := SkipRemainingFields(rt.registry[id].fields, rest, 1);
          if skipped.None? {
            return Err(FieldsStage);
          }
          return Ok((out.(failed := Some(error), events := out.events + [EXTRINSIC_FAILED]), skipped.value));
      }
    }
    if id !in rt.registry {
      return Err(NoDecoder);
    }
    var fields := DecodeFields(rt.registry[id].fields, bytes);
    match fields {
      case None => return Err(FieldsStage);
      case Some((values, rest)) =>
        if !mine {
          return Ok((out, rest));
        }
        return Ok((out.(events := out.events + [SplitEventName(rt.registry[id].name, values, phase)]), rest));
    }
  }

  /** The cursor `rest` walks the block; any failure ends the parse. */
  method ParseOutcome(rt: Runtime, raw: Bytes, index: nat) returns (r: Result<Outcome, ParseError>)
    ensures r == Parsed(rt, raw, index)
  {
    var counted := rt.count.decode(raw);
    if counted.None? {
      return Err(BadCount);
    }
    var count, rest := counted.value.0, counted.value.1;
    var outcome := NOTHING;
    for i := 0 to count
      invariant ReadEvents(rt, index, i, count, rest, outcome) == Parsed(rt, raw, index)
    {
      var phase := rt.phase.decode(rest);
      if phase.None? {
        return Err(BadEvent(i, PhaseStage));
      }
      var id := ReadEventId(phase.value.1);
      if id.None? {
        return Err(BadEvent(i, IdStage));
      }
      var payload := DecodePayload(rt, index, phase.value.0, id.value.0, id.value.1, outcome);
      if payload.Err? {
        return Err(BadEvent(i, payload.error));
      }
      var topics := rt.topics.decode(payload.value.1);
      if topics.None? {
        return Err(BadEvent(i, TopicsStage));
      }
      outcome, rest := payload.value.0, topics.value.1;
    }
    r := Ok(outcome);
  }

  datatype Verdict = Succeeded | Refused(error: DispatchError) | Dispatched(error: DispatchError) | FateUnknown

  /** A wrapped failure is never a success, and neither is silence. */
  function DelegatedOutcome(o: Outcome, delegated: bool): Verdict {
    if o.failed.Some? then Refused(o.failed.value)
    else if !delegated then Succeeded
    else if o.proxied.Some? then Dispatched(o.proxied.value)
    else if !o.sawProxy then FateUnknown
    else Succeeded
  }
}
