/** Codecs in the SCALE form, for the fields an event needs, each with the values it can hold. */
module ScaleCodecs {
  import opened Wrappers
  import opened Events
  import opened EventTheorems

  // ---------- integers ----------

  const U32: nat := 0x1_0000_0000

  /** Four bytes, the lowest first. */
  function Le32(n: nat): (s: Bytes)
    requires n < U32
    ensures |s| == 4
  {
    [n % 256, n / 256 % 256, n / 65536 % 256, n / 16777216]
  }

  function FromLe32(s: Bytes): (n: nat)
    requires |s| >= 4
    ensures n < U32
  {
    var a: nat, b: nat, c: nat, d: nat := s[0], s[1], s[2], s[3];
    a + 256 * b + 65536 * c + 16777216 * d
  }

  lemma {:induction false} Le32RoundTrip(n: nat, rest: Bytes)
    requires n < U32
    ensures FromLe32(Le32(n) + rest) == n && Le32(n)[0] % 4 == n % 4
  {
    assert n / 65536 == n / 256 / 256 && n / 16777216 == n / 256 / 256 / 256;
  }

  function Le16(n: nat): (s: Bytes)
    requires n < 65536
    ensures |s| == 2
  {
    [n % 256, n / 256]
  }

  function FromLe16(s: Bytes): (n: nat)
    requires |s| >= 2
  {
    var a: nat, b: nat := s[0], s[1];
    a + 256 * b
  }

  /** The compact form of a 32-bit number: its low two bits say how many bytes follow. */
  function Compact(n: nat): Bytes
    requires n < U32
  {
    if n < 64 then [4 * n]
    else if n < 16384 then Le16(4 * n + 1)
    else if n < 0x4000_0000 then Le32(4 * n + 2)
    else [3] + Le32(n)
  }

  function FromCompact(s: Bytes): Option<(nat, Bytes)> {
    if s == [] then None
    else if s[0] % 4 == 0 then Some((s[0] / 4, s[1..]))
    else if s[0] % 4 == 1 then if |s| < 2 then None else Some((FromLe16(s) / 4, s[2..]))
    else if s[0] % 4 == 2 then if |s| < 4 then None else Some((FromLe32(s) / 4, s[4..]))
    else if s[0] != 3 || |s| < 5 then None
    else Some((FromLe32(s[1..]), s[5..]))
  }

  lemma {:induction false} Prefixed(a: Bytes, rest: Bytes)
    ensures (a + rest)[..|a|] == a && (a + rest)[|a|..] == rest
  {
  }

  lemma {:induction false} SmallCompact(n: nat, rest: Bytes)
    requires n < 64
    ensures FromCompact([4 * n] + rest) == Some((n, rest))
  {
    Prefixed([4 * n], rest);
  }

  lemma {:induction false} TwoByteCompact(n: nat, rest: Bytes)
    requires 64 <= n < 16384
    ensures FromCompact(Le16(4 * n + 1) + rest) == Some((n, rest))
  {
    Prefixed(Le16(4 * n + 1), rest);
  }

  lemma {:induction false} FourByteCompact(n: nat, rest: Bytes)
    requires 16384 <= n < 0x4000_0000
    ensures FromCompact(Le32(4 * n + 2) + rest) == Some((n, rest))
  {
    Prefixed(Le32(4 * n + 2), rest);
    Le32RoundTrip(4 * n + 2, rest);
  }

  lemma {:induction false} BigCompact(n: nat, rest: Bytes)
    requires 0x4000_0000 <= n < U32
    ensures FromCompact([3] + Le32(n) + rest) == Some((n, rest))
  {
    Prefixed(Le32(n), rest);
    Le32RoundTrip(n, rest);
    assert [3] + Le32(n) + rest == [3] + (Le32(n) + rest);
    assert ([3] + (Le32(n) + rest))[1..] == Le32(n) + rest;
    assert ([3] + (Le32(n) + rest))[5..] == (Le32(n) + rest)[4..];
  }

  lemma {:induction false} CompactRoundTrip(n: nat, rest: Bytes)
    requires n < U32
    ensures FromCompact(Compact(n) + rest) == Some((n, rest))
  {
    if n < 64 {
      SmallCompact(n, rest);
    } else if n < 16384 {
      TwoByteCompact(n, rest);
    } else if n < 0x4000_0000 {
      FourByteCompact(n, rest);
    } else {
      BigCompact(n, rest);
    }
  }

  // ---------- codecs ----------

  /** A value kept as its bytes: the first `n` of the input. */
  function Take(n: nat, s: Bytes): Option<(Bytes, Bytes)> {
    if n > |s| then None else Some((s[..n], s[n..]))
  }

  function Same(v: Bytes): Bytes {
    v
  }

  /** A field of `n` bytes: an account, a hash, an integer. */
  function FixedWidth(n: nat): Codec<Value> {
    Codec(Same, s => Take(n, s), (v: Value) => |v| == n)
  }

  lemma {:induction false} FixedWidthRoundTrips(n: nat)
    ensures RoundTrips(FixedWidth(n))
  {
    forall v: Value, rest: Bytes | |v| == n
      ensures Take(n, v + rest) == Some((v, rest))
    {
      Prefixed(v, rest);
    }
  }

  /** A phase: a tag, and for an extrinsic its 32-bit index. */
  function EncodePhase(p: Phase): Bytes {
    match p
    case ApplyExtrinsic(n) => if n < U32 then [0] + Le32(n) else []
    case Finalization => [1]
    case Initialization => [2]
  }

  function DecodePhase(s: Bytes): Option<(Phase, Bytes)> {
    if s == [] then None
    else if s[0] == 1 then Some((Finalization, s[1..]))
    else if s[0] == 2 then Some((Initialization, s[1..]))
    else if s[0] != 0 || |s| < 5 then None
    else Some((ApplyExtrinsic(FromLe32(s[1..])), s[5..]))
  }

  predicate PhaseFits(p: Phase) {
    p.ApplyExtrinsic? ==> p.index < U32
  }

  const PHASE: Codec<Phase> := Codec(EncodePhase, DecodePhase, PhaseFits)

  lemma {:induction false} ApplyRoundTrip(n: nat, rest: Bytes)
    requires n < U32
    ensures DecodePhase([0] + Le32(n) + rest) == Some((ApplyExtrinsic(n), rest))
  {
    Prefixed(Le32(n), rest);
    Le32RoundTrip(n, rest);
    assert [0] + Le32(n) + rest == [0] + (Le32(n) + rest);
    assert ([0] + (Le32(n) + rest))[1..] == Le32(n) + rest;
    assert ([0] + (Le32(n) + rest))[5..] == (Le32(n) + rest)[4..];
  }

  lemma {:induction false} PhaseRoundTrips()
    ensures RoundTrips(PHASE)
  {
    forall p: Phase, rest: Bytes | PhaseFits(p)
      ensures DecodePhase(EncodePhase(p) + rest) == Some((p, rest))
    {
      if p.ApplyExtrinsic? {
        ApplyRoundTrip(p.index, rest);
      } else {
        Prefixed(EncodePhase(p), rest);
      }
    }
  }

  /** How many bytes an error takes, by its tag: a module error carries an index and four bytes,
      the token, arithmetic, transactional and trie errors one byte, the others nothing. */
  function ErrorWidth(tag: Byte): nat {
    if tag == 3 then 6 else if tag in {7, 8, 9, 14} then 2 else if tag < 14 then 1 else 0
  }

  predicate ErrorFits(e: DispatchError) {
    e.variant != [] && |e.variant| == ErrorWidth(e.variant[0])
  }

  function EncodeError(e: DispatchError): Bytes {
    e.variant
  }

  function DecodeError(s: Bytes): Option<(DispatchError, Bytes)> {
    if s == [] || ErrorWidth(s[0]) == 0 then None
    else
      match Take(ErrorWidth(s[0]), s)
      case None => None
      case Some((v, rest)) => Some((DispatchError(v), rest))
  }

  const ERROR: Codec<DispatchError> := Codec(EncodeError, DecodeError, ErrorFits)

  lemma {:induction false} ErrorRoundTrips()
    ensures RoundTrips(ERROR)
  {
    forall e: DispatchError, rest: Bytes | ErrorFits(e)
      ensures DecodeError(EncodeError(e) + rest) == Some((e, rest))
    {
    }
  }

  /** An error as a field of an event: its bytes. */
  function DecodeErrorField(s: Bytes): Option<(Value, Bytes)> {
    match DecodeError(s)
    case None => None
    case Some((e, rest)) => Some((e.variant, rest))
  }

  predicate ErrorFieldFits(v: Value) {
    ErrorFits(DispatchError(v))
  }

  const ERROR_FIELD: Codec<Value> := Codec(Same, DecodeErrorField, ErrorFieldFits)

  lemma {:induction false} ErrorFieldRoundTrips()
    ensures RoundTrips(ERROR_FIELD)
  {
    forall v: Value, rest: Bytes | ErrorFieldFits(v)
      ensures DecodeErrorField(v + rest) == Some((v, rest))
    {
    }
  }

  /** A dispatch result, as its bytes: a zero, or a one and the error. */
  function DecodeOutcome(s: Bytes): Option<(Value, Bytes)> {
    if s == [] then None
    else if s[0] == 0 then Take(1, s)
    else if s[0] != 1 || |s| < 2 then None
    else Take(1 + ErrorWidth(s[1]), s)
  }

  predicate OutcomeFits(v: Value) {
    v == [0] || (v != [] && v[0] == 1 && ErrorFits(DispatchError(v[1..])))
  }

  function ResultOf(v: Value): Option<DispatchError> {
    if v == [] || v[0] == 0 then None else Some(DispatchError(v[1..]))
  }

  const OUTCOME: Codec<Value> := Codec(Same, DecodeOutcome, OutcomeFits)

  lemma {:induction false} OutcomeRoundTrips()
    ensures RoundTrips(OUTCOME)
  {
    forall v: Value, rest: Bytes | OutcomeFits(v)
      ensures DecodeOutcome(v + rest) == Some((v, rest))
    {
      Prefixed(v, rest);
    }
  }

  function EncodeCount(n: nat): Bytes {
    if CountFits(n) then Compact(n) else []
  }

  predicate CountFits(n: nat) {
    n < U32
  }

  const COUNT: Codec<nat> := Codec(EncodeCount, FromCompact, CountFits)

  lemma {:induction false} CountRoundTrips()
    ensures RoundTrips(COUNT)
  {
    forall n: nat, rest: Bytes | CountFits(n)
      ensures FromCompact(EncodeCount(n) + rest) == Some((n, rest))
    {
      CompactRoundTrip(n, rest);
    }
  }

  /** A list of 32-byte hashes: their number, and the hashes. */
  function EncodeTopics(v: Value): Bytes {
    EncodeCount(|v| / 32) + v
  }

  function DecodeTopics(s: Bytes): Option<(Value, Bytes)> {
    match FromCompact(s)
    case None => None
    case Some((n, rest)) => Take(32 * n, rest)
  }

  predicate TopicsFit(v: Value) {
    |v| % 32 == 0 && |v| / 32 < U32
  }

  const TOPICS: Codec<Value> := Codec(EncodeTopics, DecodeTopics, TopicsFit)

  lemma {:induction false} TopicsRoundTrip(v: Value, rest: Bytes)
    requires TopicsFit(v)
    ensures DecodeTopics(EncodeTopics(v) + rest) == Some((v, rest))
  {
    var count := Compact(|v| / 32);
    CompactRoundTrip(|v| / 32, v + rest);
    Regroup(count, v, rest);
    Prefixed(v, rest);
  }

  lemma {:induction false} TopicsRoundTrips()
    ensures RoundTrips(TOPICS)
  {
    forall v: Value, rest: Bytes | TopicsFit(v)
      ensures DecodeTopics(EncodeTopics(v) + rest) == Some((v, rest))
    {
      TopicsRoundTrip(v, rest);
    }
  }
}
