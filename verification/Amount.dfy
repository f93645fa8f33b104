/** Token amounts as exact integers of the smallest unit, and the decimal count behind them. */
module Amount {
  import opened Wrappers
  import opened Decimal
  import opened Text

  const MAX_DECIMALS: nat := 38
  const U128: nat := 0x1_0000_0000_0000_0000_0000_0000_0000_0000

  datatype AmountError = TooManyDecimals | Empty | Negative | HalfPoint | NotDigits | TooPrecise | Overflow

  // ---------- parsing ----------

  lemma {:induction false} OneMoreZero(n: nat, t: string)
    ensures Zeros(n + 1) + t == ['0'] + (Zeros(n) + t)
  {
  }

  function TrimZeros(s: string): (t: string)
    requires AllDigits(s)
    ensures AllDigits(t) && |t| <= |s| && s == Zeros(|s| - |t|) + t && (t != [] ==> t[0] != '0')
  {
    if s != [] && s[0] == '0' then
      var t := TrimZeros(s[1..]);
      OneMoreZero(|s| - 1 - |t|, t);
      assert s == ['0'] + s[1..];
      t
    else
      assert Zeros(0) + s == s;
      s
  }

  /** The standard library's integer parser, on digits only. */
  function ParseU128(s: string): Option<nat>
    requires AllDigits(s)
  {
    if s != [] && Val(s) < U128 then Some(Val(s)) else None
  }

  function WithoutPlus(t: string): string {
    if t != [] && t[0] == '+' then t[1..] else t
  }

  /** Leading zeros are stripped first, so a zero amount needs its own branch. */
  function ReadDigits(digits: string): Result<nat, AmountError>
    requires AllDigits(digits)
  {
    match ParseU128(TrimZeros(digits))
    case Some(v) => Ok(v)
    case None => if forall i | 0 <= i < |digits| :: digits[i] == '0' then Ok(0) else Err(Overflow)
  }

  function ReadParts(whole: string, fraction: string, decimals: nat): Result<nat, AmountError> {
    if !AllDigits(whole) || !AllDigits(fraction) then Err(NotDigits)
    else if |fraction| > decimals then Err(TooPrecise)
    else ReadDigits(whole + fraction + Zeros(decimals - |fraction|))
  }

  function ParsedBody(body: string, decimals: nat): Result<nat, AmountError> {
    if body == [] then Err(Empty)
    else if body[0] == '-' then Err(Negative)
    else
      var point := FirstOf(body, '.');
      var whole, fraction := body[..point], if point < |body| then body[point + 1..] else [];
      if whole == [] || (point < |body| && fraction == []) then Err(HalfPoint)
      else ReadParts(whole, fraction, decimals)
  }

  function Parsed(space: char -> bool, text: string, decimals: nat): Result<nat, AmountError> {
    if decimals > MAX_DECIMALS then Err(TooManyDecimals) else ParsedBody(WithoutPlus(Trim(space, text)), decimals)
  }

  /** The text is digits, optionally with a point and at most `decimals` more digits. */
  ghost predicate Spells(body: string, decimals: nat, whole: string, fraction: string) {
    whole != [] && AllDigits(whole) && AllDigits(fraction) && |fraction| <= decimals
    && body == if fraction == [] then whole else whole + "." + fraction
  }

  /** The exact value, scaled by `10 ^ decimals`. */
  ghost function Scaled(decimals: nat, whole: string, fraction: string): nat
    requires AllDigits(whole) && AllDigits(fraction) && |fraction| <= decimals
  {
    Val(whole) * Pow10(decimals) + Val(fraction) * Pow10(decimals - |fraction|)
  }

  ghost predicate BodyDenotes(body: string, decimals: nat, v: nat) {
    exists whole, fraction :: Spells(body, decimals, whole, fraction) && v == Scaled(decimals, whole, fraction)
  }

  /** An amount with an optional plus sign. */
  ghost predicate Denotes(t: string, decimals: nat, v: nat) {
    BodyDenotes(t, decimals, v) || (t != [] && t[0] == '+' && BodyDenotes(t[1..], decimals, v))
  }

  /** The documented language: the text is accepted, with this amount. */
  ghost predicate Accepts(space: char -> bool, text: string, decimals: nat, v: nat) {
    decimals <= MAX_DECIMALS && v < U128 && Denotes(Trim(space, text), decimals, v)
  }

  ghost predicate HasHalfPoint(body: string) {
    "." <= body || exists whole :: '.' !in whole && body == whole + "."
  }

  ghost predicate IsNumber(body: string) {
    exists whole, fraction ::
      AllDigits(whole) && AllDigits(fraction) && (body == whole || body == whole + "." + fraction)
  }

  /** What the error says of an amount without its plus sign. */
  ghost predicate BodyRefused(body: string, decimals: nat, e: AmountError) {
    match e
    case TooManyDecimals => false
    case Empty => body == []
    case Negative => "-" <= body
    case HalfPoint => HasHalfPoint(body) && !("-" <= body)
    case NotDigits => !IsNumber(body) && !HasHalfPoint(body) && !("-" <= body)
    case TooPrecise => exists whole, fraction :: Spells(body, |fraction|, whole, fraction) && |fraction| > decimals
    case Overflow =>
      exists whole, fraction :: Spells(body, decimals, whole, fraction) && Scaled(decimals, whole, fraction) >= U128
  }

  /** What the error says of the text. */
  ghost predicate Refuses(space: char -> bool, text: string, decimals: nat, e: AmountError) {
    if decimals > MAX_DECIMALS then e == TooManyDecimals
    else
      var t := Trim(space, text);
      BodyRefused(if "+" <= t then t[1..] else t, decimals, e)
  }

  method PadDigits(whole: string, fraction: string, decimals: nat) returns (digits: string)
    requires |fraction| <= decimals
    ensures digits == whole + fraction + Zeros(decimals - |fraction|)
  {
    digits := whole + fraction;
    for k := |fraction| to decimals
      invariant digits == whole + fraction + Zeros(k - |fraction|)
    {
      assert Zeros(k - |fraction|) + ['0'] == Zeros(k + 1 - |fraction|);
      digits := digits + ['0'];
    }
  }

  lemma {:induction false} AcceptsExactly(space: char -> bool, text: string, decimals: nat)
    ensures forall v: nat {:trigger Accepts(space, text, decimals, v)} ::
              Parsed(space, text, decimals) == Ok(v) <==> Accepts(space, text, decimals, v)
  {
    forall v: nat
      ensures Parsed(space, text, decimals) == Ok(v) <==> Accepts(space, text, decimals, v)
    {
      ParsedIsExact(space, text, decimals, v);
    }
  }

  /** Accepts exactly the documented texts, with their exact values. */
  method ParseAmount(space: char -> bool, text: string, decimals: nat) returns (r: Result<nat, AmountError>)
    ensures forall v: nat {:trigger Accepts(space, text, decimals, v)} ::
              r == Ok(v) <==> Accepts(space, text, decimals, v)
    ensures forall e :: r == Err(e) <==> Refuses(space, text, decimals, e)
    ensures r == Parsed(space, text, decimals)
  {
    forall e
      ensures Parsed(space, text, decimals) == Err(e) <==> Refuses(space, text, decimals, e)
    {
      RefusalsAreExact(space, text, decimals, e);
    }
    if decimals > MAX_DECIMALS {
      r := Err(TooManyDecimals);
    } else {
      var body := WithoutPlus(Trim(space, text));
      r := ParseBody(body, decimals);
    }
    AcceptsExactly(space, text, decimals);
  }

  /** The text without its sign. */
  method ParseBody(body: string, decimals: nat) returns (r: Result<nat, AmountError>)
    ensures r == ParsedBody(body, decimals)
  {
    if body == [] {
      return Err(Empty);
    }
    if body[0] == '-' {
      return Err(Negative);
    }
    var point := FirstOf(body, '.');
    var whole, fraction := body[..point], if point < |body| then body[point + 1..] else [];
    if whole == [] || (point < |body| && fraction == []) {
      return Err(HalfPoint);
    }
    if !AllDigits(whole) || !AllDigits(fraction) {
      return Err(NotDigits);
    }
    if |fraction| > decimals {
      return Err(TooPrecise);
    }
    var digits := PadDigits(whole, fraction, decimals);
    r := ReadDigits(digits);
  }

  lemma {:induction false} PaddedValue(decimals: nat, whole: string, fraction: string)
    requires AllDigits(whole) && AllDigits(fraction) && |fraction| <= decimals
    ensures Val(whole + fraction + Zeros(decimals - |fraction|)) == Scaled(decimals, whole, fraction)
  {
    var pad := decimals - |fraction|;
    ValConcat(whole + fraction, Zeros(pad));
    ValConcat(whole, fraction);
    ValZeros(pad);
    PowAdd(|fraction|, pad);
    Regroup(Val(whole), Pow10(|fraction|), Val(fraction), Pow10(pad));
  }

  lemma {:induction false} Regroup(w: nat, p: nat, f: nat, q: nat)
    ensures (w * p + f) * q == w * (p * q) + f * q
  {
  }

  /** A numeral without leading zeros is worth at least its length's power of ten. */
  lemma {:induction false} LeadingDigitCounts(s: string)
    requires AllDigits(s) && s != [] && s[0] != '0'
    ensures Val(s) > 0
    decreases |s|
  {
    if |s| > 1 {
      LeadingDigitCounts(s[..|s| - 1]);
    }
  }

  lemma {:induction false} LeadingZeros(n: nat, s: string)
    requires AllDigits(s)
    ensures Val(Zeros(n) + s) == Val(s)
  {
    ValConcat(Zeros(n), s);
    ValZeros(n);
    assert 0 * Pow10(|s|) == 0;
  }

  lemma {:induction false} DigitsAreRead(digits: string)
    requires AllDigits(digits) && digits != []
    ensures ReadDigits(digits) == if Val(digits) < U128 then Ok(Val(digits)) else Err(Overflow)
  {
    var t := TrimZeros(digits);
    LeadingZeros(|digits| - |t|, t);
    if t == [] {
      assert Val(digits) == 0;
    } else {
      NotAllZeros(|digits| - |t|, t);
    }
  }

  lemma {:induction false} NotAllZeros(n: nat, t: string)
    requires t != [] && t[0] != '0'
    ensures !(forall i | 0 <= i < n + |t| :: (Zeros(n) + t)[i] == '0')
  {
    assert (Zeros(n) + t)[n] == t[0];
  }

  lemma {:induction false} PartsAreRead(whole: string, fraction: string, decimals: nat, v: nat)
    requires whole != []
    ensures ReadParts(whole, fraction, decimals) == Ok(v) <==>
              AllDigits(whole) && AllDigits(fraction) && |fraction| <= decimals && v < U128
                && v == Scaled(decimals, whole, fraction)
  {
    if AllDigits(whole) && AllDigits(fraction) && |fraction| <= decimals {
      PaddedValue(decimals, whole, fraction);
      DigitsAreRead(whole + fraction + Zeros(decimals - |fraction|));
    }
  }

  lemma {:induction false} PointEndsDigits(digits: string, rest: string)
    requires AllDigits(digits) && (rest == [] || rest[0] == '.')
    ensures FirstOf(digits + rest, '.') == |digits|
  {
    if digits == [] {
      assert digits + rest == rest;
    } else {
      assert (digits + rest)[1..] == digits[1..] + rest;
      assert IsDigit(digits[0]);
      PointEndsDigits(digits[1..], rest);
    }
  }

  lemma {:induction false} SpelledParts(body: string, decimals: nat, whole: string, fraction: string)
    requires Spells(body, decimals, whole, fraction)
    ensures body != [] && body[0] != '-' && body[0] != '+'
    ensures var point := FirstOf(body, '.');
            body[..point] == whole && (if point < |body| then body[point + 1..] else []) == fraction
            && (point < |body| ==> fraction != [])
  {
    assert IsDigit(whole[0]) && body[0] == whole[0];
    var rest := if fraction == [] then [] else "." + fraction;
    assert body == whole + rest;
    PointEndsDigits(whole, rest);
  }

  lemma {:induction false} BodyIsSound(body: string, decimals: nat, v: nat)
    requires ParsedBody(body, decimals) == Ok(v)
    ensures v < U128 && BodyDenotes(body, decimals, v)
  {
    var point := FirstOf(body, '.');
    PartsSpell(body, point, if point < |body| then body[point + 1..] else [], decimals, v);
  }

  lemma {:induction false} PartsSpell(body: string, point: nat, fraction: string, decimals: nat, v: nat)
    requires 0 < point <= |body| && (point < |body| ==> body[point] == '.')
    requires if point < |body| then fraction == body[point + 1..] && fraction != [] else fraction == []
    requires ReadParts(body[..point], fraction, decimals) == Ok(v)
    ensures v < U128 && BodyDenotes(body, decimals, v)
  {
    PartsAreRead(body[..point], fraction, decimals, v);
    assert Spells(body, decimals, body[..point], fraction);
  }

  lemma {:induction false} BodyIsComplete(body: string, decimals: nat, v: nat)
    requires v < U128 && BodyDenotes(body, decimals, v)
    ensures ParsedBody(body, decimals) == Ok(v)
  {
    var whole, fraction :| Spells(body, decimals, whole, fraction) && v == Scaled(decimals, whole, fraction);
    SpelledParts(body, decimals, whole, fraction);
    PartsAreRead(whole, fraction, decimals, v);
  }

  /** The parser accepts exactly the documented texts, with their exact values. */
  lemma {:induction false} ParsedIsExact(space: char -> bool, text: string, decimals: nat, v: nat)
    ensures Parsed(space, text, decimals) == Ok(v) <==> Accepts(space, text, decimals, v)
  {
    var t := Trim(space, text);
    if ParsedBody(WithoutPlus(t), decimals) == Ok(v) {
      BodyIsSound(WithoutPlus(t), decimals, v);
    }
    if v < U128 && BodyDenotes(WithoutPlus(t), decimals, v) {
      BodyIsComplete(WithoutPlus(t), decimals, v);
    }
    if t != [] && t[0] == '+' && BodyDenotes(t, decimals, v) {
      var whole, fraction :| Spells(t, decimals, whole, fraction) && v == Scaled(decimals, whole, fraction);
      SpelledParts(t, decimals, whole, fraction);
    }
  }

  /** Digits with a point or without, at the point where the parser takes them apart. */
  lemma {:induction false} NumberIsTakenApart(body: string, whole: string, fraction: string, pointed: bool)
    requires AllDigits(whole) && AllDigits(fraction)
    requires body == if pointed then whole + "." + fraction else whole
    ensures var point := FirstOf(body, '.');
            body[..point] == whole && (point < |body| <==> pointed) && (pointed ==> body[point + 1..] == fraction)
  {
    var rest := if pointed then "." + fraction else [];
    assert body == whole + rest;
    PointEndsDigits(whole, rest);
  }

  lemma {:induction false} PointAtEnd(whole: string)
    requires '.' !in whole
    ensures FirstOf(whole + ".", '.') == |whole|
  {
    if whole == [] {
      assert whole + "." == ".";
    } else {
      assert (whole + ".")[1..] == whole[1..] + ".";
      PointAtEnd(whole[1..]);
    }
  }

  lemma {:induction false} HalfPointIsSeen(body: string, point: nat)
    requires body != [] && point == FirstOf(body, '.')
    ensures body[..point] == [] || (point < |body| && body[point + 1..] == []) <==> HasHalfPoint(body)
  {
    if exists whole :: '.' !in whole && body == whole + "." {
      var whole :| '.' !in whole && body == whole + ".";
      PointAtEnd(whole);
    }
    if point < |body| && body[point + 1..] == [] {
      assert body == body[..point] + ".";
    }
  }

  lemma {:induction false} PartsAreRefused(body: string, decimals: nat, whole: string, fraction: string)
    requires whole != [] && body != [] && !("-" <= body) && !HasHalfPoint(body)
    requires whole == body[..FirstOf(body, '.')]
    requires if FirstOf(body, '.') < |body| then fraction == body[FirstOf(body, '.') + 1..] && fraction != []
             else fraction == []
    requires ReadParts(whole, fraction, decimals).Err?
    ensures BodyRefused(body, decimals, ReadParts(whole, fraction, decimals).error)
  {
    if !AllDigits(whole) || !AllDigits(fraction) {
      if IsNumber(body) {
        var w, f :| AllDigits(w) && AllDigits(f) && (body == w || body == w + "." + f);
        NumberIsTakenApart(body, w, f, body != w);
      }
    } else if |fraction| > decimals {
      assert Spells(body, |fraction|, whole, fraction);
    } else {
      PaddedValue(decimals, whole, fraction);
      DigitsAreRead(whole + fraction + Zeros(decimals - |fraction|));
      assert Spells(body, decimals, whole, fraction);
    }
  }

  lemma {:induction false} BodyIsRefused(body: string, decimals: nat)
    requires ParsedBody(body, decimals).Err?
    ensures BodyRefused(body, decimals, ParsedBody(body, decimals).error)
  {
    if body != [] && body[0] != '-' {
      var point := FirstOf(body, '.');
      HalfPointIsSeen(body, point);
      if !HasHalfPoint(body) {
        PartsAreRefused(body, decimals, body[..point], if point < |body| then body[point + 1..] else []);
      }
    }
  }

  lemma {:induction false} SpelledIsRead(body: string, decimals: nat, whole: string, fraction: string)
    requires Spells(body, |fraction|, whole, fraction)
    ensures ParsedBody(body, decimals) == ReadParts(whole, fraction, decimals)
  {
    SpelledParts(body, |fraction|, whole, fraction);
  }

  lemma {:induction false} HalfPointIsRefused(body: string, decimals: nat)
    requires HasHalfPoint(body) && body != [] && body[0] != '-'
    ensures ParsedBody(body, decimals) == Err(HalfPoint)
  {
    HalfPointIsSeen(body, FirstOf(body, '.'));
  }

  lemma {:induction false} TooLongIsRefused(body: string, decimals: nat, whole: string, fraction: string)
    requires Spells(body, |fraction|, whole, fraction) && |fraction| > decimals
    ensures ParsedBody(body, decimals) == Err(TooPrecise)
  {
    SpelledIsRead(body, decimals, whole, fraction);
  }

  lemma {:induction false} TooMuchIsRefused(body: string, decimals: nat, whole: string, fraction: string)
    requires Spells(body, decimals, whole, fraction) && Scaled(decimals, whole, fraction) >= U128
    ensures ParsedBody(body, decimals) == Err(Overflow)
  {
    SpelledIsRead(body, decimals, whole, fraction);
    PaddedValue(decimals, whole, fraction);
    DigitsAreRead(whole + fraction + Zeros(decimals - |fraction|));
  }

  lemma {:induction false} CauseDecides(body: string, decimals: nat, e: AmountError)
    requires BodyRefused(body, decimals, e)
    ensures ParsedBody(body, decimals) == Err(e)
  {
    match e
    case Empty | Negative =>
    case HalfPoint =>
      HalfPointIsRefused(body, decimals);
    case NotDigits =>
      NoNumber(body, decimals);
    case TooPrecise =>
      var whole, fraction :| Spells(body, |fraction|, whole, fraction) && |fraction| > decimals;
      TooLongIsRefused(body, decimals, whole, fraction);
    case Overflow =>
      var whole, fraction :| Spells(body, decimals, whole, fraction) && Scaled(decimals, whole, fraction) >= U128;
      TooMuchIsRefused(body, decimals, whole, fraction);
  }

  lemma {:induction false} NoNumber(body: string, decimals: nat)
    requires !IsNumber(body) && !HasHalfPoint(body) && !("-" <= body)
    ensures ParsedBody(body, decimals) == Err(NotDigits)
  {
    var point := FirstOf(body, '.');
    if body == [] {
      assert AllDigits([]);
      assert false;
    }
    HalfPointIsSeen(body, point);
    if point < |body| {
      assert body == body[..point] + "." + body[point + 1..];
    } else {
      assert body == body[..point] && AllDigits([]);
    }
  }

  /** Each refusal has its own cause, and each cause its own refusal. */
  lemma {:induction false} RefusalsAreExact(space: char -> bool, text: string, decimals: nat, e: AmountError)
    ensures Parsed(space, text, decimals) == Err(e) <==> Refuses(space, text, decimals, e)
  {
    if decimals <= MAX_DECIMALS {
      var body := WithoutPlus(Trim(space, text));
      if ParsedBody(body, decimals).Err? {
        BodyIsRefused(body, decimals);
      }
      if BodyRefused(body, decimals, e) {
        CauseDecides(body, decimals, e);
      }
    }
  }

  // ---------- formatting ----------

  function TrimTrailingZeros(s: string): (t: string)
    requires AllDigits(s)
    ensures AllDigits(t) && |t| <= |s| && s == t + Zeros(|s| - |t|) && (t != [] ==> t[|t| - 1] != '0')
  {
    if s != [] && s[|s| - 1] == '0' then
      var t := TrimTrailingZeros(s[..|s| - 1]);
      assert s == s[..|s| - 1] + ['0'] && Zeros(|s| - |t|) == Zeros(|s| - 1 - |t|) + ['0'];
      t
    else
      assert s + Zeros(0) == s;
      s
  }

  /** The numeral, padded on the left to at least `decimals + 1` digits. */
  function Padded(plancks: nat, decimals: nat): (s: string)
    ensures AllDigits(s) && |s| > decimals
  {
    var n := Numeral(plancks);
    if |n| > decimals then n else Zeros(decimals + 1 - |n|) + n
  }

  function FormatAmount(plancks: nat, decimals: nat): string {
    if decimals == 0 then Numeral(plancks)
    else
      var digits := Padded(plancks, decimals);
      var split := |digits| - decimals;
      var fraction := TrimTrailingZeros(digits[split..]);
      if fraction == [] then digits[..split] else digits[..split] + "." + fraction
  }

  lemma {:induction false} PaddingKeepsValue(plancks: nat, decimals: nat)
    ensures Val(Padded(plancks, decimals)) == plancks
  {
    var n := Numeral(plancks);
    if |n| <= decimals {
      LeadingZeros(decimals + 1 - |n|, n);
    }
  }

  lemma {:induction false} SplitValue(whole: string, fraction: string, decimals: nat)
    requires AllDigits(whole) && AllDigits(fraction) && |fraction| <= decimals
    ensures Val(whole + (fraction + Zeros(decimals - |fraction|))) == Scaled(decimals, whole, fraction)
  {
    PaddedValue(decimals, whole, fraction);
    assert whole + (fraction + Zeros(decimals - |fraction|)) == whole + fraction + Zeros(decimals - |fraction|);
  }

  /** No needless digits: no zero in front of a whole part, none at the end of a fraction. */
  predicate Shortest(whole: string, fraction: string) {
    (|whole| > 1 ==> whole[0] != '0') && (fraction != [] ==> fraction[|fraction| - 1] != '0')
  }

  /** The text spells the amount without needless digits. */
  ghost predicate IsPrinted(text: string, decimals: nat, v: nat) {
    exists whole, fraction ::
      Spells(text, decimals, whole, fraction) && v == Scaled(decimals, whole, fraction) && Shortest(whole, fraction)
  }

  lemma {:induction false} NumeralIsShortest(n: nat)
    ensures |Numeral(n)| > 1 ==> Numeral(n)[0] != '0'
  {
    if n >= 10 {
      NumeralIsShortest(n / 10);
      assert Numeral(n)[0] == Numeral(n / 10)[0];
    }
  }

  lemma {:induction false} FormatIsPrinted(plancks: nat, decimals: nat)
    ensures IsPrinted(FormatAmount(plancks, decimals), decimals, plancks)
  {
    NumeralIsShortest(plancks);
    if decimals == 0 {
      var whole := Numeral(plancks);
      assert Val([]) == 0;
      assert Spells(whole, 0, whole, []) && Scaled(0, whole, []) == plancks && Shortest(whole, []);
    } else {
      var digits := Padded(plancks, decimals);
      var split := |digits| - decimals;
      var fraction := TrimTrailingZeros(digits[split..]);
      PaddingKeepsValue(plancks, decimals);
      SplitValue(digits[..split], fraction, decimals);
      assert digits == digits[..split] + digits[split..];
      assert Shortest(digits[..split], fraction);
      assert Spells(FormatAmount(plancks, decimals), decimals, digits[..split], fraction);
    }
  }

  lemma {:induction false} FormatDenotes(plancks: nat, decimals: nat)
    ensures BodyDenotes(FormatAmount(plancks, decimals), decimals, plancks)
  {
    FormatIsPrinted(plancks, decimals);
  }

  lemma {:induction false} ValBelow(s: string)
    requires AllDigits(s)
    ensures Val(s) < Pow10(|s|)
  {
    if s != [] {
      ValBelow(s[..|s| - 1]);
    }
  }

  lemma {:induction false} ValAbove(s: string)
    requires AllDigits(s) && s != [] && s[0] != '0'
    ensures Val(s) >= Pow10(|s| - 1)
  {
    if |s| > 1 {
      ValAbove(s[..|s| - 1]);
    } else {
      assert s[..0] == [] && Val(s) == DigitValue(s[0]) && Pow10(0) == 1;
    }
  }

  lemma {:induction false} SameValueSameDigits(a: string, b: string)
    requires AllDigits(a) && AllDigits(b) && |a| == |b| && Val(a) == Val(b)
    ensures a == b
  {
    if a != [] {
      var n := |a| - 1;
      SameValueSameDigits(a[..n], b[..n]);
      assert a == a[..n] + [a[n]] && b == b[..n] + [b[n]];
    }
  }

  ghost function Digits(whole: string, fraction: string, decimals: nat): string
    requires |fraction| <= decimals
  {
    whole + fraction + Zeros(decimals - |fraction|)
  }

  /** A longer whole part without a zero in front is worth more. */
  lemma {:induction false} LongerIsMore(decimals: nat, w: string, f: string, whole: string, fraction: string)
    requires AllDigits(w) && AllDigits(f) && |f| <= decimals
    requires AllDigits(whole) && AllDigits(fraction) && |fraction| <= decimals && Shortest(whole, fraction)
    requires 0 < |w| < |whole|
    ensures Scaled(decimals, w, f) < Scaled(decimals, whole, fraction)
  {
    PaddedValue(decimals, w, f);
    PaddedValue(decimals, whole, fraction);
    ValBelow(Digits(w, f, decimals));
    ValAbove(Digits(whole, fraction, decimals));
    PowGrows(|w| + decimals, |whole| + decimals - 1);
  }

  lemma {:induction false} LongerFractionDiffers(f: string, fraction: string, decimals: nat)
    requires |f| < |fraction| <= decimals && Shortest([], fraction)
    ensures f + Zeros(decimals - |f|) != fraction + Zeros(decimals - |fraction|)
  {
    assert (f + Zeros(decimals - |f|))[|fraction| - 1] == '0';
    assert (fraction + Zeros(decimals - |fraction|))[|fraction| - 1] == fraction[|fraction| - 1];
  }

  lemma {:induction false} SameParts(w: string, a: string, whole: string, b: string)
    requires |w| == |whole| && w + a == whole + b
    ensures w == whole && a == b
  {
    assert w == (w + a)[..|w|] && whole == (whole + b)[..|w|];
    assert a == (w + a)[|w|..] && b == (whole + b)[|w|..];
  }

  lemma {:induction false} SameDigits(decimals: nat, w: string, f: string, whole: string, fraction: string)
    requires |f| <= decimals && |fraction| <= decimals && |w| == |whole|
    requires Shortest([], f) && Shortest([], fraction)
    requires Digits(w, f, decimals) == Digits(whole, fraction, decimals)
    ensures w == whole && f == fraction
  {
    var a, b := f + Zeros(decimals - |f|), fraction + Zeros(decimals - |fraction|);
    assert Digits(w, f, decimals) == w + a && Digits(whole, fraction, decimals) == whole + b;
    SameParts(w, a, whole, b);
    if |f| < |fraction| {
      LongerFractionDiffers(f, fraction, decimals);
    } else if |fraction| < |f| {
      LongerFractionDiffers(fraction, f, decimals);
    } else {
      SameParts(f, Zeros(decimals - |f|), fraction, Zeros(decimals - |f|));
    }
  }

  lemma {:induction false} ShortestIsUnique(decimals: nat, w: string, f: string, whole: string, fraction: string)
    requires AllDigits(w) && AllDigits(f) && |f| <= decimals && w != [] && Shortest(w, f)
    requires AllDigits(whole) && AllDigits(fraction) && |fraction| <= decimals
    requires whole != [] && Shortest(whole, fraction)
    requires Scaled(decimals, w, f) == Scaled(decimals, whole, fraction)
    ensures w == whole && f == fraction
  {
    if |w| < |whole| {
      LongerIsMore(decimals, w, f, whole, fraction);
    } else if |whole| < |w| {
      LongerIsMore(decimals, whole, fraction, w, f);
    } else {
      PaddedValue(decimals, w, f);
      PaddedValue(decimals, whole, fraction);
      SameValueSameDigits(Digits(w, f, decimals), Digits(whole, fraction, decimals));
      SameDigits(decimals, w, f, whole, fraction);
    }
  }

  /** The printed text is the one spelling of the amount without needless digits. */
  lemma {:induction false} FormatIsExact(plancks: nat, decimals: nat, text: string)
    ensures text == FormatAmount(plancks, decimals) <==> IsPrinted(text, decimals, plancks)
  {
    FormatIsPrinted(plancks, decimals);
    if IsPrinted(text, decimals, plancks) {
      var printed := FormatAmount(plancks, decimals);
      var w, f :| Spells(printed, decimals, w, f) && plancks == Scaled(decimals, w, f) && Shortest(w, f);
      var whole, fraction :|
        Spells(text, decimals, whole, fraction) && plancks == Scaled(decimals, whole, fraction)
        && Shortest(whole, fraction);
      ShortestIsUnique(decimals, w, f, whole, fraction);
    }
  }

  /** Formatting then parsing gives the amount back exactly up to 38 decimals. The
      documentation claims it for every amount; past 38 the parser refuses every text. */
  lemma {:induction false} FormatParseRoundTrip(space: char -> bool, plancks: nat, decimals: nat)
    requires plancks < U128 && forall c | IsDigit(c) :: !space(c)
    ensures Parsed(space, FormatAmount(plancks, decimals), decimals) == Ok(plancks) <==> decimals <= MAX_DECIMALS
  {
    var text := FormatAmount(plancks, decimals);
    FormatDenotes(plancks, decimals);
    ParsedIsExact(space, text, decimals, plancks);
  }

  // ---------- decimals ----------

  const ED_DECIMAL_OFFSET: nat := 3

  /** The recovered count is `d` exactly when the deposit is `10 ^ (d - 3)`. */
  ghost predicate Recovers(ed: int, decimals: Option<nat>) {
    (decimals.Some? ==> decimals.value >= ED_DECIMAL_OFFSET)
    && forall p: nat :: decimals == Some(p + ED_DECIMAL_OFFSET) <==> ed == Pow10(p)
  }

  /** Rust and Python: divide while a multiple of ten, then look at what is left. */
  method DecimalsByDivision(ed: nat) returns (decimals: Option<nat>)
    ensures Recovers(ed, decimals)
  {
    var value, exponent := ed, 0;
    while value > 1 && value % 10 == 0
      invariant ed == value * Pow10(exponent)
      decreases value
    {
      value, exponent := value / 10, exponent + 1;
    }
    StrippedPower(ed, value, exponent);
    decimals := if value == 1 then Some(exponent + ED_DECIMAL_OFFSET) else None;
  }

  /** Go: give up at the first remainder. */
  method DecimalsByRemainder(ed: int) returns (decimals: Option<nat>)
    ensures Recovers(ed, decimals)
  {
    if ed <= 0 {
      return None;
    }
    var value, exponent := ed, 0;
    while value > 1
      invariant value >= 1 && ed == value * Pow10(exponent)
      decreases value
    {
      if value % 10 != 0 {
        StrippedPower(ed, value, exponent);
        return None;
      }
      value, exponent := value / 10, exponent + 1;
    }
    StrippedPower(ed, value, exponent);
    decimals := Some(exponent + ED_DECIMAL_OFFSET);
  }

  /** Once no factor ten is left, the deposit was a power of ten only if 1 is left. */
  lemma {:induction false} StrippedPower(ed: nat, value: nat, exponent: nat)
    requires ed == value * Pow10(exponent) && (value <= 1 || value % 10 != 0)
    ensures forall p: nat :: ed == Pow10(p) <==> value == 1 && p == exponent
  {
    forall p: nat | ed == Pow10(p)
      ensures value == 1 && p == exponent
    {
      OnlyPower(value, exponent, p);
    }
  }

  /** What is left of a power of ten, once it is 1 or no multiple of ten, is 1. */
  lemma {:induction false} OnlyPower(value: nat, exponent: nat, p: nat)
    requires value * Pow10(exponent) == Pow10(p)
    requires value <= 1 || value % 10 != 0
    ensures value == 1 && exponent == p
  {
    if p < exponent {
      PowGrows(p, exponent);
      SmallProduct(value, Pow10(exponent), Pow10(p));
      assert false;
    } else {
      PowAdd(p - exponent, exponent);
      SameFactor(value, Pow10(p - exponent), Pow10(exponent));
    }
  }

  lemma {:induction false} SmallProduct(value: nat, q: nat, p: nat)
    requires value * q == p < q
    ensures p == 0
  {
    assert value > 0 ==> value * q >= q;
  }

  lemma {:induction false} SameFactor(a: nat, b: nat, c: nat)
    requires c > 0 && a * c == b * c
    ensures a == b
  {
    assert a < b ==> a * c + c <= b * c;
    assert b < a ==> b * c + c <= a * c;
  }

  /** 38 is the largest power of ten below 2 ^ 128. */
  lemma {:induction false} PowersBelowU128(d: nat)
    ensures Pow10(d) < U128 <==> d <= MAX_DECIMALS
  {
    Pow38();
    assert Pow10(39) == 10 * Pow10(38);
    if d <= 38 {
      PowGrows(d, 38);
    } else {
      PowGrows(39, d);
    }
  }

  /** A deposit that fits 128 bits recovers at most 41 decimals. */
  lemma {:induction false} RecoveredDecimalsFitAByte(ed: nat, d: nat)
    requires ed < U128 && d >= ED_DECIMAL_OFFSET && ed == Pow10(d - ED_DECIMAL_OFFSET)
    ensures d <= 41
  {
    PowersBelowU128(d - ED_DECIMAL_OFFSET);
  }

  /** Within the supported decimals one token is a thousand deposits and parses from "1";
      from 39 on it no longer fits 128 bits and no text parses. */
  lemma {:induction false} OneToken(space: char -> bool, ed: nat, d: nat)
    requires ed < U128 && d >= ED_DECIMAL_OFFSET && ed == Pow10(d - ED_DECIMAL_OFFSET) && !space('1')
    ensures Pow10(d) == 1000 * ed
    ensures Parsed(space, "1", d) == Ok(Pow10(d)) <==> d <= MAX_DECIMALS
    ensures Pow10(d) < U128 <==> d <= MAX_DECIMALS
  {
    PowersBelowU128(d);
    PowAdd(ED_DECIMAL_OFFSET, d - ED_DECIMAL_OFFSET);
    assert Pow10(3) == 1000;
    assert Spells("1", d, "1", []);
    assert Val("1"[..0]) == 0 && Val("1") == 1 && Val([]) == 0;
    assert Scaled(d, "1", []) == Pow10(d);
    ParsedIsExact(space, "1", d, Pow10(d));
  }

  /** One planck of a token with 39 decimals: it is printed, and no text is read back. */
  lemma {:induction false} LongDecimalsExample(space: char -> bool)
    ensures FormatAmount(1, 39) == "0." + Zeros(38) + "1"
    ensures Parsed(space, FormatAmount(1, 39), 39) == Err(TooManyDecimals)
  {
    assert Numeral(1) == "1";
    OnePlanck(Zeros(38));
  }

  lemma {:induction false} OnePlanck(zeros: string)
    requires AllDigits(zeros) && |zeros| == 38 && Zeros(39) == "0" + zeros && Numeral(1) == "1"
    ensures FormatAmount(1, 39) == "0." + zeros + "1"
  {
    var fraction := zeros + "1";
    assert Padded(1, 39) == "0" + fraction;
    assert ("0" + fraction)[1..] == fraction && ("0" + fraction)[..1] == "0";
    assert TrimTrailingZeros(fraction) == fraction;
    assert "0" + "." + fraction == "0." + zeros + "1";
  }
}
