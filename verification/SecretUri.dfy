/** Splitting a secret URI into phrase, derivation junctions and password by hand, instead of
    by the regular expression that defines the format. */
module SecretUri {
  import opened Wrappers
  import opened Text

  datatype UriError = BadPhrase | BadPath

  /** A junction token keeps the second slash of a hard junction: `/hard` or `soft`. */
  datatype Suri = Suri(phrase: string, junctions: seq<string>, password: Option<string>)

  const SEPARATOR := "///"

  // ---------- the grammar ----------

  predicate IsCode(s: string) {
    s != [] && '/' !in s
  }

  predicate IsToken(s: string) {
    IsCode(s) || (s != [] && s[0] == '/' && IsCode(s[1..]))
  }

  function PathText(tokens: seq<string>): string {
    if tokens == [] then [] else "/" + tokens[0] + PathText(tokens[1..])
  }

  function PasswordText(password: Option<string>): string {
    match password
    case None => []
    case Some(text) => SEPARATOR + text
  }

  /** Puts a split back together. */
  function Join(uri: Suri): string {
    uri.phrase + PathText(uri.junctions) + PasswordText(uri.password)
  }

  /** The parts are of the documented form; `letter` is the phrase's character class. */
  ghost predicate WellFormed(letter: char -> bool, uri: Suri) {
    (forall c | c in uri.phrase :: letter(c)) && forall t | t in uri.junctions :: IsToken(t)
  }

  // ---------- the splitter ----------

  predicate SeparatorAt(s: string, k: int) {
    0 <= k && k + 2 < |s| && s[k] == '/' && s[k + 1] == '/' && s[k + 2] == '/'
  }

  /** The first occurrence of `///`, or the length if there is none. */
  function FindSeparator(s: string): (at: nat)
    ensures at <= |s| && (at < |s| ==> SeparatorAt(s, at))
    ensures forall k | 0 <= k < at :: !SeparatorAt(s, k)
  {
    if s == [] || SeparatorAt(s, 0) then 0
    else
      var rest := FindSeparator(s[1..]);
      assert forall k | 1 <= k :: SeparatorAt(s, k) == SeparatorAt(s[1..], k - 1);
      1 + rest
  }

  /** A phrase is made of letters alone; it may be empty. */
  predicate IsValidPhrase(letter: char -> bool, phrase: string) {
    forall c | c in phrase :: letter(c)
  }

  /** The tokens of a path, read from the front. */
  function Junctions(path: string): Result<seq<string>, UriError>
    decreases |path|
  {
    if path == [] then Ok([])
    else if path[0] != '/' then Err(BadPath)
    else
      var start := if |path| > 1 && path[1] == '/' then 2 else 1;
      var end := start + FirstOf(path[start..], '/');
      if end == start then Err(BadPath) else Prepend([path[1..end]], Junctions(path[end..]))
  }

  function Prepend(tokens: seq<string>, r: Result<seq<string>, UriError>): Result<seq<string>, UriError> {
    match r
    case Err(e) => Err(e)
    case Ok(more) => Ok(tokens + more)
  }

  /** The same for the segment at `i`. */
  lemma {:induction false} NextJunction(path: string, i: nat, code: nat, end: nat)
    requires i < |path| && path[i] == '/'
    requires code == (if i + 1 < |path| && path[i + 1] == '/' then i + 2 else i + 1)
    requires end == code + FirstOf(path[code..], '/')
    ensures Junctions(path[i..]) == if end == code then Err(BadPath)
              else Prepend([path[i + 1..end]], Junctions(path[end..]))
  {
    var rest := path[i..];
    assert end - i == (code - i) + FirstOf(rest[code - i..], '/');
    assert rest[1..end - i] == path[i + 1..end] && rest[end - i..] == path[end..];
  }

  method ParseJunctions(path: string) returns (r: Result<seq<string>, UriError>)
    ensures r == Junctions(path)
  {
    var junctions: seq<string> := [];
    var i := 0;
    assert path[0..] == path;
    PrependNothing(Junctions(path));
    while i < |path|
      invariant i <= |path|
      invariant Junctions(path) == Prepend(junctions, Junctions(path[i..]))
    {
      if path[i] != '/' {
        return Err(BadPath);
      }
      var tokenStart := i;
      i := i + 1;
      if i < |path| && path[i] == '/' {
        i := i + 1;
      }
      var codeStart := i;
      while i < |path| && path[i] != '/'
        invariant codeStart <= i <= |path|
        invariant i + FirstOf(path[i..], '/') == codeStart + FirstOf(path[codeStart..], '/')
      {
        assert path[i..][1..] == path[i + 1..];
        i := i + 1;
      }
      NextJunction(path, tokenStart, codeStart, i);
      if i == codeStart {
        return Err(BadPath);
      }
      PrependTwice(junctions, [path[tokenStart + 1..i]], Junctions(path[i..]));
      junctions := junctions + [path[tokenStart + 1..i]];
    }
    assert junctions + [] == junctions;
    r := Ok(junctions);
  }

  lemma {:induction false} PrependNothing(r: Result<seq<string>, UriError>)
    ensures Prepend([], r) == r
  {
    if r.Ok? {
      assert [] + r.value == r.value;
    }
  }

  lemma {:induction false} PrependTwice(a: seq<string>, b: seq<string>, r: Result<seq<string>, UriError>)
    ensures Prepend(a, Prepend(b, r)) == Prepend(a + b, r)
  {
    if r.Ok? {
      assert a + (b + r.value) == (a + b) + r.value;
    }
  }

  lemma {:induction false} OnlyPathErrors(path: string)
    ensures Junctions(path).Err? ==> Junctions(path) == Err(BadPath)
    decreases |path|
  {
    if path != [] && path[0] == '/' {
      var start := if |path| > 1 && path[1] == '/' then 2 else 1;
      OnlyPathErrors(path[start + FirstOf(path[start..], '/')..]);
    }
  }

  /** The parts of what stands before the password, with the phrase up to `slash`. */
  function Parts(letter: char -> bool, head: string, slash: nat, password: Option<string>): Result<Suri, UriError>
    requires slash <= |head|
  {
    if !IsValidPhrase(letter, head[..slash]) then Err(BadPhrase)
    else
      match Junctions(head[slash..])
      case Err(e) => Err(e)
      case Ok(tokens) => Ok(Suri(head[..slash], tokens, password))
  }

  function SplitSpec(letter: char -> bool, input: string): Result<Suri, UriError> {
    var at := FindSeparator(input);
    var password := if at < |input| then Some(input[at + |SEPARATOR|..]) else None;
    Parts(letter, input[..at], FirstOf(input[..at], '/'), password)
  }

  /** Something other than a letter stands before every slash. */
  ghost predicate HasBadPhrase(letter: char -> bool, input: string) {
    exists i: nat :: IsBadLetter(letter, input, i)
  }

  predicate IsBadLetter(letter: char -> bool, input: string, i: nat) {
    i < |input| && !letter(input[i]) && '/' !in input[..i + 1]
  }

  lemma {:induction false} BadPhraseIsSeen(letter: char -> bool, input: string)
    ensures var head := input[..FindSeparator(input)];
            IsValidPhrase(letter, head[..FirstOf(head, '/')]) <==> !HasBadPhrase(letter, input)
  {
    var at := FindSeparator(input);
    var phrase := input[..at][..FirstOf(input[..at], '/')];
    assert forall i: nat :: IsBadLetter(letter, input, i) <==> i < |phrase| && !letter(phrase[i]);
    assert forall i | 0 <= i < |phrase| :: phrase[i] in phrase;
  }

  lemma {:induction false} SplitMeaning(letter: char -> bool, input: string)
    requires !letter('/')
    ensures forall uri :: SplitSpec(letter, input) == Ok(uri) <==> WellFormed(letter, uri) && Join(uri) == input
    ensures SplitSpec(letter, input) == Err(BadPhrase) <==> HasBadPhrase(letter, input)
  {
    var head := input[..FindSeparator(input)];
    BadPhraseIsSeen(letter, input);
    OnlyPathErrors(head[FirstOf(head, '/')..]);
    forall uri
      ensures SplitSpec(letter, input) == Ok(uri) <==> WellFormed(letter, uri) && Join(uri) == input
    {
      SplitIsExact(letter, input, uri);
    }
  }

  /** Of two faults the one in the phrase is reported. */
  method Split(letter: char -> bool, input: string) returns (r: Result<Suri, UriError>)
    requires !letter('/')
    ensures forall uri :: r == Ok(uri) <==> WellFormed(letter, uri) && Join(uri) == input
    ensures r == Err(BadPhrase) <==> HasBadPhrase(letter, input)
    ensures r == SplitSpec(letter, input)
  {
    SplitMeaning(letter, input);
    var at := FindSeparator(input);
    var head, password := input, None;
    if at < |input| {
      head, password := input[..at], Some(input[at + |SEPARATOR|..]);
    }
    assert head == input[..at];
    var slash := FirstOf(head, '/');
    var phrase, path := head[..slash], head[slash..];
    if !IsValidPhrase(letter, phrase) {
      return Err(BadPhrase);
    }
    var junctions := ParseJunctions(path);
    if junctions.Err? {
      return Err(junctions.error);
    }
    r := Ok(Suri(phrase, junctions.value, password));
  }

  // ---------- sound: what is accepted has the documented form ----------

  lemma {:induction false} SegmentIsToken(path: string, start: nat, end: nat)
    requires path != [] && path[0] == '/'
    requires start == (if |path| > 1 && path[1] == '/' then 2 else 1)
    requires end == start + FirstOf(path[start..], '/') && end > start
    ensures IsToken(path[1..end]) && "/" + path[1..end] + path[end..] == path
  {
    var token, code := path[1..end], path[start..end];
    assert code == path[start..][..end - start];
    assert start == 2 ==> token[1..] == code;
  }

  lemma {:induction false} JunctionsAreTokens(path: string)
    ensures Junctions(path).Ok? ==>
              PathText(Junctions(path).value) == path && forall t | t in Junctions(path).value :: IsToken(t)
    decreases |path|
  {
    if path != [] && path[0] == '/' {
      var start := if |path| > 1 && path[1] == '/' then 2 else 1;
      var end := start + FirstOf(path[start..], '/');
      if end > start && Junctions(path[end..]).Ok? {
        JunctionsAreTokens(path[end..]);
        SegmentIsToken(path, start, end);
        var more := Junctions(path[end..]).value;
        assert Junctions(path) == Ok([path[1..end]] + more);
        assert ([path[1..end]] + more)[1..] == more;
      }
    }
  }

  lemma {:induction false} SeparatorSplits(s: string, at: nat)
    requires SeparatorAt(s, at)
    ensures s == s[..at] + SEPARATOR + s[at + |SEPARATOR|..]
  {
    var middle := s[at..at + 3];
    assert middle == ['/', '/', '/'] == SEPARATOR;
    assert s == s[..at] + middle + s[at + 3..];
  }

  lemma {:induction false} SplitIsSound(letter: char -> bool, input: string, uri: Suri)
    requires SplitSpec(letter, input) == Ok(uri)
    ensures WellFormed(letter, uri) && Join(uri) == input
  {
    var at := FindSeparator(input);
    JunctionsAreTokens(input[..at][FirstOf(input[..at], '/')..]);
    RejoinParts(input, at, FirstOf(input[..at], '/'), uri);
  }

  lemma {:induction false} RejoinParts(input: string, at: nat, slash: nat, uri: Suri)
    requires at <= |input| && slash <= at && (at < |input| ==> SeparatorAt(input, at))
    requires uri.phrase == input[..at][..slash] && PathText(uri.junctions) == input[..at][slash..]
    requires uri.password == if at < |input| then Some(input[at + |SEPARATOR|..]) else None
    ensures Join(uri) == input
  {
    assert uri.phrase + PathText(uri.junctions) == input[..at];
    if at < |input| {
      SeparatorSplits(input, at);
    } else {
      assert input[..at] + [] == input;
    }
  }

  // ---------- complete: every such text is accepted, with these parts ----------

  /** The slash of the next token, or the end of the path, stops a code. */
  lemma {:induction false} SlashEndsCode(code: string, rest: string)
    requires '/' !in code && (rest == [] || rest[0] == '/')
    ensures FirstOf(code + rest, '/') == |code|
  {
    if code == [] {
      assert code + rest == rest;
    } else {
      assert (code + rest)[1..] == code[1..] + rest;
      SlashEndsCode(code[1..], rest);
    }
  }

  /** A code behind one slash or two, when what follows does not continue it. */
  lemma {:induction false} CodeIsSegment(slashes: string, code: string, rest: string)
    requires IsCode(code) && (slashes == "/" || slashes == "//") && (rest == [] || rest[0] == '/')
    ensures Junctions(slashes + code + rest) == Prepend([slashes[1..] + code], Junctions(rest))
  {
    var path, start := slashes + code + rest, |slashes|;
    assert code[0] in code && path[start] == code[0];
    assert path[start..] == code + rest;
    SlashEndsCode(code, rest);
    assert path[1..start + |code|] == slashes[1..] + code && path[start + |code|..] == rest;
  }

  lemma {:induction false} TokenIsSegment(token: string, rest: string)
    requires IsToken(token) && (rest == [] || rest[0] == '/')
    ensures Junctions("/" + token + rest) == Prepend([token], Junctions(rest))
  {
    if token[0] == '/' {
      assert token == "/" + token[1..] && "/" + token == "//" + token[1..];
      assert IsCode(token[1..]) by {
        assert '/' in token;
      }
      CodeIsSegment("//", token[1..], rest);
    } else {
      assert "/"[1..] + token == token;
      CodeIsSegment("/", token, rest);
    }
  }

  lemma {:induction false} FirstAndRest(tokens: seq<string>)
    requires tokens != []
    ensures Prepend([tokens[0]], Ok(tokens[1..])) == Ok(tokens)
  {
    assert tokens == [tokens[0]] + tokens[1..];
  }

  lemma {:induction false} TokensAreJunctions(tokens: seq<string>)
    requires forall t | t in tokens :: IsToken(t)
    ensures Junctions(PathText(tokens)) == Ok(tokens)
    decreases |tokens|
  {
    if tokens != [] {
      TokensAreJunctions(tokens[1..]);
      TokenIsSegment(tokens[0], PathText(tokens[1..]));
      FirstAndRest(tokens);
    }
  }

  /** No three slashes in a row, and none at the end. */
  ghost predicate SlashSafe(s: string) {
    (forall k | 0 <= k < |s| :: !SeparatorAt(s, k)) && (s != [] ==> s[|s| - 1] != '/')
  }

  lemma {:induction false} TokenThenSafe(token: string, rest: string)
    requires IsToken(token) && SlashSafe(rest)
    ensures SlashSafe("/" + token + rest)
  {
    var s := "/" + token + rest;
    var n := 1 + |token|;
    assert s[n - 1] == token[|token| - 1];
    assert forall j | 2 <= j < n :: s[j] == token[j - 1];
    assert forall j | n <= j < |s| :: s[j] == rest[j - n];
    forall k | 0 <= k < |s|
      ensures !SeparatorAt(s, k)
    {
      if k >= n {
        assert SeparatorAt(s, k) ==> SeparatorAt(rest, k - n);
      }
    }
  }

  lemma {:induction false} PathIsSafe(tokens: seq<string>)
    requires forall t | t in tokens :: IsToken(t)
    ensures SlashSafe(PathText(tokens))
    decreases |tokens|
  {
    if tokens != [] {
      PathIsSafe(tokens[1..]);
      TokenThenSafe(tokens[0], PathText(tokens[1..]));
    }
  }

  lemma {:induction false} PhraseThenSafe(phrase: string, path: string)
    requires '/' !in phrase && SlashSafe(path)
    ensures SlashSafe(phrase + path)
  {
    var s := phrase + path;
    assert forall j | 0 <= j < |phrase| :: s[j] == phrase[j];
    forall k | |phrase| <= k < |s|
      ensures !SeparatorAt(s, k)
    {
      assert SeparatorAt(s, k) ==> SeparatorAt(path, k - |phrase|);
    }
  }

  /** The separator is found right after a safe head. */
  lemma {:induction false} SeparatorFound(head: string, password: Option<string>)
    requires SlashSafe(head)
    ensures FindSeparator(head + PasswordText(password)) == |head|
  {
    var s := head + PasswordText(password);
    assert password.Some? ==> SeparatorAt(s, |head|);
    forall k | 0 <= k < |head|
      ensures !SeparatorAt(s, k)
    {
      assert k + 2 < |head| ==> SeparatorAt(s, k) == SeparatorAt(head, k);
      assert k + 2 >= |head| ==> k <= |head| - 1 <= k + 2 && s[|head| - 1] == head[|head| - 1] != '/';
    }
  }

  /** What stands before the password is found, and the password. */
  lemma {:induction false} HeadIsFound(head: string, password: Option<string>)
    requires SlashSafe(head)
    ensures var input := head + PasswordText(password);
            var at := FindSeparator(input);
            && at == |head| && input[..at] == head
            && (if at < |input| then Some(input[at + |SEPARATOR|..]) else None) == password
  {
    SeparatorFound(head, password);
    if password.Some? {
      assert head + PasswordText(password) == head + SEPARATOR + password.value;
    }
  }

  /** The phrase ends at the first slash of the head, and the path follows. */
  lemma {:induction false} PhraseIsFound(phrase: string, tokens: seq<string>)
    requires '/' !in phrase && forall t | t in tokens :: IsToken(t)
    ensures var head := phrase + PathText(tokens);
            var slash := FirstOf(head, '/');
            head[..slash] == phrase && Junctions(head[slash..]) == Ok(tokens)
  {
    SlashEndsCode(phrase, PathText(tokens));
    TokensAreJunctions(tokens);
  }

  lemma {:induction false} HeadIsSafe(letter: char -> bool, uri: Suri)
    requires !letter('/') && WellFormed(letter, uri)
    ensures SlashSafe(uri.phrase + PathText(uri.junctions))
  {
    PathIsSafe(uri.junctions);
    PhraseThenSafe(uri.phrase, PathText(uri.junctions));
  }

  lemma {:induction false} SplitIsComplete(letter: char -> bool, uri: Suri)
    requires !letter('/') && WellFormed(letter, uri)
    ensures SplitSpec(letter, Join(uri)) == Ok(uri)
  {
    var head := uri.phrase + PathText(uri.junctions);
    assert IsValidPhrase(letter, uri.phrase);
    HeadIsSafe(letter, uri);
    HeadIsFound(head, uri.password);
    PhraseIsFound(uri.phrase, uri.junctions);
    assert Parts(letter, head, FirstOf(head, '/'), uri.password) == Ok(uri);
    assert Join(uri) == head + PasswordText(uri.password);
  }

  /** A text is accepted with exactly the parts it can be put together from: the language is
      the documented one and the split is unique. */
  lemma {:induction false} SplitIsExact(letter: char -> bool, input: string, uri: Suri)
    requires !letter('/')
    ensures SplitSpec(letter, input) == Ok(uri) <==> WellFormed(letter, uri) && Join(uri) == input
  {
    if SplitSpec(letter, input) == Ok(uri) {
      SplitIsSound(letter, input, uri);
    } else if WellFormed(letter, uri) {
      SplitIsComplete(letter, uri);
    }
  }
}
