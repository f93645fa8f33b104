/** The text form of a permission set: printing it, parsing it, and what survives both. */
module ScopeText {
  import opened Wrappers
  import opened Scopes
  import opened Text

  const EMPTY_TEXT := "(none)"

  /** Why a text does not parse, with the offending part as it was written. */
  datatype ScopeError =
    | MissingAccess(entry: string)
    | UnknownScope(name: string)
    | InvalidAccess(name: string, access: string)

  // ---------- printing ----------

  function Letters(read: bool, write: bool): string {
    (if read then "r" else []) + (if write then "w" else [])
  }

  function EntryText(k: Scope, read: bool, write: bool): string {
    NAMES[k] + ":" + Letters(read, write)
  }

  /** The entries of the scopes from `k` on that are granted at all. */
  function EntriesOf(s: ScopeSet, k: nat): seq<string>
    requires k <= COUNT
    decreases COUNT - k
  {
    if k == COUNT then []
    else
      var read, write := Contains(s, k, Read), Contains(s, k, Write);
      (if read || write then [EntryText(k, read, write)] else []) + EntriesOf(s, k + 1)
  }

  function JoinEntries(entries: seq<string>): string {
    if entries == [] then []
    else if |entries| == 1 then entries[0]
    else entries[0] + ", " + JoinEntries(entries[1..])
  }

  function Displayed(s: ScopeSet): string {
    if s == EMPTY then EMPTY_TEXT else JoinEntries(EntriesOf(s, 0))
  }

  /** What is still to print of a list, with a comma before all but the very first entry. */
  function Tail(first: bool, entries: seq<string>): string {
    if entries == [] then [] else if first then JoinEntries(entries) else ", " + JoinEntries(entries)
  }

  function Comma(first: bool): string {
    if first then [] else ", "
  }

  lemma {:induction false} JoinFirst(entry: string, rest: seq<string>)
    ensures JoinEntries([entry] + rest) == entry + Tail(false, rest)
  {
    assert ([entry] + rest)[1..] == rest;
    assert entry + [] == entry;
    assert rest != [] ==> entry + ", " + JoinEntries(rest) == entry + (", " + JoinEntries(rest));
  }

  lemma {:induction false} TailStep(text: string, first: bool, entry: string, rest: seq<string>)
    ensures text + Tail(first, [entry] + rest) == text + Comma(first) + entry + Tail(false, rest)
  {
    JoinFirst(entry, rest);
    assert first ==> [] + JoinEntries([entry] + rest) == JoinEntries([entry] + rest);
  }

  lemma {:induction false} NextEntries(s: ScopeSet, k: Scope)
    ensures var read, write := Contains(s, k, Read), Contains(s, k, Write);
            EntriesOf(s, k) == if read
              || write then [EntryText(k, read, write)] + EntriesOf(s, k + 1) else EntriesOf(s, k + 1)
  {
    assert [] + EntriesOf(s, k + 1) == EntriesOf(s, k + 1);
  }

  /** The text once the k-th scope has had its turn, and whether it is still empty. */
  function AfterScope(s: ScopeSet, k: Scope, text: string, first: bool): (string, bool) {
    var read, write := Contains(s, k, Read), Contains(s, k, Write);
    if read || write then (text + Comma(first) + EntryText(k, read, write), false) else (text, first)
  }

  lemma {:induction false} ScopeTurn(s: ScopeSet, k: Scope, text: string, first: bool)
    ensures var (next, still) := AfterScope(s, k, text, first);
            text + Tail(first, EntriesOf(s, k)) == next + Tail(still, EntriesOf(s, k + 1))
  {
    var read, write := Contains(s, k, Read), Contains(s, k, Write);
    NextEntries(s, k);
    if read || write {
      TailStep(text, first, EntryText(k, read, write), EntriesOf(s, k + 1));
    }
  }

  method Display(s: ScopeSet) returns (text: string)
    ensures text == Displayed(s)
  {
    if s == EMPTY {
      return EMPTY_TEXT;
    }
    text := [];
    var first := true;
    for k := 0 to COUNT
      invariant text + Tail(first, EntriesOf(s, k)) == Tail(true, EntriesOf(s, 0))
    {
      ScopeTurn(s, k, text, first);
      var read, write := Contains(s, k, Read), Contains(s, k, Write);
      if read || write {
        text := text + Comma(first) + EntryText(k, read, write);
        first := false;
      }
    }
  }

  // ---------- parsing ----------

  /** What the parser needs to know about the characters it treats as blank. */
  ghost predicate Blanks(space: char -> bool) {
    && space(' ') && !space(',') && !space(':') && !space('(') && !space(')')
    && forall c: char | 'a' <= c <= 'z' || 'A' <= c <= 'Z' :: !space(c)
  }

  predicate IsSeparator(space: char -> bool, c: char) {
    c == ',' || space(c)
  }

  function WordLength(space: char -> bool, s: string): (n: nat)
    ensures n <= |s| && (forall i | 0 <= i < n :: !IsSeparator(space, s[i])) && (n < |s| ==> IsSeparator(space, s[n]))
  {
    if s == [] || IsSeparator(space, s[0]) then 0 else 1 + WordLength(space, s[1..])
  }

  /** The maximal stretches without separators. */
  function Words(space: char -> bool, s: string): seq<string>
    decreases |s|
  {
    if s == [] then []
    else if IsSeparator(space, s[0]) then Words(space, s[1..])
    else [s[..WordLength(space, s)]] + Words(space, s[WordLength(space, s)..])
  }

  function Lower(c: char): char {
    if 'A' <= c <= 'Z' then c - 'A' + 'a' else c
  }

  predicate EqIgnoreCase(a: string, b: string) {
    |a| == |b| && forall i | 0 <= i < |a| :: Lower(a[i]) == Lower(b[i])
  }

  /** The first scope of that name, from `k` on. */
  function FindScope(name: string, k: nat): Option<Scope>
    requires k <= COUNT
    decreases COUNT - k
  {
    if k == COUNT then None else if EqIgnoreCase(NAMES[k], name) then Some(k) else FindScope(name, k + 1)
  }

  /** Each letter once, in either order and case. */
  function ReadLetters(access: string, read: bool, write: bool): Option<(bool, bool)> {
    if access == [] then (if read || write then Some((read, write)) else None)
    else if Lower(access[0]) == 'r' && !read then ReadLetters(access[1..], true, write)
    else if Lower(access[0]) == 'w' && !write then ReadLetters(access[1..], read, true)
    else None
  }

  function Grants(k: Scope, read: bool, write: bool): ScopeSet {
    (if read then Single(k, Read) else EMPTY) + (if write then Single(k, Write) else EMPTY)
  }

  function ParseEntry(entry: string): Result<ScopeSet, ScopeError> {
    var colon := FirstOf(entry, ':');
    if colon == |entry| then Err(MissingAccess(entry))
    else
      match FindScope(entry[..colon], 0)
      case None => Err(UnknownScope(entry[..colon]))
      case Some(k) =>
        match ReadLetters(entry[colon + 1..], false, false)
        case None => Err(InvalidAccess(entry[..colon], entry[colon + 1..]))
        case Some((read, write)) => Ok(Grants(k, read, write))
  }

  function Added(s: ScopeSet, r: Result<ScopeSet, ScopeError>): Result<ScopeSet, ScopeError> {
    match r
    case Err(e) => Err(e)
    case Ok(more) => Ok(s + more)
  }

  /** The union of the entries, or the first error among them. */
  function ParseEntries(entries: seq<string>): Result<ScopeSet, ScopeError> {
    if entries == [] then Ok(EMPTY)
    else
      match ParseEntry(entries[0])
      case Err(e) => Err(e)
      case Ok(s) => Added(s, ParseEntries(entries[1..]))
  }

  predicate IsEmptyText(space: char -> bool, text: string) {
    EqIgnoreCase(Trim(space, text), EMPTY_TEXT)
  }

  function Parsed(space: char -> bool, text: string): Result<ScopeSet, ScopeError> {
    if Trim(space, text) == []
      || IsEmptyText(space, text) then Ok(EMPTY) else ParseEntries(Words(space, Trim(space, text)))
  }

  method ParseLetters(access: string) returns (r: Option<(bool, bool)>)
    ensures r == ReadLetters(access, false, false)
  {
    var read, write := false, false;
    assert access[0..] == access;
    for i := 0 to |access|
      invariant ReadLetters(access[i..], read, write) == ReadLetters(access, false, false)
    {
      assert access[i..][1..] == access[i + 1..];
      var c := Lower(access[i]);
      if c == 'r' && !read {
        read := true;
      } else if c == 'w' && !write {
        write := true;
      } else {
        return None;
      }
    }
    if !read && !write {
      return None;
    }
    r := Some((read, write));
  }

  /** One entry, added to what is granted so far. */
  method AddEntry(held: ScopeSet, entry: string) returns (r: Result<ScopeSet, ScopeError>)
    ensures r == Added(held, ParseEntry(entry))
  {
    var colon := FirstOf(entry, ':');
    if colon == |entry| {
      return Err(MissingAccess(entry));
    }
    var scope := FindScope(entry[..colon], 0);
    if scope.None? {
      return Err(UnknownScope(entry[..colon]));
    }
    var letters := ParseLetters(entry[colon + 1..]);
    if letters.None? {
      return Err(InvalidAccess(entry[..colon], entry[colon + 1..]));
    }
    var (read, write) := letters.value;
    var s := held;
    if read {
      s := With(s, scope.value, Read);
    }
    if write {
      s := With(s, scope.value, Write);
    }
    AddGrants(held, scope.value, read, write);
    r := Ok(s);
  }

  method Parse(space: char -> bool, text: string) returns (r: Result<ScopeSet, ScopeError>)
    ensures r == Parsed(space, text)
  {
    var trimmed := Trim(space, text);
    if trimmed == [] || EqIgnoreCase(trimmed, EMPTY_TEXT) {
      return Ok(EMPTY);
    }
    var entries := Words(space, trimmed);
    var held := EMPTY;
    AddNothing(ParseEntries(entries));
    assert entries[0..] == entries;
    for i := 0 to |entries|
      invariant ParseEntries(entries) == Added(held, ParseEntries(entries[i..]))
    {
      EntriesStep(held, entries[i..]);
      assert entries[i..][1..] == entries[i + 1..];
      var added := AddEntry(held, entries[i]);
      if added.Err? {
        return added;
      }
      held := added.value;
    }
    AddEmpty(held);
    r := Ok(held);
  }

  lemma {:induction false} EntriesStep(held: ScopeSet, entries: seq<string>)
    requires entries != []
    ensures var added := Added(held, ParseEntry(entries[0]));
            Added(held, ParseEntries(entries)) == if added.Err? then added
              else Added(added.value, ParseEntries(entries[1..]))
  {
    if ParseEntry(entries[0]).Ok? {
      AddTwice(held, ParseEntry(entries[0]).value, ParseEntries(entries[1..]));
    }
  }

  lemma {:induction false} AddNothing(r: Result<ScopeSet, ScopeError>)
    ensures Added(EMPTY, r) == r
  {
    if r.Ok? {
      assert EMPTY + r.value == r.value;
    }
  }

  lemma {:induction false} AddEmpty(s: ScopeSet)
    ensures Added(s, Ok(EMPTY)) == Ok(s)
  {
    assert s + EMPTY == s;
  }

  lemma {:induction false} AddTwice(a: ScopeSet, b: ScopeSet, r: Result<ScopeSet, ScopeError>)
    ensures Added(a, Added(b, r)) == Added(a + b, r)
  {
    if r.Ok? {
      assert a + (b + r.value) == (a + b) + r.value;
    }
  }

  lemma {:induction false} AddGrants(s: ScopeSet, k: Scope, read: bool, write: bool)
    ensures var withRead := if read then With(s, k, Read) else s;
            (if write then With(withRead, k, Write) else withRead) == s + Grants(k, read, write)
  {
  }

  // ---------- words ----------

  lemma {:induction false} WordStops(space: char -> bool, word: string, rest: string)
    requires (forall i | 0 <= i < |word| :: !IsSeparator(space, word[i])) && (rest == [] || IsSeparator(space, rest[0]))
    ensures WordLength(space, word + rest) == |word|
  {
    if word == [] {
      assert word + rest == rest;
    } else {
      assert (word + rest)[1..] == word[1..] + rest;
      WordStops(space, word[1..], rest);
    }
  }

  /** A separator splits the words of a text. */
  lemma {:induction false} WordsSplit(space: char -> bool, a: string, b: string)
    requires b == [] || IsSeparator(space, b[0])
    ensures Words(space, a + b) == Words(space, a) + Words(space, b)
    decreases |a|
  {
    if a == [] {
      assert a + b == b;
    } else if IsSeparator(space, a[0]) {
      assert (a + b)[1..] == a[1..] + b;
      WordsSplit(space, a[1..], b);
    } else {
      var n := WordLength(space, a);
      WordsSplit(space, a[n..], b);
      FirstWord(space, a, b);
      assert [a[..n]] + (Words(space, a[n..]) + Words(space, b)) == [a[..n]] + Words(space, a[n..]) + Words(space, b);
    }
  }

  /** The first word of a text is that of the text with more behind a separator. */
  lemma {:induction false} FirstWord(space: char -> bool, a: string, b: string)
    requires a != [] && !IsSeparator(space, a[0]) && (b == [] || IsSeparator(space, b[0]))
    ensures var n := WordLength(space, a); Words(space, a + b) == [a[..n]] + Words(space, a[n..] + b)
  {
    var n := WordLength(space, a);
    WordPrefix(a, b, n);
    WordStops(space, a[..n], a[n..] + b);
  }

  lemma {:induction false} WordPrefix(a: string, b: string, n: nat)
    requires n <= |a|
    ensures a + b == a[..n] + (a[n..] + b) && (a + b)[..n] == a[..n] && (a + b)[n..] == a[n..] + b
  {
  }

  lemma {:induction false} SeparatorsAddNoWords(space: char -> bool, s: string)
    requires forall i | 0 <= i < |s| :: IsSeparator(space, s[i])
    ensures Words(space, s) == []
    decreases |s|
  {
    if s != [] {
      SeparatorsAddNoWords(space, s[1..]);
    }
  }

  lemma {:induction false} TrimKeepsWords(space: char -> bool, s: string)
    ensures Words(space, Trim(space, s)) == Words(space, s)
  {
    StartKeepsWords(space, s);
    EndKeepsWords(space, TrimStart(space, s));
  }

  lemma {:induction false} StartKeepsWords(space: char -> bool, s: string)
    ensures Words(space, TrimStart(space, s)) == Words(space, s)
  {
    if s != [] && space(s[0]) {
      StartKeepsWords(space, s[1..]);
    }
  }

  lemma {:induction false} EndKeepsWords(space: char -> bool, s: string)
    ensures Words(space, TrimEnd(space, s)) == Words(space, s)
  {
    if s != [] && space(s[|s| - 1]) {
      var last := s[|s| - 1..];
      EndKeepsWords(space, s[..|s| - 1]);
      assert s == s[..|s| - 1] + last;
      WordsSplit(space, s[..|s| - 1], last);
      SeparatorsAddNoWords(space, last);
    }
  }

  /** Apart from the spelled-out empty set, parsing is a matter of the words alone. */
  lemma {:induction false} ParsedByWords(space: char -> bool, text: string)
    ensures Parsed(space, text) == if IsEmptyText(space, text) then Ok(EMPTY) else ParseEntries(Words(space, text))
  {
    TrimKeepsWords(space, text);
  }

  // ---------- union ----------

  lemma {:induction false} EntriesConcat(a: seq<string>, b: seq<string>)
    ensures ParseEntries(a).Ok? && ParseEntries(b).Ok? ==>
              ParseEntries(a + b) == Ok(ParseEntries(a).value + ParseEntries(b).value)
    ensures ParseEntries(a).Err? ==> ParseEntries(a + b) == ParseEntries(a)
    ensures ParseEntries(a).Ok? && ParseEntries(b).Err? ==> ParseEntries(a + b) == ParseEntries(b)
    decreases |a|
  {
    if a == [] {
      assert a + b == b;
      AddNothing(ParseEntries(b));
    } else {
      assert (a + b)[1..] == a[1..] + b;
      EntriesConcat(a[1..], b);
      if ParseEntry(a[0]).Ok? {
        AddTwice(ParseEntry(a[0]).value, if ParseEntries(a[1..]).Ok? then ParseEntries(a[1..]).value
          else EMPTY, ParseEntries(b));
      }
    }
  }

  /** The spelled-out empty set is one word without a colon. */
  lemma {:induction false} EmptyTextIsNoEntry(space: char -> bool, text: string)
    requires Blanks(space) && IsEmptyText(space, text)
    ensures ParseEntries(Words(space, text)) == Err(MissingAccess(Trim(space, text)))
  {
    var t := Trim(space, text);
    TrimKeepsWords(space, text);
    forall i | 0 <= i < |t|
      ensures !IsSeparator(space, t[i]) && t[i] != ':'
    {
      assert Lower(t[i]) == EMPTY_TEXT[i];
    }
    assert t + [] == t;
    WordStops(space, t, []);
    assert Words(space, t) == [t] + Words(space, t[|t|..]);
    assert FirstOf(t, ':') == |t|;
  }

  /** A comma between two texts that parse means the union, unless one of them spells out
      the empty set: that spelling is accepted only as the whole text. */
  lemma {:induction false} CommaMeansUnion(space: char -> bool, a: string, b: string)
    requires Blanks(space) && Parsed(space, a).Ok? && Parsed(space, b).Ok?
    ensures Parsed(space, a + "," + b) == Ok(Parsed(space, a).value + Parsed(space, b).value)
            <==> !IsEmptyText(space, a) && !IsEmptyText(space, b)
    ensures IsEmptyText(space, a) ==> Parsed(space, a + "," + b) == Err(MissingAccess(Trim(space, a)))
    ensures !IsEmptyText(space, a) && IsEmptyText(space, b) ==>
              Parsed(space, a + "," + b) == Err(MissingAccess(Trim(space, b)))
  {
    var text := a + "," + b;
    ParsedByWords(space, a);
    ParsedByWords(space, b);
    ParsedByWords(space, text);
    CommaSplitsWords(space, a, b);
    EntriesConcat(Words(space, a), Words(space, b));
    if IsEmptyText(space, a) {
      EmptyTextIsNoEntry(space, a);
    }
    if IsEmptyText(space, b) {
      EmptyTextIsNoEntry(space, b);
    }
    CommaIsNotEmptyText(space, a, b);
  }

  lemma {:induction false} CommaSplitsWords(space: char -> bool, a: string, b: string)
    ensures Words(space, a + "," + b) == Words(space, a) + Words(space, b)
  {
    var tail := "," + b;
    assert a + "," + b == a + tail;
    WordsSplit(space, a, tail);
    assert tail[1..] == b;
  }

  /** Trimming leaves every comma in place. */
  lemma {:induction false} TrimKeepsCommas(space: char -> bool, s: string)
    requires !space(',') && ',' in s
    ensures ',' in Trim(space, s)
  {
    StartKeepsCommas(space, s);
    EndKeepsCommas(space, TrimStart(space, s));
  }

  lemma {:induction false} StartKeepsCommas(space: char -> bool, s: string)
    requires !space(',') && ',' in s
    ensures ',' in TrimStart(space, s)
  {
    if s != [] && space(s[0]) {
      assert s == [s[0]] + s[1..];
      StartKeepsCommas(space, s[1..]);
    }
  }

  lemma {:induction false} EndKeepsCommas(space: char -> bool, s: string)
    requires !space(',') && ',' in s
    ensures ',' in TrimEnd(space, s)
  {
    if s != [] && space(s[|s| - 1]) {
      assert s == s[..|s| - 1] + [s[|s| - 1]];
      EndKeepsCommas(space, s[..|s| - 1]);
    }
  }

  lemma {:induction false} CommaIsNotEmptyText(space: char -> bool, a: string, b: string)
    requires Blanks(space)
    ensures !IsEmptyText(space, a + "," + b)
  {
    var text := a + "," + b;
    assert text[|a|] == ',';
    TrimKeepsCommas(space, text);
    var t := Trim(space, text);
    if EqIgnoreCase(t, EMPTY_TEXT) {
      assert false;
    }
  }

  /** So neither order nor repetition matters. */
  lemma {:induction false} OrderAndRepetitionDoNotMatter(space: char -> bool, a: string, b: string)
    requires Blanks(space) && Parsed(space, a).Ok? && Parsed(space, b).Ok?
    requires !IsEmptyText(space, a) && !IsEmptyText(space, b)
    ensures Parsed(space, a + "," + b) == Parsed(space, b + "," + a)
    ensures Parsed(space, a + "," + a) == Parsed(space, a)
  {
    CommaMeansUnion(space, a, b);
    CommaMeansUnion(space, b, a);
    CommaMeansUnion(space, a, a);
    UnionLaws(Parsed(space, a).value, Parsed(space, b).value);
  }

  lemma {:induction false} UnionLaws(s: ScopeSet, t: ScopeSet)
    ensures s + t == t + s && s + s == s
  {
  }

  // ---------- round trip ----------

  predicate IsLetters(s: string) {
    forall i | 0 <= i < |s| :: 'a' <= s[i] <= 'z'
  }

  lemma {:induction false} NamesAreLetters(k: Scope)
    ensures IsLetters(NAMES[k]) && NAMES[k] != []
  {
  }

  /** No two scopes have names that differ only in case: lengths or first letters tell them apart. */
  lemma {:induction false} NamesDiffer(j: Scope, k: Scope)
    requires EqIgnoreCase(NAMES[j], NAMES[k])
    ensures j == k
  {
    assert |NAMES[j]| == |NAMES[k]| && Lower(NAMES[j][0]) == Lower(NAMES[k][0]);
  }

  lemma {:induction false} NameIsFound(k: Scope, from: nat)
    requires from <= k
    ensures FindScope(NAMES[k], from) == Some(k)
    decreases k - from
  {
    if from < k {
      if EqIgnoreCase(NAMES[from], NAMES[k]) {
        NamesDiffer(from, k);
      }
      NameIsFound(k, from + 1);
    }
  }

  lemma {:induction false} ColonEndsName(name: string, rest: string)
    requires IsLetters(name)
    ensures FirstOf(name + ":" + rest, ':') == |name|
  {
    if name != [] {
      assert (name + ":" + rest)[1..] == name[1..] + ":" + rest;
      ColonEndsName(name[1..], rest);
    }
  }

  lemma {:induction false} LettersAreRead(read: bool, write: bool)
    requires read || write
    ensures ReadLetters(Letters(read, write), false, false) == Some((read, write))
  {
    assert "rw"[1..] == "w" && "r"[1..] == [] && "w"[1..] == [];
    assert Letters(true, true) == "rw" && Letters(true, false) == "r" && Letters(false, true) == "w";
  }

  lemma {:induction false} EntryRoundTrip(k: Scope, read: bool, write: bool)
    requires read || write
    ensures ParseEntry(EntryText(k, read, write)) == Ok(Grants(k, read, write))
  {
    var name, letters := NAMES[k], Letters(read, write);
    var entry := name + ":" + letters;
    NamesAreLetters(k);
    ColonEndsName(name, letters);
    NameIsFound(k, 0);
    LettersAreRead(read, write);
    assert entry[..|name|] == name && entry[|name| + 1..] == letters;
  }

  ghost predicate IsWord(space: char -> bool, word: string) {
    word != [] && forall i | 0 <= i < |word| :: !IsSeparator(space, word[i])
  }

  lemma {:induction false} EntryIsWord(space: char -> bool, k: Scope, read: bool, write: bool)
    requires Blanks(space)
    ensures IsWord(space, EntryText(k, read, write)) && EntryText(k, read, write)[0] != '('
  {
    var name, letters := NAMES[k], Letters(read, write);
    var entry := name + ":" + letters;
    NamesAreLetters(k);
    forall i | 0 <= i < |entry|
      ensures !IsSeparator(space, entry[i])
    {
      assert entry[i] == if i < |name| then name[i] else if i == |name| then ':' else letters[i - |name| - 1];
    }
  }

  /** The defined grants of the scopes from `k` on. */
  function GrantsFrom(s: ScopeSet, k: nat): ScopeSet {
    set b | b in s && 2 * k <= b < 2 * COUNT
  }

  lemma {:induction false} GrantsStep(s: ScopeSet, k: Scope)
    ensures GrantsFrom(s, k) == Grants(k, Contains(s, k, Read), Contains(s, k, Write)) + GrantsFrom(s, k + 1)
  {
    var here := Grants(k, Contains(s, k, Read), Contains(s, k, Write));
    forall b: nat
      ensures b in GrantsFrom(s, k) <==> b in here + GrantsFrom(s, k + 1)
    {
      assert Position(k, Read) == 2 * k && Position(k, Write) == 2 * k + 1;
      assert b in here <==> b in s && (b == 2 * k || b == 2 * k + 1);
    }
  }

  /** The grants of the scopes from `k` on come back from their entries. */
  lemma {:induction false} EntriesRoundTrip(s: ScopeSet, k: nat)
    requires k <= COUNT
    ensures ParseEntries(EntriesOf(s, k)) == Ok(GrantsFrom(s, k))
    decreases COUNT - k
  {
    if k == COUNT {
      assert GrantsFrom(s, k) == EMPTY;
    } else {
      EntriesRoundTrip(s, k + 1);
      NextEntries(s, k);
      GrantsStep(s, k);
      EntryThenRest(s, k, EntriesOf(s, k + 1), GrantsFrom(s, k + 1));
    }
  }

  lemma {:induction false} EntryThenRest(s: ScopeSet, k: Scope, rest: seq<string>, grants: ScopeSet)
    requires ParseEntries(rest) == Ok(grants)
    ensures var read, write := Contains(s, k, Read), Contains(s, k, Write);
            ParseEntries(if read || write then [EntryText(k, read, write)] + rest else rest) ==
              Ok(Grants(k, read, write) + grants)
  {
    var read, write := Contains(s, k, Read), Contains(s, k, Write);
    if read || write {
      EntryRoundTrip(k, read, write);
      var entries := [EntryText(k, read, write)] + rest;
      assert entries[1..] == rest;
    } else {
      assert Grants(k, read, write) + grants == grants;
    }
  }

  lemma {:induction false} EntriesAreWords(space: char -> bool, s: ScopeSet, k: nat)
    requires k <= COUNT && Blanks(space)
    ensures forall e | e in EntriesOf(s, k) :: IsWord(space, e) && e[0] != '('
    decreases COUNT - k
  {
    if k < COUNT {
      EntriesAreWords(space, s, k + 1);
      NextEntries(s, k);
      EntryIsWord(space, k, Contains(s, k, Read), Contains(s, k, Write));
    }
  }

  lemma {:induction false} OneWord(space: char -> bool, word: string)
    requires IsWord(space, word)
    ensures Words(space, word) == [word]
  {
    assert word + [] == word;
    WordStops(space, word, []);
    assert Words(space, word) == [word[..|word|]] + Words(space, word[|word|..]);
  }

  lemma {:induction false} JoinedWords(space: char -> bool, words: seq<string>)
    requires Blanks(space) && forall w | w in words :: IsWord(space, w)
    ensures Words(space, JoinEntries(words)) == words
    decreases |words|
  {
    if |words| == 1 {
      OneWord(space, words[0]);
    } else if |words| > 1 {
      var tail := ", " + JoinEntries(words[1..]);
      assert JoinEntries(words) == words[0] + tail;
      WordsSplit(space, words[0], tail);
      OneWord(space, words[0]);
      assert tail[1..][1..] == JoinEntries(words[1..]);
      JoinedWords(space, words[1..]);
      assert words == [words[0]] + words[1..];
    }
  }

  lemma {:induction false} JoinStarts(words: seq<string>)
    requires words != [] && words[0] != []
    ensures JoinEntries(words) != [] && JoinEntries(words)[0] == words[0][0]
  {
  }

  lemma {:induction false} TrimKeepsFirst(space: char -> bool, s: string)
    requires s != [] && !space(s[0])
    ensures Trim(space, s) != [] && Trim(space, s)[0] == s[0]
  {
  }

  /** Printing and parsing back keeps every defined grant; undefined bits are dropped. */
  lemma {:induction false} DisplayParseRoundTrip(space: char -> bool, s: ScopeSet)
    requires Blanks(space)
    ensures Parsed(space, Displayed(s)) == Ok(s * ALL)
  {
    if s == EMPTY {
      assert s * ALL == EMPTY;
      assert Trim(space, EMPTY_TEXT) == EMPTY_TEXT;
    } else {
      var entries := EntriesOf(s, 0);
      EntriesRoundTrip(s, 0);
      EntriesAreWords(space, s, 0);
      assert GrantsFrom(s, 0) == s * ALL;
      JoinedWords(space, entries);
      ParsedByWords(space, Displayed(s));
      if entries == [] {
        assert Trim(space, []) == [];
      } else {
        assert entries[0] in entries;
        JoinStarts(entries);
        TrimKeepsFirst(space, Displayed(s));
        NotEmptyText(space, Displayed(s));
      }
    }
  }

  lemma {:induction false} NotEmptyText(space: char -> bool, text: string)
    requires Trim(space, text) != [] && Trim(space, text)[0] != '('
    ensures !IsEmptyText(space, text)
  {
    assert EMPTY_TEXT[0] == '(' && forall c | Lower(c) == '(' :: c == '(';
  }

  // ---------- case ----------

  ghost predicate AllEqIgnoreCase(a: seq<string>, b: seq<string>) {
    |a| == |b| && forall i | 0 <= i < |a| :: EqIgnoreCase(a[i], b[i])
  }

  lemma {:induction false} CaseKeepsTrim(space: char -> bool, a: string, b: string)
    requires Blanks(space) && EqIgnoreCase(a, b)
    ensures EqIgnoreCase(Trim(space, a), Trim(space, b))
  {
    CaseKeepsTrimStart(space, a, b);
    CaseKeepsTrimEnd(space, TrimStart(space, a), TrimStart(space, b));
  }

  lemma {:induction false} CaseKeepsTrimStart(space: char -> bool, a: string, b: string)
    requires Blanks(space) && EqIgnoreCase(a, b)
    ensures EqIgnoreCase(TrimStart(space, a), TrimStart(space, b))
  {
    if a != [] {
      if space(a[0]) {
        CaseKeepsTrimStart(space, a[1..], b[1..]);
      }
    }
  }

  lemma {:induction false} CaseKeepsTrimEnd(space: char -> bool, a: string, b: string)
    requires Blanks(space) && EqIgnoreCase(a, b)
    ensures EqIgnoreCase(TrimEnd(space, a), TrimEnd(space, b))
  {
    if a != [] {
      if space(a[|a| - 1]) {
        CaseKeepsTrimEnd(space, a[..|a| - 1], b[..|b| - 1]);
      }
    }
  }

  lemma {:induction false} CaseKeepsWordLength(space: char -> bool, a: string, b: string)
    requires Blanks(space) && EqIgnoreCase(a, b)
    ensures WordLength(space, a) == WordLength(space, b)
  {
    if a != [] {
      if !IsSeparator(space, a[0]) {
        CaseKeepsWordLength(space, a[1..], b[1..]);
      }
    }
  }

  lemma {:induction false} CaseKeepsWords(space: char -> bool, a: string, b: string)
    requires Blanks(space) && EqIgnoreCase(a, b)
    ensures AllEqIgnoreCase(Words(space, a), Words(space, b))
    decreases |a|
  {
    if a != [] {
      if IsSeparator(space, a[0]) {
        CaseKeepsWords(space, a[1..], b[1..]);
      } else {
        CaseKeepsWordLength(space, a, b);
        var n := WordLength(space, a);
        CaseKeepsWords(space, a[n..], b[n..]);
      }
    }
  }

  lemma {:induction false} CaseKeepsColon(space: char -> bool, a: string, b: string)
    requires Blanks(space) && EqIgnoreCase(a, b)
    ensures FirstOf(a, ':') == FirstOf(b, ':')
  {
    if a != [] {
      CaseKeepsColon(space, a[1..], b[1..]);
    }
  }

  lemma {:induction false} CaseKeepsScope(a: string, b: string, k: nat)
    requires EqIgnoreCase(a, b) && k <= COUNT
    ensures FindScope(a, k) == FindScope(b, k)
    decreases COUNT - k
  {
    if k < COUNT {
      CaseKeepsScope(a, b, k + 1);
    }
  }

  lemma {:induction false} CaseKeepsLetters(a: string, b: string, read: bool, write: bool)
    requires EqIgnoreCase(a, b)
    ensures ReadLetters(a, read, write) == ReadLetters(b, read, write)
    decreases |a|
  {
    if a != [] {
      CaseKeepsLetters(a[1..], b[1..], true, write);
      CaseKeepsLetters(a[1..], b[1..], read, true);
    }
  }

  /** The same kind of error about the same text, up to case. */
  predicate SameError(e: ScopeError, f: ScopeError) {
    match (e, f)
    case (MissingAccess(a), MissingAccess(b)) => EqIgnoreCase(a, b)
    case (UnknownScope(a), UnknownScope(b)) => EqIgnoreCase(a, b)
    case (InvalidAccess(a, x), InvalidAccess(b, y)) => EqIgnoreCase(a, b) && EqIgnoreCase(x, y)
    case _ => false
  }

  /** The same set, or the same error up to the case of the text it quotes. */
  predicate SameOutcome(r: Result<ScopeSet, ScopeError>, q: Result<ScopeSet, ScopeError>) {
    match (r, q)
    case (Ok(s), Ok(t)) => s == t
    case (Err(e), Err(f)) => SameError(e, f)
    case _ => false
  }

  lemma {:induction false} CaseKeepsEntry(space: char -> bool, a: string, b: string)
    requires Blanks(space) && EqIgnoreCase(a, b)
    ensures SameOutcome(ParseEntry(a), ParseEntry(b))
  {
    CaseKeepsColon(space, a, b);
    var colon := FirstOf(a, ':');
    CaseKeepsScope(a[..colon], b[..colon], 0);
    if colon < |a| {
      CaseKeepsLetters(a[colon + 1..], b[colon + 1..], false, false);
    }
  }

  lemma {:induction false} CaseKeepsEntries(space: char -> bool, a: seq<string>, b: seq<string>)
    requires Blanks(space) && AllEqIgnoreCase(a, b)
    ensures SameOutcome(ParseEntries(a), ParseEntries(b))
  {
    if a != [] {
      CaseKeepsEntry(space, a[0], b[0]);
      CaseKeepsEntries(space, a[1..], b[1..]);
    }
  }

  /** Texts that differ only in ASCII case parse to the same set, or fail with the same error
      about the same part of the text. */
  lemma {:induction false} CaseDoesNotMatter(space: char -> bool, a: string, b: string)
    requires Blanks(space) && EqIgnoreCase(a, b)
    ensures SameOutcome(Parsed(space, a), Parsed(space, b))
  {
    var s, t := Trim(space, a), Trim(space, b);
    CaseKeepsTrim(space, a, b);
    CaseKeepsWords(space, s, t);
    CaseKeepsEntries(space, Words(space, s), Words(space, t));
  }

  /** The spelling of the empty set is not an entry: next to one it does not parse. */
  lemma {:induction false} EmptyTextExample(space: char -> bool)
    requires Blanks(space)
    ensures Parsed(space, EMPTY_TEXT) == Ok(EMPTY) && Parsed(space, "secrets:r") == Ok(Single(2, Read))
    ensures Parsed(space, EMPTY_TEXT + "," + "secrets:r") == Err(MissingAccess(EMPTY_TEXT))
  {
    EmptyTextIsTrimmed(space);
    SecretsReadText();
    EntryRoundTrip(2, true, false);
    EntryIsWord(space, 2, true, false);
    OneEntry(space, "secrets:r", Single(2, Read));
    CommaMeansUnion(space, EMPTY_TEXT, "secrets:r");
  }

  lemma {:induction false} EmptyTextIsTrimmed(space: char -> bool)
    requires Blanks(space)
    ensures Trim(space, EMPTY_TEXT) == EMPTY_TEXT && IsEmptyText(space, EMPTY_TEXT)
  {
    assert TrimStart(space, EMPTY_TEXT) == EMPTY_TEXT && TrimEnd(space, EMPTY_TEXT) == EMPTY_TEXT;
  }

  lemma {:induction false} SecretsReadText()
    ensures EntryText(2, true, false) == "secrets:r" && Grants(2, true, false) == Single(2, Read)
  {
  }

  /** A text of one entry grants what the entry grants. */
  lemma {:induction false} OneEntry(space: char -> bool, entry: string, s: ScopeSet)
    requires IsWord(space, entry) && !space(entry[0]) && entry[0] != '(' && ParseEntry(entry) == Ok(s)
    ensures Parsed(space, entry) == Ok(s)
  {
    OneWord(space, entry);
    ParsedByWords(space, entry);
    TrimKeepsFirst(space, entry);
    NotEmptyText(space, entry);
    assert [entry][1..] == [];
    AddEmpty(s);
  }
}
