/** Which texts parse as a permission set, and what they grant, without reference to how they
    are read. */
module ScopeLanguage {
  import opened Wrappers
  import opened Scopes
  import opened ScopeText
  import opened Text

  const LETTERS: set<string> := {"r", "w", "rw", "wr"}

  /** `entry` is the name of `k`, a colon and `letters`, in any case. */
  predicate Spells(entry: string, k: Scope, letters: string) {
    letters in LETTERS && EqIgnoreCase(NAMES[k] + ":" + letters, entry)
  }

  ghost predicate IsEntry(entry: string) {
    exists k: Scope, letters: string :: Spells(entry, k, letters)
  }

  predicate Allows(letters: string, access: Access) {
    (if access.Read? then 'r' else 'w') in letters
  }

  ghost predicate EntryGrants(entry: string, k: Scope, access: Access) {
    exists letters: string :: Spells(entry, k, letters) && Allows(letters, access)
  }

  // ---------- the letters ----------

  lemma {:induction false} LongAccess(access: string)
    requires |access| >= 3
    ensures ReadLetters(access, false, false).None?
  {
    assert access[1..][1..][0] == access[2];
    forall read, write | read || write
      ensures ReadLetters(access[1..], read, write).None?
    {
      assert ReadLetters(access[1..][1..], true, true).None?;
    }
  }

  lemma {:induction false} LettersAreSpelled(access: string) returns (letters: string)
    requires ReadLetters(access, false, false).Some?
    ensures letters in LETTERS && EqIgnoreCase(letters, access)
    ensures ReadLetters(access, false, false) == Some((Allows(letters, Read), Allows(letters, Write)))
  {
    if |access| >= 3 {
      LongAccess(access);
    }
    letters := seq(|access|, i requires 0 <= i < |access| => Lower(access[i]));
    if |access| == 1 {
      assert access[1..] == [];
      assert letters == "r" || letters == "w";
    } else {
      assert |access| == 2 && access[1..] == [access[1]] && access[1..][1..] == [];
      assert letters == "rw" || letters == "wr";
    }
    SpelledLettersAreRead(letters);
    CaseKeepsLetters(letters, access, false, false);
  }

  lemma {:induction false} SpelledLettersAreRead(letters: string)
    requires letters in LETTERS
    ensures ReadLetters(letters, false, false) == Some((Allows(letters, Read), Allows(letters, Write)))
  {
    assert "r"[1..] == [] && "w"[1..] == [] && "rw"[1..] == "w" && "wr"[1..] == "r";
  }

  // ---------- one entry ----------

  lemma {:induction false} ScopeIsNamed(name: string, from: nat)
    requires from <= COUNT && FindScope(name, from).Some?
    ensures EqIgnoreCase(NAMES[FindScope(name, from).value], name)
    decreases COUNT - from
  {
    if !EqIgnoreCase(NAMES[from], name) {
      ScopeIsNamed(name, from + 1);
    }
  }

  lemma {:induction false} EntryIsSpelled(entry: string) returns (k: Scope, letters: string)
    requires ParseEntry(entry).Ok?
    ensures Spells(entry, k, letters)
  {
    var colon := FirstOf(entry, ':');
    k := FindScope(entry[..colon], 0).value;
    ScopeIsNamed(entry[..colon], 0);
    letters := LettersAreSpelled(entry[colon + 1..]);
    var spelled := NAMES[k] + ":" + letters;
    forall i | 0 <= i < |entry|
      ensures Lower(spelled[i]) == Lower(entry[i])
    {
      if i < colon {
        assert entry[..colon][i] == entry[i];
      } else if i > colon {
        assert entry[colon + 1..][i - colon - 1] == entry[i];
      }
    }
  }

  lemma {:induction false} SpelledEntryIsRead(space: char -> bool, entry: string, k: Scope, letters: string)
    requires Blanks(space) && Spells(entry, k, letters)
    ensures ParseEntry(entry) == Ok(Grants(k, Allows(letters, Read), Allows(letters, Write)))
  {
    var name := NAMES[k];
    var spelled := name + ":" + letters;
    NamesAreLetters(k);
    ColonEndsName(name, letters);
    NameIsFound(k, 0);
    SpelledLettersAreRead(letters);
    assert spelled[..|name|] == name && spelled[|name| + 1..] == letters;
    CaseKeepsEntry(space, spelled, entry);
  }

  lemma {:induction false} GrantsMeaning(k: Scope, read: bool, write: bool, j: Scope, access: Access)
    ensures Grants(k, read, write) <= ALL
    ensures Contains(Grants(k, read, write), j, access) <==> j == k && if access.Read? then read else write
  {
  }

  lemma {:induction false} EntryMeaning(space: char -> bool, entry: string)
    requires Blanks(space)
    ensures ParseEntry(entry).Ok? <==> IsEntry(entry)
    ensures ParseEntry(entry).Ok? ==>
              var s := ParseEntry(entry).value;
              s <= ALL && forall k: Scope, access: Access :: Contains(s, k, access) <==> EntryGrants(entry, k, access)
    ensures ParseEntry(entry).Err? ==> forall k: Scope, access: Access :: !EntryGrants(entry, k, access)
  {
    if ParseEntry(entry).Ok? {
      var k, letters := EntryIsSpelled(entry);
      SpelledEntryIsRead(space, entry, k, letters);
      var s := ParseEntry(entry).value;
      GrantsMeaning(k, Allows(letters, Read), Allows(letters, Write), k, Read);
      forall j: Scope, access: Access
        ensures Contains(s, j, access) <==> EntryGrants(entry, j, access)
      {
        GrantsMeaning(k, Allows(letters, Read), Allows(letters, Write), j, access);
        if EntryGrants(entry, j, access) {
          var other :| Spells(entry, j, other) && Allows(other, access);
          SpelledEntryIsRead(space, entry, j, other);
          GrantsMeaning(j, Allows(other, Read), Allows(other, Write), j, access);
        }
      }
    } else {
      forall k: Scope, letters: string
        ensures !Spells(entry, k, letters)
      {
        if Spells(entry, k, letters) {
          SpelledEntryIsRead(space, entry, k, letters);
        }
      }
    }
  }

  // ---------- words and case ----------

  /** What the words of a text are: commas and blanks part it, and what they do not part is one
      word. */
  lemma {:induction false} WordsMeaning(space: char -> bool, a: string, c: char, b: string)
    ensures Words(space, []) == []
    ensures a != [] && ',' !in a && (forall x | x in a :: !space(x)) ==> Words(space, a) == [a]
    ensures c == ',' || space(c) ==> Words(space, a + [c] + b) == Words(space, a) + Words(space, b)
  {
    if a != [] && ',' !in a && forall x | x in a :: !space(x) {
      OneWord(space, a);
    }
    if c == ',' || space(c) {
      assert a + [c] + b == a + ([c] + b) && ([c] + b)[1..] == b;
      WordsSplit(space, a, [c] + b);
    }
  }

  /** The capital of a small letter, or the other way round. */
  predicate OtherCase(c: char, d: char) {
    ('a' <= c <= 'z' && d as int == c as int - 32) || ('a' <= d <= 'z' && c as int == d as int - 32)
  }

  lemma {:induction false} CaseMeaning(a: string, b: string)
    ensures EqIgnoreCase(a, b) <==> |a| == |b| && forall i | 0 <= i < |a| :: a[i] == b[i] || OtherCase(a[i], b[i])
  {
  }

  // ---------- the whole text ----------

  ghost predicate AllEntries(words: seq<string>) {
    forall w | w in words :: IsEntry(w)
  }

  ghost predicate SomeGrants(words: seq<string>, k: Scope, access: Access) {
    exists w | w in words :: EntryGrants(w, k, access)
  }

  /** `s` holds exactly the grants that the words spell. */
  ghost predicate HoldsGrants(s: ScopeSet, words: seq<string>) {
    s <= ALL && forall k: Scope, access: Access :: Contains(s, k, access) <==> SomeGrants(words, k, access)
  }

  lemma {:induction false} FirstWord(words: seq<string>)
    requires words != []
    ensures AllEntries(words) <==> IsEntry(words[0]) && AllEntries(words[1..])
    ensures forall k: Scope, access: Access ::
              SomeGrants(words, k, access) <==> EntryGrants(words[0], k, access) || SomeGrants(words[1..], k, access)
  {
    assert words == [words[0]] + words[1..];
  }

  lemma {:induction false} EntriesMeaning(space: char -> bool, entries: seq<string>)
    requires Blanks(space)
    ensures ParseEntries(entries).Ok? <==> AllEntries(entries)
    ensures ParseEntries(entries).Ok? ==> HoldsGrants(ParseEntries(entries).value, entries)
  {
    if entries != [] {
      EntryMeaning(space, entries[0]);
      EntriesMeaning(space, entries[1..]);
      FirstWord(entries);
    }
  }

  /** A text parses exactly when it spells out the empty set or each of its words is a known
      name, a colon and `r`, `w` or both; it then grants exactly what its words spell. */
  lemma {:induction false} ParsedIsExact(space: char -> bool, text: string)
    requires Blanks(space)
    ensures Parsed(space, text).Ok? <==> IsEmptyText(space, text) || AllEntries(Words(space, text))
    ensures Parsed(space, text).Ok? ==>
              if IsEmptyText(space, text) then Parsed(space, text).value == EMPTY
              else HoldsGrants(Parsed(space, text).value, Words(space, text))
  {
    ParsedByWords(space, text);
    EntriesMeaning(space, Words(space, text));
  }

  // ---------- what is wrong with a text ----------

  /** What the error says of the entry, in the entry's own words: no colon, no scope of that name
      before the first colon, or something other than `r`, `w` or both behind it. */
  ghost predicate Complaint(entry: string, e: ScopeError) {
    match e
    case MissingAccess(whole) => whole == entry && ':' !in entry
    case UnknownScope(name) =>
      name + ":" <= entry && ':' !in name && forall k: Scope :: !EqIgnoreCase(NAMES[k], name)
    case InvalidAccess(name, access) =>
      && entry == name + ":" + access && ':' !in name && (exists k: Scope :: EqIgnoreCase(NAMES[k], name))
      && forall letters | letters in LETTERS :: !EqIgnoreCase(letters, access)
  }

  lemma {:induction false} ScopeIsUnknown(name: string, from: nat)
    requires from <= COUNT && FindScope(name, from).None?
    ensures forall k: Scope | from <= k :: !EqIgnoreCase(NAMES[k], name)
    decreases COUNT - from
  {
    if from < COUNT {
      ScopeIsUnknown(name, from + 1);
    }
  }

  lemma {:induction false} LettersAreWrong(access: string)
    requires ReadLetters(access, false, false).None?
    ensures forall letters | letters in LETTERS :: !EqIgnoreCase(letters, access)
  {
    forall letters | letters in LETTERS
      ensures !EqIgnoreCase(letters, access)
    {
      SpelledLettersAreRead(letters);
      if EqIgnoreCase(letters, access) {
        CaseKeepsLetters(letters, access, false, false);
      }
    }
  }

  lemma {:induction false} EntryComplaint(entry: string)
    requires ParseEntry(entry).Err?
    ensures Complaint(entry, ParseEntry(entry).error)
  {
    var colon := FirstOf(entry, ':');
    if colon < |entry| {
      var name, access := entry[..colon], entry[colon + 1..];
      assert entry == name + ":" + access;
      if FindScope(name, 0).None? {
        ScopeIsUnknown(name, 0);
      } else {
        ScopeIsNamed(name, 0);
        LettersAreWrong(access);
      }
    } else {
      assert entry[..colon] == entry;
    }
  }

  /** The i-th word is the first that is no entry, and the error is about it. */
  ghost predicate FirstComplaint(words: seq<string>, i: nat, e: ScopeError) {
    && i < |words| && Complaint(words[i], e) && !IsEntry(words[i])
    && forall j | 0 <= j < i :: IsEntry(words[j])
  }

  lemma {:induction false} LaterComplaint(words: seq<string>, i: nat, e: ScopeError)
    requires words != [] && IsEntry(words[0]) && FirstComplaint(words[1..], i, e)
    ensures FirstComplaint(words, i + 1, e)
  {
    assert forall j | 0 < j <= i + 1 :: words[j] == words[1..][j - 1];
  }

  lemma {:induction false} EntriesComplaint(space: char -> bool, entries: seq<string>) returns (i: nat)
    requires Blanks(space) && ParseEntries(entries).Err?
    ensures FirstComplaint(entries, i, ParseEntries(entries).error)
  {
    EntryMeaning(space, entries[0]);
    if ParseEntry(entries[0]).Err? {
      EntryComplaint(entries[0]);
      i := 0;
    } else {
      i := EntriesComplaint(space, entries[1..]);
      LaterComplaint(entries, i, ParseEntries(entries).error);
      i := i + 1;
    }
  }

  /** A text that does not parse is refused for the first of its words that is no entry. */
  lemma {:induction false} RefusalNamesTheWord(space: char -> bool, text: string) returns (i: nat)
    requires Blanks(space) && Parsed(space, text).Err?
    ensures FirstComplaint(Words(space, text), i, Parsed(space, text).error)
  {
    ParsedByWords(space, text);
    i := EntriesComplaint(space, Words(space, text));
  }

  // ---------- the printed form ----------

  /** The scopes granted at all from `k` on, in order. */
  ghost predicate GrantedFrom(s: ScopeSet, k: nat, scopes: seq<Scope>) {
    && (forall i, j | 0 <= i < j < |scopes| :: scopes[i] < scopes[j])
    && forall j: Scope :: j in scopes <==> k <= j && (Contains(s, j, Read) || Contains(s, j, Access.Write))
  }

  ghost predicate EntryFor(s: ScopeSet, k: Scope, entry: string) {
    entry == NAMES[k] + (if !Contains(s, k, Read) then ":w" else if Contains(s, k, Access.Write) then ":rw" else ":r")
  }

  ghost predicate EntriesFor(s: ScopeSet, scopes: seq<Scope>, entries: seq<string>) {
    |entries| == |scopes| && forall i | 0 <= i < |scopes| :: EntryFor(s, scopes[i], entries[i])
  }

  lemma {:induction false} OneMoreScope(s: ScopeSet, k: Scope, later: seq<Scope>)
    requires Contains(s, k, Read) || Contains(s, k, Access.Write)
    requires GrantedFrom(s, k + 1, later)
    ensures GrantedFrom(s, k, [k] + later)
  {
    var scopes := [k] + later;
    forall i, j | 0 <= i < j < |scopes|
      ensures scopes[i] < scopes[j]
    {
      assert scopes[j] == later[j - 1] && later[j - 1] in later;
    }
  }

  lemma {:induction false} OneScopeLess(s: ScopeSet, k: Scope, later: seq<Scope>)
    requires !Contains(s, k, Read) && !Contains(s, k, Access.Write) && GrantedFrom(s, k + 1, later)
    ensures GrantedFrom(s, k, later)
  {
  }

  lemma {:induction false} OneMoreEntry(s: ScopeSet, k: Scope, later: seq<Scope>, entry: string, rest: seq<string>)
    requires EntryFor(s, k, entry) && EntriesFor(s, later, rest)
    ensures EntriesFor(s, [k] + later, [entry] + rest)
  {
  }

  lemma {:induction false} EntriesInOrder(s: ScopeSet, k: nat) returns (scopes: seq<Scope>)
    requires k <= COUNT
    ensures GrantedFrom(s, k, scopes) && EntriesFor(s, scopes, EntriesOf(s, k))
    decreases COUNT - k
  {
    if k == COUNT {
      return [];
    }
    var later := EntriesInOrder(s, k + 1);
    NextEntries(s, k);
    if Contains(s, k, Read) || Contains(s, k, Access.Write) {
      var entry := EntryText(k, Contains(s, k, Read), Contains(s, k, Access.Write));
      OneMoreScope(s, k, later);
      OneMoreEntry(s, k, later, entry, EntriesOf(s, k + 1));
      scopes := [k] + later;
    } else {
      OneScopeLess(s, k, later);
      scopes := later;
    }
  }

  /** One entry is printed as it is, and each further one behind a comma and a blank. */
  lemma {:induction false} EntriesAreJoined(entries: seq<string>, last: string)
    ensures JoinEntries(entries + [last]) == if entries == [] then last else JoinEntries(entries) + ", " + last
  {
    if entries == [] {
      assert entries + [last] == [last];
    } else {
      var rest := entries[1..];
      EntriesAreJoined(rest, last);
      assert (entries + [last])[0] == entries[0] && (entries + [last])[1..] == rest + [last];
      if rest != [] {
        assert entries[0] + ", " + (JoinEntries(rest) + ", " + last)
            == entries[0] + ", " + JoinEntries(rest) + ", " + last;
      }
    }
  }

  /** The printed form has an entry for each scope granted at all, in order of discriminant, with
      `rw`, `r` or `w`; only the empty set is spelled out. */
  lemma {:induction false} DisplayInOrder(s: ScopeSet) returns (scopes: seq<Scope>, entries: seq<string>)
    ensures GrantedFrom(s, 0, scopes) && EntriesFor(s, scopes, entries)
    ensures Displayed(s) == if s == {} then "(none)" else JoinEntries(entries)
  {
    scopes := EntriesInOrder(s, 0);
    entries := EntriesOf(s, 0);
  }

  // ---------- the wire contract ----------

  /** Each scope's name, and the words of its two grants. */
  const WIRE: seq<(string, nat, nat)> := [
    ("deployments", 0x1, 0x2), ("collaborations", 0x4, 0x8), ("secrets", 0x10, 0x20), ("volumes", 0x40, 0x80),
    ("datasets", 0x100, 0x200), ("networking", 0x400, 0x800), ("resources", 0x1000, 0x2000),
    ("organization", 0x4000, 0x8000), ("billing", 0x1_0000, 0x2_0000), ("communities", 0x4_0000, 0x8_0000)]

  lemma {:induction false} WireNames(k: Scope)
    ensures WIRE[k].0 == NAMES[k]
  {
  }

  lemma {:induction false} WireWords(k: Scope)
    ensures WIRE[k].1 == Pow2(2 * k) && WIRE[k].2 == Pow2(2 * k + 1)
  {
    assert Pow2(4) == 16 && Pow2(8) == 256 && Pow2(12) == 4096 && Pow2(16) == 65536 && Pow2(19) == 524288;
  }

  lemma {:induction false} OneGrant(space: char -> bool, k: Scope, read: bool, write: bool, letters: string)
    requires Blanks(space) && (read || write) && letters == ":" + Letters(read, write)
    ensures Parsed(space, NAMES[k] + letters) == Ok(Grants(k, read, write))
  {
    assert NAMES[k] + letters == EntryText(k, read, write);
    EntryRoundTrip(k, read, write);
    EntryIsWord(space, k, read, write);
    OneEntry(space, EntryText(k, read, write), Grants(k, read, write));
  }

  lemma {:induction false} SinglesAreGrants(k: Scope)
    ensures Grants(k, true, false) == Single(k, Read) && Grants(k, false, true) == Single(k, Access.Write)
    ensures Grants(k, true, true) == Single(k, Read) + Single(k, Access.Write)
  {
  }

  lemma {:induction false} NamedGrants(space: char -> bool, k: Scope, name: string)
    requires Blanks(space) && name == NAMES[k]
    ensures Parsed(space, name + ":r") == Ok(Single(k, Read))
    ensures Parsed(space, name + ":w") == Ok(Single(k, Access.Write))
    ensures Parsed(space, name + ":rw") == Ok(Single(k, Read) + Single(k, Access.Write))
  {
    SinglesAreGrants(k);
    OneGrant(space, k, true, false, ":r");
    OneGrant(space, k, false, true, ":w");
    OneGrant(space, k, true, true, ":rw");
  }

  lemma {:induction false} GrantWords(k: Scope)
    ensures ToBits(Single(k, Read)) == WIRE[k].1 && ToBits(Single(k, Access.Write)) == WIRE[k].2
  {
    WireWords(k);
    BitLayout(k, Read);
    BitLayout(k, Access.Write);
  }

  /** Each documented name, in small letters or capitals, stands for the documented words. */
  lemma {:induction false} NamesMeanWords(space: char -> bool, k: Scope, name: string, text: string)
    requires Blanks(space) && name == WIRE[k].0
    ensures ToBits(Single(k, Read)) == WIRE[k].1 && ToBits(Single(k, Access.Write)) == WIRE[k].2
    ensures EqIgnoreCase(name + ":r", text) ==> Parsed(space, text) == Ok(Single(k, Read))
    ensures EqIgnoreCase(name + ":w", text) ==> Parsed(space, text) == Ok(Single(k, Access.Write))
    ensures EqIgnoreCase(name + ":rw", text) ==>
              Parsed(space, text) == Ok(Single(k, Read) + Single(k, Access.Write))
  {
    GrantWords(k);
    WireNames(k);
    NamedGrants(space, k, name);
    forall letters | letters in {":r", ":w", ":rw"} && EqIgnoreCase(name + letters, text)
      ensures SameOutcome(Parsed(space, name + letters), Parsed(space, text))
    {
      CaseDoesNotMatter(space, name + letters, text);
    }
  }
}
