/** The legacy TOKENS variable: `;`-separated profiles, each `name:token:channel1,channel2`. */
module Tokens {
  import opened Text

  datatype TokenProfile = TokenProfile(name: string, token: string, defaults: seq<string>)

  datatype Error = BadFormat(entry: string) | EmptyField(entry: string)

  datatype Entry = Good(profile: TokenProfile) | Bad(error: Error)

  datatype Parsed = Parsed(profiles: seq<TokenProfile>) | Failed(error: Error)

  /** Each piece trimmed, blank ones left out. */
  function TrimmedNonBlank(parts: seq<string>): seq<string> {
    if parts == [] then []
    else (if Trim(parts[0]) == [] then [] else [Trim(parts[0])]) + TrimmedNonBlank(parts[1..])
  }

  function ParseCsv(raw: string): seq<string> {
    TrimmedNonBlank(Split(raw, ','))
  }

  function ParseEntry(entry: string): Entry {
    var parts := Split(entry, ':');
    if |parts| != 3 then Bad(BadFormat(entry))
    else if parts[0] == [] || parts[1] == [] then Bad(EmptyField(entry))
    else Good(TokenProfile(parts[0], parts[1], ParseCsv(parts[2])))
  }

  /** The first bad entry stops the parse. */
  function ParseEntries(entries: seq<string>): Parsed {
    if entries == [] then Parsed([])
    else
      var first := ParseEntry(entries[0]);
      if first.Bad? then Failed(first.error)
      else
        var rest := ParseEntries(entries[1..]);
        if rest.Failed? then rest else Parsed([first.profile] + rest.profiles)
  }

  function EntriesOf(raw: string): seq<string> {
    TrimmedNonBlank(Split(raw, ';'))
  }

  function ParseTokens(raw: string): Parsed {
    ParseEntries(EntriesOf(raw))
  }

  // ------------------------------------------------------------- printing

  function PrintProfile(p: TokenProfile): string {
    p.name + [':'] + (p.token + [':'] + Join(p.defaults, ','))
  }

  function PrintAll(ps: seq<TokenProfile>): seq<string> {
    seq(|ps|, i requires 0 <= i < |ps| => PrintProfile(ps[i]))
  }

  function PrintTokens(ps: seq<TokenProfile>): string {
    Join(PrintAll(ps), ';')
  }

  ghost predicate Plain(s: string) {
    ':' !in s && ';' !in s
  }

  ghost predicate WellFormed(p: TokenProfile) {
    && p.name != [] && Plain(p.name) && !IsSpace(p.name[0])
    && p.token != [] && Plain(p.token)
    && forall d :: d in p.defaults ==> d != [] && Trimmed(d) && Plain(d) && ',' !in d
  }

  lemma {:induction false} NothingToTrim(parts: seq<string>)
    requires forall p :: p in parts ==> p != [] && Trimmed(p)
    ensures TrimmedNonBlank(parts) == parts
    decreases |parts|
  {
    if parts != [] {
      forall p | p in parts[1..] ensures p != [] && Trimmed(p) {
        assert p in parts;
      }
      assert parts[0] in parts;
      TrimOfTrimmed(parts[0]);
      NothingToTrim(parts[1..]);
    }
  }

  lemma {:induction false} JoinKeepsOut(parts: seq<string>, sep: char, c: char)
    requires c != sep && forall p :: p in parts ==> c !in p
    ensures c !in Join(parts, sep)
    decreases |parts|
  {
    if |parts| > 1 {
      JoinKeepsOut(parts[1..], sep, c);
    } else if |parts| == 1 {
      assert parts[0] in parts;
    }
  }

  lemma CsvRoundTrip(ds: seq<string>)
    requires forall d :: d in ds ==> d != [] && Trimmed(d) && ',' !in d
    ensures ParseCsv(Join(ds, ',')) == ds
  {
    if ds == [] {
      assert Split([], ',') == [[]];
      assert TrimmedNonBlank([[]]) == TrimmedNonBlank([]);
    } else {
      SplitJoin(ds, ',');
      NothingToTrim(ds);
    }
  }

  /** A well-formed profile reads back from its own printed entry. */
  lemma EntryRoundTrip(p: TokenProfile)
    requires WellFormed(p)
    ensures ParseEntry(PrintProfile(p)) == Good(p)
  {
    var csv := Join(p.defaults, ',');
    JoinKeepsOut(p.defaults, ',', ':');
    SplitPlain(csv, ':');
    SplitAtFirst(p.token, ':', csv);
    SplitAtFirst(p.name, ':', p.token + [':'] + csv);
    CsvRoundTrip(p.defaults);
  }

  lemma {:induction false} JoinLast(parts: seq<string>, sep: char)
    requires parts != [] && parts[|parts| - 1] != []
    ensures var j := Join(parts, sep); var last := parts[|parts| - 1];
      j != [] && j[|j| - 1] == last[|last| - 1]
    decreases |parts|
  {
    if |parts| > 1 {
      JoinLast(parts[1..], sep);
    }
  }

  lemma PrintedEntryIsTrimmed(p: TokenProfile)
    requires WellFormed(p)
    ensures PrintProfile(p) != [] && Trimmed(PrintProfile(p)) && ';' !in PrintProfile(p)
  {
    var csv, s := Join(p.defaults, ','), PrintProfile(p);
    JoinKeepsOut(p.defaults, ',', ';');
    assert s[0] == p.name[0];
    if p.defaults == [] {
      assert s[|s| - 1] == ':';
    } else {
      var last := p.defaults[|p.defaults| - 1];
      assert last in p.defaults;
      JoinLast(p.defaults, ',');
      assert s[|s| - 1] == csv[|csv| - 1] == last[|last| - 1];
    }
  }

  lemma ParsedInFront(entries: seq<string>, p: TokenProfile, rest: seq<TokenProfile>)
    requires entries != [] && ParseEntry(entries[0]) == Good(p)
    requires ParseEntries(entries[1..]) == Parsed(rest)
    ensures ParseEntries(entries) == Parsed([p] + rest)
  {
  }

  lemma {:induction false} GoodEntriesParse(entries: seq<string>, ps: seq<TokenProfile>)
    requires |entries| == |ps| && forall i :: 0 <= i < |ps| ==> ParseEntry(entries[i]) == Good(ps[i])
    ensures ParseEntries(entries) == Parsed(ps)
    decreases |ps|
  {
    if ps != [] {
      GoodEntriesParse(entries[1..], ps[1..]);
      ParsedInFront(entries, ps[0], ps[1..]);
    }
  }

  /** Parsing undoes printing for every list of well-formed profiles. */
  lemma TokensRoundTrip(ps: seq<TokenProfile>)
    requires forall p :: p in ps ==> WellFormed(p)
    ensures ParseTokens(PrintTokens(ps)) == Parsed(ps)
  {
    var entries := PrintAll(ps);
    forall e | e in entries ensures e != [] && Trimmed(e) && ';' !in e {
      var i :| 0 <= i < |entries| && entries[i] == e;
      assert ps[i] in ps;
      PrintedEntryIsTrimmed(ps[i]);
    }
    if ps == [] {
      assert Split([], ';') == [[]];
      assert TrimmedNonBlank([[]]) == TrimmedNonBlank([]);
    } else {
      SplitJoin(entries, ';');
      NothingToTrim(entries);
      forall i | 0 <= i < |ps| ensures ParseEntry(entries[i]) == Good(ps[i]) {
        assert ps[i] in ps;
        EntryRoundTrip(ps[i]);
      }
      GoodEntriesParse(entries, ps);
    }
  }

  // ------------------------------------------------- failures and images

  /** Three parts, the first two not empty. */
  ghost predicate GoodEntry(entry: string) {
    |Split(entry, ':')| == 3 && Split(entry, ':')[0] != [] && Split(entry, ':')[1] != []
  }

  /** Entry i is the first bad one, and the error tells a wrong number of parts from an empty one. */
  ghost predicate IsFirstBad(entries: seq<string>, i: nat, error: Error)
    requires i < |entries|
  {
    && !GoodEntry(entries[i])
    && error == (if |Split(entries[i], ':')| != 3 then BadFormat(entries[i]) else EmptyField(entries[i]))
    && forall k :: 0 <= k < i ==> GoodEntry(entries[k])
  }

  /** The parse fails exactly when some non-blank entry is bad, and reports the first one. */
  lemma {:induction false} FailsExactlyOnBadEntry(entries: seq<string>)
    ensures ParseEntries(entries).Failed? <==> exists e :: e in entries && !GoodEntry(e)
    ensures ParseEntries(entries).Failed? ==>
      exists i :: 0 <= i < |entries| && IsFirstBad(entries, i, ParseEntries(entries).error)
    ensures ParseEntries(entries).Parsed? ==>
      && |ParseEntries(entries).profiles| == |entries|
      && forall i :: 0 <= i < |entries| ==> ParseEntry(entries[i]) == Good(ParseEntries(entries).profiles[i])
    decreases |entries|
  {
    if entries != [] {
      var rest := entries[1..];
      assert entries == [entries[0]] + rest;
      FailsExactlyOnBadEntry(rest);
      assert ParseEntry(entries[0]).Good? <==> GoodEntry(entries[0]);
      if !GoodEntry(entries[0]) {
        assert IsFirstBad(entries, 0, ParseEntries(entries).error);
      } else if ParseEntries(rest).Failed? {
        var i :| 0 <= i < |rest| && IsFirstBad(rest, i, ParseEntries(rest).error);
        forall k | 0 <= k < i + 1 ensures GoodEntry(entries[k]) {
          if k > 0 { assert entries[k] == rest[k - 1]; }
        }
        assert IsFirstBad(entries, i + 1, ParseEntries(entries).error);
      }
    }
  }

  lemma {:induction false} TrimmedNonBlankAre(parts: seq<string>, c: char)
    requires forall p :: p in parts ==> c !in p
    ensures forall t :: t in TrimmedNonBlank(parts) ==> t != [] && Trimmed(t) && c !in t
    decreases |parts|
  {
    if parts != [] {
      TrimmedNonBlankAre(parts[1..], c);
      var front, back := TrimSplits(parts[0]);
      forall x | x in Trim(parts[0]) ensures x in parts[0] {}
    }
  }

  /** Splitting and trimming bring in no new character. */
  lemma {:induction false} SplitKeepsOut(s: string, sep: char, c: char)
    requires c !in s
    ensures forall p :: p in Split(s, sep) ==> c !in p
    decreases |s|
  {
    if s != [] {
      SplitKeepsOut(s[1..], sep, c);
    }
  }

  lemma SplitHead(s: string, c: char)
    ensures Split(s, c)[0] != [] ==> s != [] && Split(s, c)[0][0] == s[0]
  {
  }

  lemma GoodEntryIsWellFormed(entry: string)
    requires entry != [] && Trimmed(entry) && ';' !in entry && GoodEntry(entry)
    ensures ParseEntry(entry).Good? && WellFormed(ParseEntry(entry).profile)
  {
    var parts := Split(entry, ':');
    SplitHasNoSeparator(entry, ':');
    SplitKeepsOut(entry, ':', ';');
    SplitHead(entry, ':');
    assert parts[0] in parts && parts[1] in parts && parts[2] in parts;
    SplitHasNoSeparator(parts[2], ',');
    SplitKeepsOut(parts[2], ',', ':');
    SplitKeepsOut(parts[2], ',', ';');
    TrimmedNonBlankAre(Split(parts[2], ','), ',');
    TrimmedNonBlankAre(Split(parts[2], ','), ':');
    TrimmedNonBlankAre(Split(parts[2], ','), ';');
  }

  /** Whatever parses is well formed, so it prints and parses back to itself. */
  lemma ParsedIsWellFormed(raw: string)
    requires ParseTokens(raw).Parsed?
    ensures forall p :: p in ParseTokens(raw).profiles ==> WellFormed(p)
    ensures ParseTokens(PrintTokens(ParseTokens(raw).profiles)) == ParseTokens(raw)
  {
    var entries, ps := EntriesOf(raw), ParseTokens(raw).profiles;
    FailsExactlyOnBadEntry(entries);
    SplitHasNoSeparator(raw, ';');
    TrimmedNonBlankAre(Split(raw, ';'), ';');
    forall p | p in ps ensures WellFormed(p) {
      var i :| 0 <= i < |ps| && ps[i] == p;
      assert entries[i] in entries;
      GoodEntryIsWellFormed(entries[i]);
    }
    TokensRoundTrip(ps);
  }

  // --------------------------------------------------- padding and blanks

  /** A piece between separators: an item with space around it, or nothing but space. */
  datatype Piece = Item(front: string, text: string, back: string) | Blank(pad: string)

  ghost predicate IsPiece(p: Piece) {
    match p
    case Item(front, text, back) => AllSpace(front) && AllSpace(back) && text != [] && Trimmed(text)
    case Blank(pad) => AllSpace(pad)
  }

  function TextOf(p: Piece): string {
    match p
    case Item(front, text, back) => front + text + back
    case Blank(pad) => pad
  }

  function TextsOf(pieces: seq<Piece>): seq<string> {
    seq(|pieces|, i requires 0 <= i < |pieces| => TextOf(pieces[i]))
  }

  /** The items, without the space and the blank pieces. */
  function ItemsOf(pieces: seq<Piece>): seq<string> {
    if pieces == [] then []
    else (if pieces[0].Item? then [pieces[0].text] else []) + ItemsOf(pieces[1..])
  }

  lemma PieceTrims(p: Piece)
    requires IsPiece(p)
    ensures Trim(TextOf(p)) == if p.Item? then p.text else []
  {
    match p
    case Item(front, text, back) => TrimPadded(front, text, back);
    case Blank(pad) =>
      assert pad == pad + [] + [];
      TrimPadded(pad, [], []);
  }

  lemma {:induction false} PiecesTrim(pieces: seq<Piece>)
    requires forall p :: p in pieces ==> IsPiece(p)
    ensures TrimmedNonBlank(TextsOf(pieces)) == ItemsOf(pieces)
    decreases |pieces|
  {
    if pieces != [] {
      assert pieces[0] in pieces;
      PieceTrims(pieces[0]);
      assert TextsOf(pieces)[1..] == TextsOf(pieces[1..]);
      PiecesTrim(pieces[1..]);
    }
  }

  /** Space around the items of a comma list and blank pieces among them never matter. */
  lemma PaddedCsv(pieces: seq<Piece>)
    requires pieces != [] && forall p :: p in pieces ==> IsPiece(p) && ',' !in TextOf(p)
    ensures ParseCsv(Join(TextsOf(pieces), ',')) == ItemsOf(pieces)
  {
    forall t | t in TextsOf(pieces) ensures ',' !in t {
      var i :| 0 <= i < |pieces| && TextsOf(pieces)[i] == t;
      assert pieces[i] in pieces;
    }
    SplitJoin(TextsOf(pieces), ',');
    PiecesTrim(pieces);
  }

  /** An entry keeps its name and token to the character; only the defaults are trimmed. */
  lemma PaddedEntry(name: string, token: string, pieces: seq<Piece>)
    requires name != [] && token != [] && ':' !in name && ':' !in token
    requires pieces != [] && forall p :: p in pieces ==> IsPiece(p) && ',' !in TextOf(p) && ':' !in TextOf(p)
    ensures ParseEntry(name + [':'] + (token + [':'] + Join(TextsOf(pieces), ',')))
         == Good(TokenProfile(name, token, ItemsOf(pieces)))
  {
    var csv := Join(TextsOf(pieces), ',');
    forall t | t in TextsOf(pieces) ensures ':' !in t {
      var i :| 0 <= i < |pieces| && TextsOf(pieces)[i] == t;
      assert pieces[i] in pieces;
    }
    JoinKeepsOut(TextsOf(pieces), ',', ':');
    SplitPlain(csv, ':');
    SplitAtFirst(token, ':', csv);
    SplitAtFirst(name, ':', token + [':'] + csv);
    PaddedCsv(pieces);
  }

  /** Space around the entries and blank entries among them never matter. */
  lemma PaddedTokens(pieces: seq<Piece>)
    requires pieces != [] && forall p :: p in pieces ==> IsPiece(p) && ';' !in TextOf(p)
    ensures ParseTokens(Join(TextsOf(pieces), ';')) == ParseEntries(ItemsOf(pieces))
  {
    forall t | t in TextsOf(pieces) ensures ';' !in t {
      var i :| 0 <= i < |pieces| && TextsOf(pieces)[i] == t;
      assert pieces[i] in pieces;
    }
    SplitJoin(TextsOf(pieces), ';');
    PiecesTrim(pieces);
  }
}
