/**
 * The voice list printed by `say -v '?'`: one `name  xx_XX  # sample` line a voice, read
 * with a lazy pattern for the name.
 */
module Voices {
  import opened Options
  import opened Text

  datatype Voice = Voice(name: string, locale: string, sample: string)

  predicate IsLower(c: char) { 'a' <= c <= 'z' }

  predicate IsRegionChar(c: char) { 'A' <= c <= 'Z' || 'a' <= c <= 'z' || '0' <= c <= '9' }

  /** A language of u letters, an underscore, and a region of two or three characters. */
  predicate LocaleAt(s: string, u: nat) {
    && u + 3 <= |s| <= u + 4 && s[u] == '_'
    && (forall i :: 0 <= i < u ==> IsLower(s[i]))
    && (forall i :: u < i < |s| ==> IsRegionChar(s[i]))
  }

  /** `[a-z]{2,3}_[A-Za-z0-9]{2,3}` */
  predicate IsLocale(s: string) {
    LocaleAt(s, 2) || LocaleAt(s, 3)
  }

  /** The end of the run of characters at `i` on which `SpaceAt` is `space`. */
  function RunEnd(s: string, i: nat, space: bool): (j: nat)
    requires i <= |s|
    ensures i <= j <= |s| && (forall k :: i <= k < j ==> IsSpace(s[k]) == space)
    ensures j < |s| ==> IsSpace(s[j]) != space
    decreases |s| - i
  {
    if i < |s| && IsSpace(s[i]) == space then RunEnd(s, i + 1, space) else i
  }

  predicate NoTerminator(s: string) {
    forall i :: 0 <= i < |s| ==> !IsLineTerminator(s[i])
  }

  /**
   * The rest of the pattern from the end of the name: `\s+`, a locale, `\s+`, `#`, `\s*`,
   * then anything to the end of the line. A locale has no space in it, so greedy runs of
   * space are the only way it can match.
   */
  function MatchTail(line: string, k: nat): Option<(string, string)>
    requires k <= |line|
  {
    var a := RunEnd(line, k, true);
    var b := RunEnd(line, a, false);
    var c := RunEnd(line, b, true);
    TailAt(line, k, a, b, c)
  }

  /** Space [k, a), a word [a, b), space [b, c). */
  function TailAt(line: string, k: nat, a: nat, b: nat, c: nat): Option<(string, string)>
    requires k <= a <= b <= c <= |line|
  {
    if a == k || c == b || !IsLocale(line[a..b]) || c == |line| || line[c] != '#' then None
    else
      var d := RunEnd(line, c + 1, true);
      if !NoTerminator(line[d..]) then None else Some((line[a..b], line[d..]))
  }

  /** The match whose name is the first k characters, all on one line. */
  function MatchName(line: string, k: nat): Option<Voice> {
    if k > |line| || !NoTerminator(line[..k]) then None
    else
      match MatchTail(line, k)
      case Some((locale, sample)) => Some(Voice(Trim(line[..k]), locale, Trim(sample)))
      case None => None
  }

  function NameMatcher(line: string): nat -> Option<Voice> {
    (k: nat) => MatchName(line, k)
  }

  /** The first length from k up to n at which f matches: how a lazy quantifier searches. */
  function FirstMatch<T>(f: nat -> Option<T>, k: nat, n: nat): Option<T>
    decreases n - k
  {
    if k > n then None else if f(k).Some? then f(k) else FirstMatch(f, k + 1, n)
  }

  /** The lazy name: the shortest non-empty prefix whose tail matches. */
  function MatchLine(line: string): Option<Voice> {
    FirstMatch(NameMatcher(line), 1, |line|)
  }

  function ParseLine(rawLine: string): Option<Voice> {
    var line := TrimEnd(rawLine);
    if line == [] then None else MatchLine(line)
  }

  function ParseLines(lines: seq<string>): seq<Voice> {
    if lines == [] then []
    else
      var v := ParseLine(lines[|lines| - 1]);
      ParseLines(lines[..|lines| - 1]) + if v.None? then [] else [v.value]
  }

  function Parse(stdout: string): seq<Voice> {
    ParseLines(Split(stdout, '\n'))
  }

  method ParseVoicesOutput(stdout: string) returns (voices: seq<Voice>)
    ensures voices == Parse(stdout)
  {
    var lines := Split(stdout, '\n');
    voices := [];
    for i := 0 to |lines|
      invariant voices == ParseLines(lines[..i])
    {
      assert lines[..i + 1][..i] == lines[..i];
      var line := TrimEnd(lines[i]);
      if line == [] {
        continue;
      }
      var found := MatchLine(line);
      if found.None? {
        continue;
      }
      voices := voices + [found.value];
    }
    assert lines[..|lines|] == lines;
  }

  // -------------------------------------------------- what matches at all

  /** Two or three lower-case letters, an underscore, two or three letters or digits. */
  ghost predicate LocaleShaped(s: string) {
    exists u: nat, v: nat :: 2 <= u <= 3 && 2 <= v <= 3 && LanguageAndRegion(s, u, v)
  }

  ghost predicate LanguageAndRegion(s: string, u: nat, v: nat) {
    && |s| == u + 1 + v && s[u] == '_'
    && (forall i :: 0 <= i < u ==> 'a' <= s[i] <= 'z')
    && forall i :: u < i < |s| ==> 'a' <= s[i] <= 'z' || 'A' <= s[i] <= 'Z' || '0' <= s[i] <= '9'
  }

  lemma LocaleIff(s: string)
    ensures IsLocale(s) <==> LocaleShaped(s)
  {
    if LocaleAt(s, 2) { assert LanguageAndRegion(s, 2, |s| - 3); }
    if LocaleAt(s, 3) { assert LanguageAndRegion(s, 3, |s| - 4); }
  }

  ghost predicate SpaceIn(line: string, i: int, j: int)
    requires 0 <= i <= j <= |line|
  {
    forall m :: i <= m < j ==> IsSpace(line[m])
  }

  /** Space [k, a), a locale [a, b), space [b, c), `#` at c, space up to d, one line from there. */
  ghost predicate TailParts(line: string, k: nat, a: nat, b: nat, c: nat, d: nat) {
    && k < a < b < c < d <= |line|
    && SpaceIn(line, k, a) && LocaleShaped(line[a..b]) && SpaceIn(line, b, c) && line[c] == '#'
    && SpaceIn(line, c + 1, d) && (d < |line| ==> !IsSpace(line[d])) && NoTerminator(line[d..])
  }

  lemma TailFound(line: string, k: nat) returns (a: nat, b: nat, c: nat, d: nat)
    requires k <= |line| && MatchTail(line, k).Some?
    ensures TailParts(line, k, a, b, c, d) && MatchTail(line, k) == Some((line[a..b], line[d..]))
  {
    a := RunEnd(line, k, true);
    b := RunEnd(line, a, false);
    c := RunEnd(line, b, true);
    d := RunEnd(line, c + 1, true);
    LocaleIff(line[a..b]);
  }

  lemma TailRuns(line: string, k: nat, a: nat, b: nat, c: nat, d: nat)
    requires k < a < b < c < d <= |line| && line[c] == '#' && IsLocale(line[a..b])
    requires SpaceIn(line, k, a) && SpaceIn(line, b, c) && SpaceIn(line, c + 1, d) && (d < |line| ==> !IsSpace(line[d]))
    ensures RunEnd(line, k, true) == a && RunEnd(line, a, false) == b
    ensures RunEnd(line, b, true) == c && RunEnd(line, c + 1, true) == d
  {
    LocaleChars(line, a, b);
    assert !IsSpace('#');
    RunEndAt(line, k, a, true);
    RunEndAt(line, a, b, false);
    RunEndAt(line, b, c, true);
    RunEndAt(line, c + 1, d, true);
  }

  lemma TailMatches(line: string, k: nat, a: nat, b: nat, c: nat, d: nat)
    requires TailParts(line, k, a, b, c, d)
    ensures MatchTail(line, k) == Some((line[a..b], line[d..]))
  {
    assert IsLocale(line[a..b]) by { LocaleIff(line[a..b]); }
    TailRuns(line, k, a, b, c, d);
  }

  ghost predicate VoiceAt(line: string, v: Voice, k: nat, a: nat, b: nat, c: nat, d: nat) {
    && 1 <= k <= |line| && NoTerminator(line[..k]) && TailParts(line, k, a, b, c, d)
    && v.name == Trim(line[..k]) && v.locale == line[a..b] && v.sample == Trim(line[d..])
  }

  /** The line read as a name of k characters and the tail at k. */
  ghost predicate ReadsAs(line: string, v: Voice, k: nat) {
    exists a: nat, b: nat, c: nat, d: nat :: VoiceAt(line, v, k, a, b, c, d)
  }

  lemma NameFound(line: string, k: nat)
    requires 1 <= k && MatchName(line, k).Some?
    ensures ReadsAs(line, MatchName(line, k).value, k)
  {
    var a, b, c, d := TailFound(line, k);
    assert VoiceAt(line, MatchName(line, k).value, k, a, b, c, d);
  }

  lemma NameMatches(line: string, v: Voice, k: nat)
    requires ReadsAs(line, v, k)
    ensures MatchName(line, k) == Some(v)
  {
    var a: nat, b: nat, c: nat, d: nat :| VoiceAt(line, v, k, a, b, c, d);
    TailMatches(line, k, a, b, c, d);
  }

  lemma {:induction false} FirstMatchFinds<T>(f: nat -> Option<T>, k: nat, n: nat) returns (m: nat)
    requires FirstMatch(f, k, n).Some?
    ensures k <= m <= n && f(m) == FirstMatch(f, k, n) && forall i: nat :: k <= i < m ==> f(i).None?
    decreases n - k
  {
    m := k;
    if f(k).None? {
      m := FirstMatchFinds(f, k + 1, n);
    }
  }

  /** No shorter name than k characters reads as a voice. */
  ghost predicate NoneShorter(line: string, k: nat) {
    forall i: nat, w: Voice :: 1 <= i < k ==> !ReadsAs(line, w, i)
  }

  /** The line has the shape of a voice, and of several names the shortest counts. */
  ghost predicate IsVoiceLine(raw: string, v: Voice) {
    exists k: nat :: ReadsAs(TrimEnd(raw), v, k) && NoneShorter(TrimEnd(raw), k)
  }

  lemma ParsedReadsAs(raw: string, v: Voice)
    requires ParseLine(raw) == Some(v)
    ensures IsVoiceLine(raw, v)
  {
    var line := TrimEnd(raw);
    var k := FirstMatchFinds(NameMatcher(line), 1, |line|);
    NameFound(line, k);
    forall i: nat, w: Voice | 1 <= i < k ensures !ReadsAs(line, w, i) {
      assert NameMatcher(line)(i).None?;
      if ReadsAs(line, w, i) { NameMatches(line, w, i); }
    }
  }

  lemma ReadsAsParsed(raw: string, v: Voice)
    requires IsVoiceLine(raw, v)
    ensures ParseLine(raw) == Some(v)
  {
    var line := TrimEnd(raw);
    var k: nat :| ReadsAs(line, v, k) && NoneShorter(line, k);
    NameMatches(line, v, k);
    forall i: nat | 1 <= i < k ensures NameMatcher(line)(i).None? {
      if MatchName(line, i).Some? { NameFound(line, i); }
    }
    FirstMatchIs(NameMatcher(line), 1, k, |line|);
  }

  /** A line parses to exactly the voice it has the shape of. */
  lemma ParseLineIff(raw: string, parsed: Option<Voice>)
    requires parsed == ParseLine(raw)
    ensures forall v :: parsed == Some(v) <==> IsVoiceLine(raw, v)
  {
    forall v ensures parsed == Some(v) <==> IsVoiceLine(raw, v) {
      if parsed == Some(v) { ParsedReadsAs(raw, v); }
      if IsVoiceLine(raw, v) { ReadsAsParsed(raw, v); }
    }
  }

  // ------------------------------------------------------------- printing

  /** A padding the pattern accepts: space on one line, at least one where it separates. */
  ghost predicate Pad(s: string) {
    AllSpace(s) && '\n' !in s
  }

  ghost predicate WellFormed(v: Voice) {
    && v.name != [] && Trimmed(v.name) && '#' !in v.name && NoTerminator(v.name)
    && LocaleShaped(v.locale)
    && Trimmed(v.sample) && NoTerminator(v.sample)
  }

  function PrintVoice(v: Voice, pad1: string, pad2: string, pad3: string): string {
    v.name + pad1 + v.locale + pad2 + "#" + pad3 + v.sample
  }

  lemma LocaleHasNoSpace(s: string)
    requires IsLocale(s)
    ensures s != [] && forall i :: 0 <= i < |s| ==> !IsSpace(s[i]) && s[i] != '#' && s[i] != '\n'
  {
    var u := if LocaleAt(s, 2) then 2 else 3;
    forall i | 0 <= i < |s| ensures !IsSpace(s[i]) && s[i] != '#' && s[i] != '\n' {
      assert i < u || i == u || i > u;
    }
  }

  /** A run that is all `space` up to j and stops there ends at j. */
  lemma RunEndAt(s: string, i: nat, j: nat, space: bool)
    requires i <= j <= |s| && forall k :: i <= k < j ==> IsSpace(s[k]) == space
    requires j < |s| ==> IsSpace(s[j]) != space
    ensures RunEnd(s, i, space) == j
  {
    var e := RunEnd(s, i, space);
  }

  /** The layout of a printed line: name [0, n), space, locale [a, b), space, `#` at c. */
  ghost predicate Layout(line: string, n: nat, a: nat, b: nat, c: nat) {
    && 0 < n < a < b < c < |line|
    && !IsSpace(line[n - 1])
    && (forall i :: n <= i < a ==> IsSpace(line[i]))
    && IsLocale(line[a..b])
    && (forall i :: b <= i < c ==> IsSpace(line[i]))
    && line[c] == '#' && forall i :: 0 <= i < c ==> line[i] != '#'
  }

  lemma LocaleChars(line: string, a: nat, b: nat)
    requires a <= b <= |line| && IsLocale(line[a..b])
    ensures forall i :: a <= i < b ==> !IsSpace(line[i])
  {
    LocaleHasNoSpace(line[a..b]);
    forall i | a <= i < b ensures !IsSpace(line[i]) {
      assert line[a..b][i - a] == line[i];
    }
  }

  /** No shorter name matches: its tail would have to reach the `#` through the real locale. */
  lemma NoShorterName(line: string, n: nat, a: nat, b: nat, c: nat, k: nat)
    requires Layout(line, n, a, b, c) && 1 <= k < n
    ensures MatchTail(line, k) == None
  {
    LocaleChars(line, a, b);
    var a' := RunEnd(line, k, true);
    assert a' <= n - 1 && IsSpace(line[n]);
    var b' := RunEnd(line, a', false);
    assert b' <= n && !IsSpace(line[a]);
    var c' := RunEnd(line, b', true);
    assert c' <= a && line[c'] != '#';
  }

  lemma RunEnds(line: string, n: nat, a: nat, b: nat, c: nat, d: nat)
    requires Layout(line, n, a, b, c) && c < d <= |line|
    requires (forall i :: c < i < d ==> IsSpace(line[i])) && (d < |line| ==> !IsSpace(line[d]))
    ensures RunEnd(line, n, true) == a && RunEnd(line, a, false) == b
    ensures RunEnd(line, b, true) == c && RunEnd(line, c + 1, true) == d
  {
    LocaleChars(line, a, b);
    RunEndAt(line, n, a, true);
    RunEndAt(line, a, b, false);
    RunEndAt(line, b, c, true);
    RunEndAt(line, c + 1, d, true);
  }

  lemma FullNameMatches(line: string, n: nat, a: nat, b: nat, c: nat, d: nat)
    requires Layout(line, n, a, b, c) && c < d <= |line|
    requires (forall i :: c < i < d ==> IsSpace(line[i])) && (d < |line| ==> !IsSpace(line[d]))
    requires NoTerminator(line[d..])
    ensures MatchTail(line, n) == Some((line[a..b], line[d..]))
  {
    RunEnds(line, n, a, b, c, d);
  }

  lemma {:induction false} FirstMatchIs<T>(f: nat -> Option<T>, k: nat, m: nat, n: nat)
    requires k <= m <= n && f(m).Some?
    requires forall i :: k <= i < m ==> f(i).None?
    ensures FirstMatch(f, k, n) == f(m)
    decreases m - k
  {
    if k < m {
      FirstMatchIs(f, k + 1, m, n);
    }
  }

  lemma LazyMatchIsFullName(line: string, n: nat, a: nat, b: nat, c: nat, d: nat)
    requires Layout(line, n, a, b, c) && c < d <= |line|
    requires (forall i :: c < i < d ==> IsSpace(line[i])) && (d < |line| ==> !IsSpace(line[d]))
    requires NoTerminator(line[d..]) && NoTerminator(line[..n])
    ensures MatchLine(line) == Some(Voice(Trim(line[..n]), line[a..b], Trim(line[d..])))
  {
    var f := NameMatcher(line);
    forall m: nat | 1 <= m < n ensures f(m).None? {
      NoShorterName(line, n, a, b, c, m);
    }
    FullNameMatches(line, n, a, b, c, d);
    FirstMatchIs(f, 1, n, |line|);
  }

  // ----------------------------------------------------------- round trip

  function Core(v: Voice, pad1: string, pad2: string): string {
    v.name + pad1 + v.locale + pad2 + "#"
  }

  lemma CoreParts(v: Voice, pad1: string, pad2: string, rest: string)
    ensures var n := |v.name|; var a := n + |pad1|; var b := a + |v.locale|; var c := b + |pad2|;
      var s := Core(v, pad1, pad2) + rest;
      && |Core(v, pad1, pad2)| == c + 1 && s[c] == '#' && s[c + 1..] == rest
      && s[..n] == v.name && s[n..a] == pad1 && s[a..b] == v.locale && s[b..c] == pad2
  {
  }

  /** A line made of a name, padding, a locale, padding and `#` has the layout. */
  lemma PartsGiveLayout(s: string, v: Voice, n: nat, a: nat, b: nat, c: nat)
    requires WellFormed(v) && n < a <= b < c < |s| && s[c] == '#'
    requires s[..n] == v.name && Pad(s[n..a]) && s[a..b] == v.locale && Pad(s[b..c])
    ensures Layout(s, n, a, b, c)
  {
    LocaleHasNoSpace(v.locale);
    assert s[n - 1] == v.name[n - 1];
    forall i | n <= i < a ensures IsSpace(s[i]) { assert s[i] == s[n..a][i - n]; }
    forall i | b <= i < c ensures IsSpace(s[i]) { assert s[i] == s[b..c][i - b]; }
    forall i | 0 <= i < c ensures s[i] != '#' {
      assert !IsSpace('#');
      if i < n { assert s[i] == s[..n][i]; }
      else if a <= i < b { assert s[i] == s[a..b][i - a]; }
    }
  }

  /** What `trimEnd` leaves of a printed line. */
  lemma PrintedTrimEnd(v: Voice, pad1: string, pad2: string, pad3: string)
    requires Trimmed(v.sample) && Pad(pad3)
    ensures TrimEnd(PrintVoice(v, pad1, pad2, pad3))
         == Core(v, pad1, pad2) + if v.sample == [] then [] else pad3 + v.sample
  {
    var core, printed := Core(v, pad1, pad2), PrintVoice(v, pad1, pad2, pad3);
    if v.sample == [] {
      assert printed == core + pad3 && core + [] == core;
      TrimEndPad(core, pad3);
      assert !IsSpace('#') && core[|core| - 1] == '#';
    } else {
      assert printed == core + (pad3 + v.sample);
      assert printed[|printed| - 1] == v.sample[|v.sample| - 1];
    }
  }

  /** From `#` to the sample: only space, and the sample starts with none. */
  lemma SampleAt(line: string, c: nat, pad3: string, sample: string)
    requires c < |line| && line[c + 1..] == (if sample == [] then [] else pad3 + sample)
    requires Trimmed(sample) && AllSpace(pad3)
    ensures var d := if sample == [] then c + 1 else c + 1 + |pad3|;
      && d <= |line| && line[d..] == sample
      && (forall i :: c < i < d ==> IsSpace(line[i])) && (d < |line| ==> !IsSpace(line[d]))
  {
    if sample != [] {
      var d := c + 1 + |pad3|;
      assert line[d..] == line[c + 1..][|pad3|..] == sample;
      forall i | c < i < d ensures IsSpace(line[i]) {
        assert line[i] == line[c + 1..][i - (c + 1)] == pad3[i - (c + 1)];
      }
      assert line[d] == line[d..][0];
    }
  }

  /** The layout of a printed line and what stands in each part of it. */
  lemma PrintedParts(v: Voice, pad1: string, pad2: string, rest: string)
    returns (line: string, n: nat, a: nat, b: nat, c: nat)
    requires WellFormed(v) && Pad(pad1) && Pad(pad2) && pad1 != [] && pad2 != []
    ensures line == Core(v, pad1, pad2) + rest && Layout(line, n, a, b, c)
    ensures line[..n] == v.name && line[a..b] == v.locale && line[c + 1..] == rest
  {
    line, n := Core(v, pad1, pad2) + rest, |v.name|;
    a := n + |pad1|;
    b := a + |v.locale|;
    c := b + |pad2|;
    CoreParts(v, pad1, pad2, rest);
    LocaleHasNoSpace(v.locale);
    PartsGiveLayout(line, v, n, a, b, c);
  }

  lemma PartsMatch(line: string, n: nat, a: nat, b: nat, c: nat, pad3: string, v: Voice)
    requires Layout(line, n, a, b, c) && WellFormed(v) && AllSpace(pad3)
    requires line[..n] == v.name && line[a..b] == v.locale
    requires line[c + 1..] == if v.sample == [] then [] else pad3 + v.sample
    ensures MatchLine(line) == Some(v)
  {
    var d := if v.sample == [] then c + 1 else c + 1 + |pad3|;
    SampleAt(line, c, pad3, v.sample);
    MatchedIsVoice(line, n, a, b, c, d, v);
  }

  /** The name is never cut short: a printed voice line reads back as the voice. */
  lemma LineRoundTrip(v: Voice, pad1: string, pad2: string, pad3: string)
    requires WellFormed(v) && Pad(pad1) && Pad(pad2) && Pad(pad3) && pad1 != [] && pad2 != []
    ensures ParseLine(PrintVoice(v, pad1, pad2, pad3)) == Some(v)
  {
    var rest := if v.sample == [] then [] else pad3 + v.sample;
    assert TrimEnd(PrintVoice(v, pad1, pad2, pad3)) == Core(v, pad1, pad2) + rest by {
      PrintedTrimEnd(v, pad1, pad2, pad3);
    }
    var line, n, a, b, c := PrintedParts(v, pad1, pad2, rest);
    PartsMatch(line, n, a, b, c, pad3, v);
  }

  lemma MatchedIsVoice(line: string, n: nat, a: nat, b: nat, c: nat, d: nat, v: Voice)
    requires Layout(line, n, a, b, c) && c < d <= |line| && WellFormed(v)
    requires (forall i :: c < i < d ==> IsSpace(line[i])) && (d < |line| ==> !IsSpace(line[d]))
    requires line[..n] == v.name && line[a..b] == v.locale && line[d..] == v.sample
    ensures MatchLine(line) == Some(v)
  {
    LazyMatchIsFullName(line, n, a, b, c, d);
    TrimOfTrimmed(v.name);
    TrimOfTrimmed(v.sample);
  }

  /** A line of output: a voice with some padding, or a blank line. */
  datatype Line = VoiceLine(voice: Voice, pad1: string, pad2: string, pad3: string) | BlankLine(pad: string)

  ghost predicate Printable(l: Line) {
    match l
    case VoiceLine(v, pad1, pad2, pad3) => WellFormed(v) && Pad(pad1) && Pad(pad2) && Pad(pad3) && pad1 != [] && pad2 != []
    case BlankLine(pad) => Pad(pad)
  }

  function TextOf(l: Line): string {
    match l
    case VoiceLine(v, pad1, pad2, pad3) => PrintVoice(v, pad1, pad2, pad3)
    case BlankLine(pad) => pad
  }

  function Texts(ls: seq<Line>): seq<string> {
    seq(|ls|, i requires 0 <= i < |ls| => TextOf(ls[i]))
  }

  function VoicesOf(ls: seq<Line>): seq<Voice> {
    if ls == [] then []
    else VoicesOf(ls[..|ls| - 1]) + if ls[|ls| - 1].VoiceLine? then [ls[|ls| - 1].voice] else []
  }

  lemma AllSpaceTrimsAway(pad: string)
    requires AllSpace(pad)
    ensures TrimEnd(pad) == []
  {
    TrimEndPad([], pad);
    assert [] + pad == pad;
  }

  lemma TextStaysOnLine(l: Line)
    requires Printable(l)
    ensures '\n' !in TextOf(l)
  {
    if l.VoiceLine? {
      LocaleHasNoSpace(l.voice.locale);
      assert IsLineTerminator('\n');
      forall i | 0 <= i < |l.voice.name| ensures l.voice.name[i] != '\n' { assert !IsLineTerminator(l.voice.name[i]); }
      forall i | 0 <= i < |l.voice.sample| ensures l.voice.sample[i] != '\n' { assert !IsLineTerminator(l.voice.sample[i]); }
    }
  }

  lemma {:induction false} LinesRoundTrip(ls: seq<Line>)
    requires forall l :: l in ls ==> Printable(l)
    ensures ParseLines(Texts(ls)) == VoicesOf(ls)
    decreases |ls|
  {
    if ls != [] {
      var n := |ls| - 1;
      var l := ls[n];
      assert l in ls;
      assert Texts(ls)[..n] == Texts(ls[..n]);
      LinesRoundTrip(ls[..n]);
      match l
      case VoiceLine(v, pad1, pad2, pad3) => LineRoundTrip(v, pad1, pad2, pad3);
      case BlankLine(pad) => AllSpaceTrimsAway(pad);
    }
  }

  /**
   * Printing any list of well-formed voices with any padding, blank lines anywhere among
   * them, and parsing gives back exactly the list.
   */
  lemma VoicesRoundTrip(ls: seq<Line>)
    requires forall l :: l in ls ==> Printable(l)
    ensures Parse(Join(Texts(ls), '\n')) == VoicesOf(ls)
  {
    forall t | t in Texts(ls) ensures '\n' !in t {
      var i :| 0 <= i < |ls| && Texts(ls)[i] == t;
      assert ls[i] in ls;
      TextStaysOnLine(ls[i]);
    }
    if ls == [] {
      assert ParseLines([""]) == ParseLines([""][..0]) == [];
    } else {
      SplitJoin(Texts(ls), '\n');
      LinesRoundTrip(ls);
    }
  }
}
