/** The hook's `KEY=VALUE` configuration file. */
module HookEnv {
  import opened Options
  import opened Text

  predicate IsKeyStart(c: char) {
    'A' <= c <= 'Z' || 'a' <= c <= 'z' || c == '_'
  }

  /** `^[A-Za-z_][A-Za-z0-9_]*$` */
  predicate IsKey(s: string) {
    s != [] && IsKeyStart(s[0]) && forall i :: 0 <= i < |s| ==> IsKeyStart(s[i]) || '0' <= s[i] <= '9'
  }

  /** The position of the first `c`, or the length of the string. */
  function IndexOf(s: string, c: char): (i: nat)
    ensures i <= |s| && (i < |s| ==> s[i] == c)
  {
    if s == [] || s[0] == c then 0 else 1 + IndexOf(s[1..], c)
  }

  /** What one line contributes: blank, comment and malformed lines contribute nothing. */
  function EntryOf(rawLine: string): Option<(string, string)> {
    var line := Trim(rawLine);
    var eq := IndexOf(line, '=');
    if line == [] || line[0] == '#' || eq == |line| || eq == 0 then None
    else
      var key := Trim(line[..eq]);
      if !IsKey(key) then None else Some((key, Trim(line[eq + 1..])))
  }

  function With(config: map<string, string>, entry: Option<(string, string)>): map<string, string> {
    if entry.None? then config else config[entry.value.0 := entry.value.1]
  }

  /** What `read` finds on each line, later lines overriding earlier ones. */
  function Fold(read: string -> Option<(string, string)>, lines: seq<string>): map<string, string> {
    if lines == [] then map[] else With(Fold(read, lines[..|lines| - 1]), read(lines[|lines| - 1]))
  }

  function ParseLines(lines: seq<string>): map<string, string> {
    Fold(EntryOf, lines)
  }

  lemma FoldNext(read: string -> Option<(string, string)>, lines: seq<string>, i: nat)
    requires i < |lines|
    ensures Fold(read, lines[..i + 1]) == With(Fold(read, lines[..i]), read(lines[i]))
  {
    assert lines[..i + 1][..i] == lines[..i];
  }

  function Parse(content: string): map<string, string> {
    ParseLines(Split(content, '\n'))
  }

  method ParseConfigFile(content: string) returns (config: map<string, string>)
    ensures config == Parse(content)
  {
    var lines := Split(content, '\n');
    config := map[];
    for i := 0 to |lines|
      invariant config == ParseLines(lines[..i])
    {
      FoldNext(EntryOf, lines, i);
      var line := Trim(lines[i]);
      if line == [] || line[0] == '#' {
        continue;
      }
      var eq := IndexOf(line, '=');
      if eq == |line| || eq == 0 {
        continue;
      }
      var key := Trim(line[..eq]);
      if !IsKey(key) {
        continue;
      }
      config := config[key := Trim(line[eq + 1..])];
    }
    assert lines[..|lines|] == lines;
  }

  // --------------------------------------------------------- homomorphism

  lemma {:induction false} FoldConcat(read: string -> Option<(string, string)>, a: seq<string>, b: seq<string>)
    ensures Fold(read, a + b) == Fold(read, a) + Fold(read, b)
    decreases |b|
  {
    if b == [] {
      assert a + b == a;
    } else {
      var n := |b| - 1;
      assert (a + b)[..|a + b| - 1] == a + b[..n];
      FoldConcat(read, a, b[..n]);
    }
  }

  /** Parsing a, a newline, then b is parsing a overridden by parsing b. */
  lemma ParseIsHomomorphism(a: string, b: string)
    ensures Parse(a + ['\n'] + b) == Parse(a) + Parse(b)
  {
    SplitConcat(a, '\n', b);
    FoldConcat(EntryOf, Split(a, '\n'), Split(b, '\n'));
  }

  /** A line that contributes nothing may stand anywhere without effect. */
  lemma NeutralLine(a: string, line: string, b: string)
    requires '\n' !in line && EntryOf(line) == None
    ensures Parse(a + ['\n'] + (line + ['\n'] + b)) == Parse(a + ['\n'] + b)
  {
    SplitPlain(line, '\n');
    assert [line][..0] == [];
    assert Parse(line) == map[];
    ParseIsHomomorphism(line, b);
    ParseIsHomomorphism(a, line + ['\n'] + b);
    ParseIsHomomorphism(a, b);
    assert map[] + Parse(b) == Parse(b);
  }

  // ----------------------------------------------------------- round trip

  function PrintLine(key: string, value: string): string {
    key + ['='] + value
  }

  function PrintLines(keys: seq<string>, m: map<string, string>): seq<string>
    requires forall k :: k in keys ==> k in m
  {
    seq(|keys|, i requires 0 <= i < |keys| => assert keys[i] in keys; PrintLine(keys[i], m[keys[i]]))
  }

  /** Legal keys, trimmed single-line values. */
  ghost predicate Printable(m: map<string, string>) {
    forall k :: k in m ==> IsKey(k) && Trimmed(m[k]) && '\n' !in m[k]
  }

  lemma {:induction false} IndexOfFirst(a: string, c: char, b: string)
    requires c !in a
    ensures IndexOf(a + [c] + b, c) == |a|
    decreases |a|
  {
    var s := a + [c] + b;
    if a != [] {
      assert s[1..] == a[1..] + [c] + b;
      IndexOfFirst(a[1..], c, b);
    }
  }

  lemma KeyIsPlain(k: string)
    requires IsKey(k)
    ensures Trimmed(k) && '=' !in k && '\n' !in k && k[0] != '#'
  {
  }

  /** A letter or underscore, then letters, digits and underscores. */
  ghost predicate KeyShaped(k: string) {
    && |k| >= 1 && !('0' <= k[0] <= '9')
    && forall i :: 0 <= i < |k| ==> 'a' <= k[i] <= 'z' || 'A' <= k[i] <= 'Z' || '0' <= k[i] <= '9' || k[i] == '_'
  }

  /** The line is the key, `=` and the value, with space before and after each. */
  ghost predicate LineParts(raw: string, k: string, v: string, p0: string, p1: string, p2: string, p3: string) {
    && AllSpace(p0) && AllSpace(p1) && AllSpace(p2) && AllSpace(p3)
    && raw == p0 + k + p1 + ['='] + p2 + v + p3
  }

  ghost predicate Assigns(raw: string, k: string, v: string) {
    KeyShaped(k) && Trimmed(v) && exists p0, p1, p2, p3 :: LineParts(raw, k, v, p0, p1, p2, p3)
  }

  lemma PartsAddUp(raw: string, f: string, b: string, p: string, k: string, q: string, u: string, v: string, w: string)
    requires raw == f + ((p + k + q) + ['='] + (u + v + w)) + b
    requires AllSpace(f) && AllSpace(b) && AllSpace(p) && AllSpace(q) && AllSpace(u) && AllSpace(w)
    ensures LineParts(raw, k, v, f + p, q, u, w + b)
  {
    assert raw == (f + p) + k + q + ['='] + u + v + (w + b);
  }

  lemma EntryHasParts(raw: string)
    requires EntryOf(raw).Some?
    ensures Assigns(raw, EntryOf(raw).value.0, EntryOf(raw).value.1)
  {
    var line, k, v := Trim(raw), EntryOf(raw).value.0, EntryOf(raw).value.1;
    var f, b := TrimSplits(raw);
    var left, right := line[..IndexOf(line, '=')], line[IndexOf(line, '=') + 1..];
    assert line == left + ['='] + right;
    var p, q := TrimSplits(left);
    var u, w := TrimSplits(right);
    PartsAddUp(raw, f, b, p, k, q, u, v, w);
  }

  lemma TrimmedValueLine(raw: string, k: string, v: string, p0: string, p1: string, p2: string, p3: string)
    requires KeyShaped(k) && Trimmed(v) && v != [] && LineParts(raw, k, v, p0, p1, p2, p3)
    ensures Trim(raw) == k + p1 + ['='] + (p2 + v)
  {
    var mid := k + p1 + ['='] + (p2 + v);
    KeyIsPlain(k);
    assert mid[0] == k[0] && mid[|mid| - 1] == v[|v| - 1];
    assert raw == p0 + mid + p3;
    TrimPadded(p0, mid, p3);
  }

  lemma TrimmedEmptyLine(raw: string, k: string, p0: string, p1: string, p2: string, p3: string)
    requires KeyShaped(k) && LineParts(raw, k, [], p0, p1, p2, p3)
    ensures Trim(raw) == k + p1 + ['=']
  {
    var mid := k + p1 + ['='];
    KeyIsPlain(k);
    assert !IsSpace('=');
    assert mid[0] == k[0] && mid[|mid| - 1] == '=';
    assert raw == p0 + mid + (p2 + p3);
    TrimPadded(p0, mid, p2 + p3);
  }

  lemma EntryAt(raw: string, line: string, eq: nat, k: string, v: string)
    requires line == Trim(raw) && 0 < eq < |line| && line[0] != '#' && eq == IndexOf(line, '=')
    requires IsKey(k) && k == Trim(line[..eq]) && v == Trim(line[eq + 1..])
    ensures EntryOf(raw) == Some((k, v))
  {
  }

  lemma SplitAtEquals(line: string, left: string, rest: string)
    requires '=' !in left && line == left + ['='] + rest
    ensures |left| < |line| && IndexOf(line, '=') == |left| && line[..|left|] == left && line[|left| + 1..] == rest
  {
    IndexOfFirst(left, '=', rest);
  }

  lemma PaddedKey(k: string, p1: string)
    requires KeyShaped(k) && AllSpace(p1)
    ensures IsKey(k) && k[0] != '#' && '=' !in k + p1 && Trim(k + p1) == k
  {
    KeyIsPlain(k);
    assert !IsSpace('=');
    assert k + p1 == [] + k + p1;
    TrimPadded([], k, p1);
  }

  /** A trimmed line of a key, space, `=` and a padded value reads as the key and the value. */
  lemma TrimmedLineReads(raw: string, line: string, k: string, left: string, rest: string, v: string)
    requires line == Trim(raw) && line == left + ['='] + rest && Trim(rest) == v
    requires IsKey(k) && left != [] && left[0] != '#' && '=' !in left && Trim(left) == k
    ensures EntryOf(raw) == Some((k, v))
  {
    SplitAtEquals(line, left, rest);
    EntryAt(raw, line, |left|, k, v);
  }

  lemma PartsAreRead(raw: string, k: string, v: string, p0: string, p1: string, p2: string, p3: string)
    requires KeyShaped(k) && Trimmed(v) && LineParts(raw, k, v, p0, p1, p2, p3)
    ensures EntryOf(raw) == Some((k, v))
  {
    PaddedKey(k, p1);
    if v == [] {
      TrimmedEmptyLine(raw, k, p0, p1, p2, p3);
      TrimOfTrimmed([]);
      assert Trim(raw) == k + p1 + ['='] + [];
      TrimmedLineReads(raw, Trim(raw), k, k + p1, [], v);
    } else {
      TrimmedValueLine(raw, k, v, p0, p1, p2, p3);
      assert p2 + v == p2 + v + [];
      TrimPadded(p2, v, []);
      TrimmedLineReads(raw, Trim(raw), k, k + p1, p2 + v, v);
    }
  }

  /** A line counts exactly when it assigns a value to a key, whatever space stands around them. */
  lemma EntryIff(raw: string, k: string, v: string)
    ensures EntryOf(raw) == Some((k, v)) <==> Assigns(raw, k, v)
  {
    if EntryOf(raw) == Some((k, v)) {
      EntryHasParts(raw);
    }
    if Assigns(raw, k, v) {
      var p0, p1, p2, p3 :| LineParts(raw, k, v, p0, p1, p2, p3);
      PartsAreRead(raw, k, v, p0, p1, p2, p3);
    }
  }

  lemma PrintedLineReads(k: string, v: string)
    requires IsKey(k) && Trimmed(v) && '\n' !in v
    ensures EntryOf(PrintLine(k, v)) == Some((k, v)) && '\n' !in PrintLine(k, v)
  {
    var line := PrintLine(k, v);
    KeyIsPlain(k);
    assert line[0] == k[0];
    assert line[|line| - 1] == if v == [] then '=' else v[|v| - 1];
    assert !IsSpace('=');
    TrimOfTrimmed(line);
    IndexOfFirst(k, '=', v);
    assert line[..|k|] == k && line[|k| + 1..] == v;
    TrimOfTrimmed(k);
    TrimOfTrimmed(v);
  }

  lemma {:induction false} FoldGivesMap(
    read: string -> Option<(string, string)>, lines: seq<string>, keys: seq<string>, m: map<string, string>)
    requires |lines| == |keys|
    requires forall i :: 0 <= i < |keys| ==> keys[i] in m && read(lines[i]) == Some((keys[i], m[keys[i]]))
    ensures Fold(read, lines) == map k | k in m && k in keys :: m[k]
    decreases |keys|
  {
    if keys != [] {
      var n := |keys| - 1;
      FoldGivesMap(read, lines[..n], keys[..n], m);
      assert keys == keys[..n] + [keys[n]];
    }
  }

  lemma PrintedAt(keys: seq<string>, m: map<string, string>, i: nat)
    requires Printable(m) && i < |keys| && forall k :: k in keys ==> k in m
    ensures var line := PrintLines(keys, m)[i];
      keys[i] in m && EntryOf(line) == Some((keys[i], m[keys[i]])) && '\n' !in line
  {
    assert keys[i] in keys;
    PrintedLineReads(keys[i], m[keys[i]]);
  }

  lemma JoinedLinesParse(lines: seq<string>)
    requires lines != [] && forall l :: l in lines ==> '\n' !in l
    ensures Parse(Join(lines, '\n')) == Fold(EntryOf, lines)
  {
    SplitJoin(lines, '\n');
  }

  lemma EmptyParses()
    ensures Parse("") == map[]
  {
    assert Split([], '\n') == [[]];
    assert ParseLines([""]) == ParseLines([""][..0]) == map[];
  }

  /** Printing any map of legal keys to trimmed single-line values, in any order, parses back. */
  lemma HookEnvRoundTrip(keys: seq<string>, m: map<string, string>)
    requires Printable(m) && forall k :: k in keys <==> k in m
    ensures Parse(Join(PrintLines(keys, m), '\n')) == m
  {
    var lines := PrintLines(keys, m);
    if keys == [] {
      EmptyParses();
      assert m == map[];
    } else {
      forall i | 0 <= i < |lines|
        ensures keys[i] in m && EntryOf(lines[i]) == Some((keys[i], m[keys[i]])) && '\n' !in lines[i]
      {
        PrintedAt(keys, m, i);
      }
      JoinedLinesParse(lines);
      FoldGivesMap(EntryOf, lines, keys, m);
    }
  }
}
