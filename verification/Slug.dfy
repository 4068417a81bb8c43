/**
 * The two slug generators: the panel's suggestion for a channel id and the seeder's id for
 * a legacy profile name. `lower` stands for Unicode lower-casing, of which only its
 * fixing of already-lower ASCII slugs is ever needed.
 */
module Slug {
  import opened Text
  import opened Validation

  /** `replace(/[^a-z0-9]+/g, '-')`: one hyphen for each run; `inRun` is inside one already. */
  function Collapse(s: string, inRun: bool): string {
    if s == [] then []
    else if IsLowerAlnum(s[0]) then [s[0]] + Collapse(s[1..], false)
    else (if inRun then [] else ['-']) + Collapse(s[1..], true)
  }

  function DropLeading(s: string): string {
    if s != [] && s[0] == '-' then DropLeading(s[1..]) else s
  }

  function DropTrailing(s: string): string {
    if s != [] && s[|s| - 1] == '-' then DropTrailing(s[..|s| - 1]) else s
  }

  /** `replace(/^-+|-+$/g, '')` */
  function TrimHyphens(s: string): string {
    DropTrailing(DropLeading(s))
  }

  /** The panel's generator. */
  function Slugify(text: string, lower: string -> string): string {
    TrimHyphens(Collapse(Trim(lower(text)), false))
  }

  /** The seeder's generator: never empty. */
  function SlugifyName(name: string, lower: string -> string): string {
    var slug := Slugify(name, lower);
    if slug == [] then "profile" else slug
  }

  // ---------------------------------------------------------- reference

  /** The maximal runs of lower-case letters and digits. */
  function Words(s: string): (ws: seq<string>)
    ensures s != [] && IsLowerAlnum(s[0]) ==> ws != []
  {
    if s == [] then []
    else if !IsLowerAlnum(s[0]) then Words(s[1..])
    else if s[1..] != [] && IsLowerAlnum(s[1]) then
      var ws := Words(s[1..]);
      [[s[0]] + ws[0]] + ws[1..]
    else [[s[0]]] + Words(s[1..])
  }

  ghost predicate IsWord(w: string) {
    w != [] && forall i :: 0 <= i < |w| ==> IsLowerAlnum(w[i])
  }

  lemma {:induction false} WordsAreWords(s: string)
    ensures forall w :: w in Words(s) ==> IsWord(w)
    decreases |s|
  {
    if s != [] {
      WordsAreWords(s[1..]);
      var ws := Words(s[1..]);
      if s[1..] != [] && IsLowerAlnum(s[0]) && IsLowerAlnum(s[1]) {
        assert s[1..][0] == s[1];
        assert ws[0] in ws;
        assert IsWord([s[0]] + ws[0]);
      }
    }
  }

  lemma {:induction false} NoWords(s: string)
    requires Words(s) == []
    ensures forall i :: 0 <= i < |s| ==> !IsLowerAlnum(s[i])
    decreases |s|
  {
    if s != [] {
      NoWords(s[1..]);
      assert s == [s[0]] + s[1..];
    }
  }

  /** Words joined by hyphens, with one more hyphen if the text does not end in a word. */
  ghost function Joined(ws: seq<string>, endsInWord: bool): string {
    if ws == [] then [] else Join(ws, '-') + if endsInWord then [] else ['-']
  }

  ghost predicate EndsInWord(s: string) {
    s != [] && IsLowerAlnum(s[|s| - 1])
  }

  /** What is left of the collapsed text after a leading hyphen. */
  ghost function Body(s: string): string {
    Joined(Words(s), EndsInWord(s))
  }

  lemma FirstWordGrows(c: char, ws: seq<string>, e: bool)
    requires ws != []
    ensures Joined([[c] + ws[0]] + ws[1..], e) == [c] + Joined(ws, e)
  {
    var vs := [[c] + ws[0]] + ws[1..];
    assert vs[1..] == ws[1..];
    if |ws| > 1 {
      assert [c] + (ws[0] + ['-'] + Join(ws[1..], '-')) == ([c] + ws[0]) + ['-'] + Join(ws[1..], '-');
    }
  }

  lemma WordStarts(c: char, ws: seq<string>, e: bool)
    requires ws != []
    ensures Joined([[c]] + ws, e) == [c] + ['-'] + Joined(ws, e)
  {
    var vs := [[c]] + ws;
    assert vs[1..] == ws;
    assert Join(vs, '-') == [c] + ['-'] + Join(ws, '-');
  }

  lemma BodyInsideWord(s: string, r: string)
    requires |s| > 1 && r == s[1..] && IsLowerAlnum(s[0]) && IsLowerAlnum(r[0])
    ensures Body(s) == [s[0]] + Body(r)
  {
    assert s[|s| - 1] == r[|r| - 1];
    FirstWordGrows(s[0], Words(r), EndsInWord(r));
  }

  lemma BodyAtWordEnd(s: string, r: string)
    requires |s| > 1 && r == s[1..] && IsLowerAlnum(s[0]) && !IsLowerAlnum(r[0])
    ensures Body(s) == [s[0]] + ['-'] + Body(r)
  {
    var ws := Words(r);
    assert Words(s) == [[s[0]]] + ws;
    assert s[|s| - 1] == r[|r| - 1];
    if ws == [] {
      NoWords(r);
    } else {
      WordStarts(s[0], ws, EndsInWord(r));
    }
  }

  lemma BodyOfOne(s: string)
    requires |s| == 1 && IsLowerAlnum(s[0])
    ensures Body(s) == [s[0]]
  {
    assert Words(s) == [[s[0]]];
  }

  /** How the body grows when a word character is put in front. */
  lemma BodyWithWordChar(s: string)
    requires s != [] && IsLowerAlnum(s[0])
    ensures var r := s[1..];
      Body(s) == [s[0]] + (if r != [] && !IsLowerAlnum(r[0]) then ['-'] else []) + Body(r)
  {
    if |s| == 1 {
      BodyOfOne(s);
    } else if IsLowerAlnum(s[1]) {
      BodyInsideWord(s, s[1..]);
    } else {
      BodyAtWordEnd(s, s[1..]);
    }
  }

  lemma BodyWithOther(s: string)
    requires s != [] && !IsLowerAlnum(s[0])
    ensures Body(s) == Body(s[1..])
  {
    if s[1..] != [] {
      assert s[|s| - 1] == s[1..][|s| - 2];
    }
  }

  lemma {:induction false} CollapseIsWords(s: string, inRun: bool)
    ensures Collapse(s, inRun) == (if s != [] && !IsLowerAlnum(s[0]) && !inRun then ['-'] else []) + Body(s)
    decreases |s|
  {
    if s != [] {
      CollapseIsWords(s[1..], !IsLowerAlnum(s[0]));
      if IsLowerAlnum(s[0]) {
        BodyWithWordChar(s);
      } else {
        BodyWithOther(s);
      }
    }
  }

  lemma {:induction false} JoinEnds(ws: seq<string>)
    requires ws != [] && forall w :: w in ws ==> IsWord(w)
    ensures var j := Join(ws, '-');
      j != [] && IsLowerAlnum(j[0]) && IsLowerAlnum(j[|j| - 1])
    decreases |ws|
  {
    if |ws| > 1 {
      JoinEnds(ws[1..]);
    }
    assert ws[0] in ws;
  }

  lemma DropLeadingHyphen(lead: string, s: string)
    requires s != [] && s[0] != '-' && (lead == [] || lead == ['-'])
    ensures DropLeading(lead + s) == s
  {
    if lead == [] {
      assert lead + s == s;
    } else {
      assert (lead + s)[1..] == s;
    }
  }

  lemma DropTrailingHyphen(s: string, tail: string)
    requires s != [] && s[|s| - 1] != '-' && (tail == [] || tail == ['-'])
    ensures DropTrailing(s + tail) == s
  {
    if tail == [] {
      assert s + tail == s;
    } else {
      assert (s + tail)[..|s + tail| - 1] == s;
    }
  }

  /** A string with word characters at both ends loses exactly the hyphens put around it. */
  lemma TrimHyphensAround(lead: string, j: string, tail: string)
    requires j != [] && j[0] != '-' && j[|j| - 1] != '-'
    requires (lead == [] || lead == ['-']) && (tail == [] || tail == ['-'])
    ensures TrimHyphens(lead + (j + tail)) == j
  {
    DropLeadingHyphen(lead, j + tail);
    DropTrailingHyphen(j, tail);
  }

  /** The generator's replacements compute exactly the words joined by single hyphens. */
  lemma HyphenTrimmedIsWords(s: string)
    ensures TrimHyphens(Collapse(s, false)) == Join(Words(s), '-')
  {
    CollapseIsWords(s, false);
    WordsAreWords(s);
    var ws := Words(s);
    if ws == [] {
      assert ['-'][1..] == [];
      assert DropLeading(['-']) == DropLeading([]) == [];
    } else {
      JoinEnds(ws);
      TrimHyphensAround(if IsLowerAlnum(s[0]) then [] else ['-'], Join(ws, '-'), if IsLowerAlnum(s[|s| - 1]) then [] else ['-']);
    }
  }

  lemma {:induction false} WordsSkip(pad: string, s: string)
    requires forall i :: 0 <= i < |pad| ==> !IsLowerAlnum(pad[i])
    ensures Words(pad + s) == Words(s)
    decreases |pad|
  {
    if pad == [] {
      assert pad + s == s;
    } else {
      assert (pad + s)[1..] == pad[1..] + s;
      WordsSkip(pad[1..], s);
    }
  }

  lemma {:induction false} WordsSkipEnd(s: string, pad: string)
    requires forall i :: 0 <= i < |pad| ==> !IsLowerAlnum(pad[i])
    ensures Words(s + pad) == Words(s)
    decreases |s|
  {
    if s == [] {
      WordsSkip(pad, []);
      assert s + pad == pad && pad + [] == pad;
    } else {
      assert (s + pad)[1..] == s[1..] + pad;
      WordsSkipEnd(s[1..], pad);
    }
  }

  /** The `trim` call never affects the result. */
  lemma TrimIsRedundant(s: string)
    ensures TrimHyphens(Collapse(Trim(s), false)) == TrimHyphens(Collapse(s, false))
  {
    var front, back := TrimSplits(s);
    WordsSkipEnd(front + Trim(s), back);
    WordsSkip(front, Trim(s));
    HyphenTrimmedIsWords(s);
    HyphenTrimmedIsWords(Trim(s));
  }

  lemma SlugifyIsWords(text: string, lower: string -> string)
    ensures Slugify(text, lower) == Join(Words(lower(text)), '-')
  {
    TrimIsRedundant(lower(text));
    HyphenTrimmedIsWords(lower(text));
  }

  // ------------------------------------------------- shape of the result

  /** Lower-case letters, digits and single inner hyphens. */
  ghost predicate Clean(s: string) {
    && (forall i :: 0 <= i < |s| ==> IsLowerAlnum(s[i]) || s[i] == '-')
    && (s != [] ==> s[0] != '-' && s[|s| - 1] != '-')
    && (forall i :: 0 < i < |s| ==> !(s[i - 1] == '-' && s[i] == '-'))
  }

  lemma {:induction false} JoinIsClean(ws: seq<string>)
    requires forall w :: w in ws ==> IsWord(w)
    ensures Clean(Join(ws, '-'))
    decreases |ws|
  {
    if |ws| == 1 {
      assert ws[0] in ws;
    } else if |ws| > 1 {
      var rest := Join(ws[1..], '-');
      JoinIsClean(ws[1..]);
      JoinEnds(ws[1..]);
      assert IsWord(ws[0]);
      var j := Join(ws, '-');
      assert j == ws[0] + ['-'] + rest;
      forall i | 0 < i < |j| ensures !(j[i - 1] == '-' && j[i] == '-') {
        if i > |ws[0]| + 1 {
          assert j[i - 1] == rest[i - |ws[0]| - 2] && j[i] == rest[i - |ws[0]| - 1];
        }
      }
    }
  }

  /** The panel suggests a clean id: the empty string or one the server's rule accepts. */
  lemma SlugifyIsCleanAndAccepted(text: string, lower: string -> string)
    ensures Clean(Slugify(text, lower))
    ensures Slugify(text, lower) == [] || IsSlug(Slugify(text, lower))
  {
    SlugifyIsWords(text, lower);
    WordsAreWords(lower(text));
    JoinIsClean(Words(lower(text)));
  }

  /** The seeder's id is always one the server's rule accepts. */
  lemma SlugifyNameIsAccepted(name: string, lower: string -> string)
    ensures Clean(SlugifyName(name, lower)) && IsSlug(SlugifyName(name, lower))
    ensures SlugifyName(name, lower) == if Words(lower(name)) == [] then "profile" else Join(Words(lower(name)), '-')
  {
    SlugifyIsCleanAndAccepted(name, lower);
    SlugifyIsWords(name, lower);
    WordsAreWords(lower(name));
    if Words(lower(name)) != [] {
      JoinEnds(Words(lower(name)));
    }
  }

  // --------------------------------------------------------- idempotence

  lemma {:induction false} WordsOfWord(w: string)
    requires IsWord(w)
    ensures Words(w) == [w]
    decreases |w|
  {
    if |w| > 1 {
      WordsOfWord(w[1..]);
      assert [w[0]] + w[1..] == w;
    } else {
      assert w == [w[0]];
    }
  }

  lemma {:induction false} WordsAtHyphen(w: string, s: string)
    requires IsWord(w)
    ensures Words(w + ['-'] + s) == [w] + Words(s)
    decreases |w|
  {
    var t := w + ['-'] + s;
    if |w| > 1 {
      assert t[1..] == w[1..] + ['-'] + s;
      WordsAtHyphen(w[1..], s);
      assert [w[0]] + w[1..] == w;
    } else {
      assert t[1..] == ['-'] + s;
      assert (['-'] + s)[1..] == s;
      assert w == [w[0]];
    }
  }

  lemma {:induction false} WordsOfJoin(ws: seq<string>)
    requires forall w :: w in ws ==> IsWord(w)
    ensures Words(Join(ws, '-')) == ws
    decreases |ws|
  {
    if |ws| == 1 {
      WordsOfWord(ws[0]);
    } else if |ws| > 1 {
      WordsOfJoin(ws[1..]);
      WordsAtHyphen(ws[0], Join(ws[1..], '-'));
    }
  }

  /** A clean string passes through unchanged; so both generators are idempotent. */
  lemma SlugifyIsIdempotent(text: string, lower: string -> string)
    requires forall s :: Clean(s) ==> lower(s) == s
    ensures Slugify(Slugify(text, lower), lower) == Slugify(text, lower)
    ensures SlugifyName(SlugifyName(text, lower), lower) == SlugifyName(text, lower)
  {
    var ws := Words(lower(text));
    SlugifyIsWords(text, lower);
    WordsAreWords(lower(text));
    JoinIsClean(ws);
    var slug := Join(ws, '-');
    SlugifyIsWords(slug, lower);
    WordsOfJoin(ws);
    if slug == [] {
      assert IsWord("profile");
      WordsOfWord("profile");
      assert Clean("profile");
      SlugifyIsWords("profile", lower);
    }
  }
}
