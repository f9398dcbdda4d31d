/** Deriving a URL slug from an organisation name: lower-case, strip the
    accents, turn every run of other characters into one hyphen, and drop a
    hyphen at either end. */
module Slugs {
  import opened Common

  /** The combining marks of the precomposed small letters U+00E0..U+00FF
      (` ` where the letter has no decomposition), and their base letters. */
  const LatinMarks: seq<char> :=
    ['\U{0300}', '\U{0301}', '\U{0302}', '\U{0303}', '\U{0308}', '\U{030A}', ' ', '\U{0327}',
     '\U{0300}', '\U{0301}', '\U{0302}', '\U{0308}', '\U{0300}', '\U{0301}', '\U{0302}', '\U{0308}',
     ' ', '\U{0303}', '\U{0300}', '\U{0301}', '\U{0302}', '\U{0303}', '\U{0308}', ' ',
     ' ', '\U{0300}', '\U{0301}', '\U{0302}', '\U{0308}', '\U{0301}', ' ', '\U{0308}']
  const LatinBases: string := "aaaaaa ceeeeiiii nooooo  uuuuy y"

  /** `normalize("NFD")` for the precomposed Latin-1 small letters: the
      base letter followed by its combining mark. Other characters are
      kept as they are. */
  function Decompose(c: char): (r: string)
    ensures |r| == 1 || |r| == 2
    ensures |r| == 1 ==> r[0] == c
    ensures |r| == 2 ==> IsLowerAlpha(r[0]) && IsCombiningMark(r[1])
  {
    if '\U{00E0}' <= c <= '\U{00FF}' && LatinBases[c as int - 0xE0] != ' ' then
      [LatinBases[c as int - 0xE0], LatinMarks[c as int - 0xE0]]
    else [c]
  }

  function Nfd(s: string): (r: string)
    ensures (forall i :: 0 <= i < |s| ==> s[i] as int < 0xC0) ==> r == s
  {
    if s == [] then [] else Decompose(s[0]) + Nfd(s[1..])
  }

  /** The class `[̀-ͯ]`. */
  predicate IsCombiningMark(c: char) { '\U{0300}' <= c <= '\U{036F}' }

  /** `replace(/[̀-ͯ]/g, "")`. */
  function StripMarks(s: string): (r: string)
    ensures forall i :: 0 <= i < |r| ==> !IsCombiningMark(r[i])
    ensures (forall i :: 0 <= i < |s| ==> !IsCombiningMark(s[i])) ==> r == s
  {
    if s == [] then []
    else if IsCombiningMark(s[0]) then StripMarks(s[1..])
    else [s[0]] + StripMarks(s[1..])
  }

  /** The characters a slug is made of: the class `[a-z0-9-]`. */
  predicate IsSlugChar(c: char) { IsLowerAlnum(c) || c == '-' }

  /** The input after a maximal run of characters outside `[a-z0-9]`. */
  function DropRun(s: string): (r: string)
    ensures |r| <= |s| && r == s[|s| - |r|..]
    ensures r != [] ==> IsLowerAlnum(r[0])
    ensures forall i :: 0 <= i < |s| - |r| ==> !IsLowerAlnum(s[i])
  {
    if s == [] || IsLowerAlnum(s[0]) then s else DropRun(s[1..])
  }

  /** `replace(/[^a-z0-9]+/g, "-")`: every maximal run becomes one hyphen. */
  function Collapse(s: string): string
    decreases |s|
  {
    if s == [] then []
    else if IsLowerAlnum(s[0]) then [s[0]] + Collapse(s[1..])
    else "-" + Collapse(DropRun(s))
  }

  /** No two hyphens in a row. */
  predicate NoDoubleHyphen(s: string)
  {
    forall i :: 0 <= i < |s| - 1 ==> !(s[i] == '-' && s[i + 1] == '-')
  }

  /** Slug characters with no two hyphens in a row. */
  predicate SlugText(s: string)
  {
    (forall i :: 0 <= i < |s| ==> IsSlugChar(s[i])) && NoDoubleHyphen(s)
  }

  lemma ConsSlugText(c: char, t: string)
    requires IsSlugChar(c) && SlugText(t) && (c == '-' && t != [] ==> t[0] != '-')
    ensures SlugText([c] + t)
  {
    var r := [c] + t;
    forall i | 0 <= i < |r| ensures IsSlugChar(r[i]) {
      if i > 0 { assert r[i] == t[i - 1]; }
    }
    forall i | 0 <= i < |r| - 1 ensures !(r[i] == '-' && r[i + 1] == '-') {
      if i > 0 { assert r[i] == t[i - 1] && r[i + 1] == t[i]; }
      else { assert r[1] == t[0]; }
    }
  }

  /** The collapsed text is made of slug characters, never has two hyphens
      in a row, is empty only for empty input, and starts with a hyphen
      exactly when the input starts outside `[a-z0-9]`. */
  lemma {:induction false} CollapseShape(s: string)
    ensures SlugText(Collapse(s))
    ensures Collapse(s) == [] <==> s == []
    ensures s != [] ==> (Collapse(s)[0] == '-' <==> !IsLowerAlnum(s[0]))
    decreases |s|
  {
    if s != [] {
      if IsLowerAlnum(s[0]) {
        CollapseShape(s[1..]);
        ConsSlugText(s[0], Collapse(s[1..]));
      } else {
        var rest := DropRun(s);
        CollapseShape(rest);
        assert Collapse(s) == "-" + Collapse(rest);
        ConsSlugText('-', Collapse(rest));
      }
    }
  }

  /** `replace(/^-|-$/g, "")`: one hyphen at the start and one at the end. */
  function StripEdgeHyphens(s: string): (r: string)
  {
    var t := if |s| > 0 && s[0] == '-' then s[1..] else s;
    if |t| > 0 && t[|t| - 1] == '-' then t[..|t| - 1] else t
  }

  /** What a generated slug looks like. */
  predicate CleanSlug(s: string)
  {
    SlugText(s) && (|s| > 0 ==> s[0] != '-' && s[|s| - 1] != '-')
  }

  /** `generateSlug` (and the same chain in the setup route). */
  function GenerateSlug(name: string): (r: string)
    ensures CleanSlug(r)
  {
    var c := Collapse(StripMarks(Nfd(Lower(name))));
    CollapseShape(StripMarks(Nfd(Lower(name))));
    StripKeepsClean(c);
    StripEdgeHyphens(c)
  }

  lemma StripKeepsClean(s: string)
    requires SlugText(s)
    ensures CleanSlug(StripEdgeHyphens(s))
  {
    var t := if |s| > 0 && s[0] == '-' then s[1..] else s;
    assert NoDoubleHyphen(t) by {
      if |s| > 0 && s[0] == '-' {
        forall i | 0 <= i < |t| - 1 ensures !(t[i] == '-' && t[i + 1] == '-') {
          assert t[i] == s[i + 1] && t[i + 1] == s[i + 2];
        }
      }
    }
    if |s| > 1 && s[0] == '-' {
      assert t[0] == s[1] && s[1] != '-';
    }
    var r := StripEdgeHyphens(s);
    if |t| > 0 && t[|t| - 1] == '-' {
      assert r == t[..|t| - 1];
      if |t| >= 2 {
        assert r[|r| - 1] == t[|t| - 2] && t[|t| - 2] != '-';
      }
    }
  }

  /** A text that already is a clean slug is left alone. */
  lemma {:induction false} CollapseClean(s: string)
    requires SlugText(s)
    requires |s| > 0 ==> s[|s| - 1] != '-'
    ensures Collapse(s) == s
    decreases |s|
  {
    if s != [] {
      var t := s[1..];
      assert s == [s[0]] + t;
      SlugTextTail(s);
      if IsLowerAlnum(s[0]) {
        CollapseCons(s[0], t);
      } else {
        assert s[0] == '-' && |s| >= 2 && s[1] != '-';
        assert t[0] == s[1] && IsSlugChar(s[1]);
        CollapseHyphen(t);
      }
      CollapseClean(t);
    }
  }

  lemma SlugTextTail(s: string)
    requires SlugText(s) && s != []
    ensures SlugText(s[1..])
  {
    var t := s[1..];
    forall i | 0 <= i < |t| ensures IsSlugChar(t[i]) { assert t[i] == s[i + 1]; }
    forall i | 0 <= i < |t| - 1 ensures !(t[i] == '-' && t[i + 1] == '-') {
      assert t[i] == s[i + 1] && t[i + 1] == s[i + 2];
    }
  }

  lemma LowerSlugChars(s: string)
    requires forall i :: 0 <= i < |s| ==> IsSlugChar(s[i])
    ensures Lower(s) == s
  {
  }

  /** An input made of lower-case words of `[a-z0-9]` joined by single
      hyphens comes back unchanged. */
  lemma GenerateSlugOfClean(s: string)
    requires CleanSlug(s)
    ensures GenerateSlug(s) == s
  {
    LowerSlugChars(s);
    assert forall i :: 0 <= i < |s| ==> s[i] as int < 0xC0 && !IsCombiningMark(s[i]) by {
      forall i | 0 <= i < |s| ensures s[i] as int < 0xC0 && !IsCombiningMark(s[i]) {
        assert IsSlugChar(s[i]);
      }
    }
    assert Nfd(s) == s;
    assert StripMarks(s) == s;
    CollapseClean(s);
    assert StripEdgeHyphens(s) == s;
  }

  /** Generating a slug from a slug changes nothing. */
  lemma GenerateSlugIdempotent(name: string)
    ensures GenerateSlug(GenerateSlug(name)) == GenerateSlug(name)
  {
    GenerateSlugOfClean(GenerateSlug(name));
  }

  /** An accented Latin-1 letter, capital or small, comes out of the
      lower-case, decompose and strip stages as its base letter. */
  lemma AccentFolds(c: char)
    requires '\U{00E0}' <= LowerChar(c) <= '\U{00FF}' && LatinBases[LowerChar(c) as int - 0xE0] != ' '
    ensures StripMarks(Nfd(Lower([c]))) == [LatinBases[LowerChar(c) as int - 0xE0]]
    ensures IsLowerAlpha(StripMarks(Nfd(Lower([c])))[0])
  {
    var l := LowerChar(c);
    assert Lower([c]) == [l];
    var d := Decompose(l);
    assert |d| == 2;
    assert Nfd([l]) == d + Nfd([]);
    assert StripMarks(d) == [d[0]] + StripMarks([d[1]]);
  }

  /** A word of `[a-z0-9]` passes through the collapsing stage untouched. */
  lemma {:induction false} CollapseWord(x: string, rest: string)
    requires forall i :: 0 <= i < |x| ==> IsLowerAlnum(x[i])
    ensures Collapse(x + rest) == x + Collapse(rest)
  {
    if x != [] {
      assert x + rest == [x[0]] + (x[1..] + rest);
      CollapseCons(x[0], x[1..] + rest);
      CollapseWord(x[1..], rest);
      assert [x[0]] + (x[1..] + Collapse(rest)) == x + Collapse(rest);
    } else {
      assert x + rest == rest;
    }
  }

  lemma CollapseCons(c: char, t: string)
    requires IsLowerAlnum(c)
    ensures Collapse([c] + t) == [c] + Collapse(t)
  {
    assert ([c] + t)[0] == c && ([c] + t)[1..] == t;
  }

  lemma CollapseHyphen(t: string)
    requires t != [] && IsLowerAlnum(t[0])
    ensures Collapse("-" + t) == "-" + Collapse(t)
  {
    assert ("-" + t)[0] == '-' && ("-" + t)[1..] == t;
  }

  /** A run of separators is skipped as a whole. */
  lemma {:induction false} DropSeparators(sep: string, y: string)
    requires forall i :: 0 <= i < |sep| ==> !IsLowerAlnum(sep[i])
    requires y != [] && IsLowerAlnum(y[0])
    ensures DropRun(sep + y) == y
  {
    if sep == [] {
      assert sep + y == y;
    } else {
      assert (sep + y)[0] == sep[0] && (sep + y)[1..] == sep[1..] + y;
      DropSeparators(sep[1..], y);
    }
  }

  /** Characters below U+00C0 that are neither capitals nor in `[a-z0-9]`:
      spaces and ASCII punctuation. */
  predicate IsSeparator(c: char)
  {
    c as int < 0xC0 && !('A' <= c <= 'Z') && !IsLowerAlnum(c)
  }

  /** Text below U+00C0 without capitals passes the first three stages
      unchanged. */
  lemma PlainTextUnchanged(s: string)
    requires forall i :: 0 <= i < |s| ==> s[i] as int < 0xC0 && LowerChar(s[i]) == s[i]
    ensures StripMarks(Nfd(Lower(s))) == s
  {
    LowerUnchanged(s);
    NoAccentsUnchanged(s);
  }

  lemma NoAccentsUnchanged(s: string)
    requires forall i :: 0 <= i < |s| ==> s[i] as int < 0xC0
    ensures StripMarks(Nfd(s)) == s
  {
    assert Nfd(s) == s;
  }

  lemma LowerUnchanged(s: string)
    requires forall i :: 0 <= i < |s| ==> LowerChar(s[i]) == s[i]
    ensures Lower(s) == s
  {
  }

  lemma CollapseWords(x: string, sep: string, y: string)
    requires forall i :: 0 <= i < |x| ==> IsLowerAlnum(x[i])
    requires y != [] && forall i :: 0 <= i < |y| ==> IsLowerAlnum(y[i])
    requires sep != [] && forall i :: 0 <= i < |sep| ==> !IsLowerAlnum(sep[i])
    ensures Collapse(x + sep + y) == x + "-" + y
  {
    assert x + sep + y == x + (sep + y);
    CollapseWord(x, sep + y);
    CollapseSeparators(sep, y);
  }

  lemma CollapseSeparators(sep: string, y: string)
    requires y != [] && forall i :: 0 <= i < |y| ==> IsLowerAlnum(y[i])
    requires sep != [] && forall i :: 0 <= i < |sep| ==> !IsLowerAlnum(sep[i])
    ensures Collapse(sep + y) == "-" + y
  {
    assert (sep + y)[0] == sep[0];
    DropSeparators(sep, y);
    CollapseWord(y, []);
    assert y + [] == y;
  }

  lemma WordsArePlain(x: string, sep: string, y: string)
    requires forall i :: 0 <= i < |x| ==> IsLowerAlnum(x[i])
    requires forall i :: 0 <= i < |y| ==> IsLowerAlnum(y[i])
    requires forall i :: 0 <= i < |sep| ==> IsSeparator(sep[i])
    ensures var s := x + sep + y; forall i :: 0 <= i < |s| ==> s[i] as int < 0xC0 && LowerChar(s[i]) == s[i]
  {
    var s := x + sep + y;
    forall i | 0 <= i < |s| ensures s[i] as int < 0xC0 && LowerChar(s[i]) == s[i] {
      if i < |x| { assert s[i] == x[i] && IsLowerAlnum(x[i]); }
      else if i < |x| + |sep| { assert s[i] == sep[i - |x|] && IsSeparator(sep[i - |x|]); }
      else { assert s[i] == y[i - |x| - |sep|] && IsLowerAlnum(y[i - |x| - |sep|]); }
    }
  }

  /** Two words joined by any run of spaces or punctuation become the two
      words joined by one hyphen. */
  lemma GenerateSlugWords(x: string, sep: string, y: string)
    requires x != [] && forall i :: 0 <= i < |x| ==> IsLowerAlnum(x[i])
    requires y != [] && forall i :: 0 <= i < |y| ==> IsLowerAlnum(y[i])
    requires sep != [] && forall i :: 0 <= i < |sep| ==> IsSeparator(sep[i])
    ensures GenerateSlug(x + sep + y) == x + "-" + y
  {
    WordsArePlain(x, sep, y);
    PlainTextUnchanged(x + sep + y);
    CollapseWords(x, sep, y);
    var r := x + "-" + y;
    assert r[0] == x[0] && r[|r| - 1] == y[|y| - 1];
    assert StripEdgeHyphens(r) == r;
  }
}
