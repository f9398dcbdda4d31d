/** Shared vocabulary: failure-carrying results and the JavaScript string
    operations the application code relies on (replace, trim, toLowerCase,
    padStart, includes, split, join, Number-to-string). */
module Common {

  datatype Option<T> = None | Some(value: T)

  /** What the server actions return: `{ success: true, message }` or
      `{ success: false, error }`, the error being the text shown to the
      user. */
  datatype Response = Success(message: string) | Failure(error: string)

  // ---------------------------------------------------------------------
  // Characters
  // ---------------------------------------------------------------------

  /** `\d` in a JavaScript regular expression without the `u` flag. */
  predicate IsDigit(c: char) { '0' <= c <= '9' }

  predicate IsLowerAlpha(c: char) { 'a' <= c <= 'z' }

  /** The class `[a-z0-9]`. */
  predicate IsLowerAlnum(c: char) { IsLowerAlpha(c) || IsDigit(c) }

  /** The characters `String.prototype.trim` removes (WhiteSpace and LineTerminator). */
  predicate IsJsWhitespace(c: char)
  {
    c == ' ' || c == '\t' || c == '\n' || c == '\r' || c == '\U{000B}' || c == '\U{000C}'
    || c == '\U{00A0}' || c == '\U{1680}' || ('\U{2000}' <= c <= '\U{200A}')
    || c == '\U{2028}' || c == '\U{2029}' || c == '\U{202F}' || c == '\U{205F}'
    || c == '\U{3000}' || c == '\U{FEFF}'
  }

  /** `toLowerCase` on one character, for ASCII and the Latin-1 capitals. */
  function LowerChar(c: char): (r: char)
    ensures 'A' <= c <= 'Z' ==> IsLowerAlpha(r) && r as int == c as int + 32
    ensures !('A' <= c <= 'Z') && !('\U{00C0}' <= c <= '\U{00DE}') ==> r == c
  {
    if 'A' <= c <= 'Z' then (c as int + 32) as char
    else if '\U{00C0}' <= c <= '\U{00DE}' && c != '\U{00D7}' then (c as int + 32) as char
    else c
  }

  function Lower(s: string): (r: string)
    ensures |r| == |s|
    ensures forall i :: 0 <= i < |s| ==> r[i] == LowerChar(s[i])
  {
    if s == [] then [] else [LowerChar(s[0])] + Lower(s[1..])
  }

  /** `toLowerCase` of a word of capitals is the word shifted by 32. */
  lemma LowerOfCapitals(e: string, k: string)
    requires |e| == |k|
    requires forall n :: 0 <= n < |e| ==> 'A' <= e[n] <= 'Z' && k[n] as int == e[n] as int + 32
    ensures Lower(e) == k
  {
  }

  lemma LowerCharIdempotent(c: char)
    ensures LowerChar(LowerChar(c)) == LowerChar(c)
  {
  }

  /** `s.length`: JavaScript counts UTF-16 code units, so a character
      outside the Basic Multilingual Plane (an emoji) counts twice. */
  function JsLength(s: string): (n: nat)
    ensures |s| <= n <= 2 * |s|
    ensures (forall i :: 0 <= i < |s| ==> s[i] as int <= 0xFFFF) ==> n == |s|
  {
    if s == [] then 0 else (if s[0] as int > 0xFFFF then 2 else 1) + JsLength(s[1..])
  }

  lemma {:induction false} JsLengthConcat(a: string, b: string)
    ensures JsLength(a + b) == JsLength(a) + JsLength(b)
    decreases |a|
  {
    if a != [] {
      assert (a + b)[1..] == a[1..] + b;
      JsLengthConcat(a[1..], b);
    } else {
      assert a + b == b;
    }
  }

  // ---------------------------------------------------------------------
  // Digits
  // ---------------------------------------------------------------------

  /** `s.replace(/\D/g, "")`: keep the decimal digits, in order. */
  function DigitsOnly(s: string): (r: string)
    ensures |r| <= |s|
    ensures forall i :: 0 <= i < |r| ==> IsDigit(r[i])
  {
    if s == [] then []
    else if IsDigit(s[0]) then [s[0]] + DigitsOnly(s[1..])
    else DigitsOnly(s[1..])
  }

  predicate AllDigits(s: string) { forall i :: 0 <= i < |s| ==> IsDigit(s[i]) }

  lemma {:induction false} DigitsOnlyOfDigits(s: string)
    requires AllDigits(s)
    ensures DigitsOnly(s) == s
  {
    if s != [] {
      DigitsOnlyOfDigits(s[1..]);
    }
  }

  lemma {:induction false} DigitsOnlyConcat(a: string, b: string)
    ensures DigitsOnly(a + b) == DigitsOnly(a) + DigitsOnly(b)
  {
    if a == [] {
      assert a + b == b;
    } else {
      assert (a + b)[1..] == a[1..] + b;
      DigitsOnlyConcat(a[1..], b);
    }
  }

  function DigitValue(c: char): (n: nat)
    requires IsDigit(c)
    ensures n < 10
  {
    c as int - '0' as int
  }

  function DigitChar(n: nat): (c: char)
    requires n < 10
    ensures IsDigit(c) && DigitValue(c) == n
  {
    ('0' as int + n) as char
  }

  /** The value of a string of decimal digits (the empty string is 0, as `Number("")`). */
  function ParseDecimal(s: string): nat
    requires AllDigits(s)
  {
    if s == [] then 0 else ParseDecimal(s[..|s| - 1]) * 10 + DigitValue(s[|s| - 1])
  }

  /** `String(n)` for a natural number. */
  function NatToString(n: nat): (r: string)
    ensures |r| >= 1 && AllDigits(r)
    ensures n < 10 ==> |r| == 1
    decreases n
  {
    if n < 10 then [DigitChar(n)] else NatToString(n / 10) + [DigitChar(n % 10)]
  }

  /** The longest prefix of decimal digits. */
  function DigitRun(s: string): (r: string)
    ensures |r| <= |s| && r == s[..|r|] && AllDigits(r)
    ensures |r| < |s| ==> !IsDigit(s[|r|])
  {
    if s == [] || !IsDigit(s[0]) then [] else [s[0]] + DigitRun(s[1..])
  }

  /** Digits followed by anything that does not start with a digit: the
      run is exactly those digits. */
  lemma {:induction false} DigitRunOfDigits(d: string, rest: string)
    requires AllDigits(d) && (rest == [] || !IsDigit(rest[0]))
    ensures DigitRun(d + rest) == d
  {
    if d == [] {
      assert d + rest == rest;
    } else {
      assert (d + rest)[1..] == d[1..] + rest;
      DigitRunOfDigits(d[1..], rest);
    }
  }

  /** `String(n)` (or `${n}`) for an integer. */
  function IntText(n: int): string
  {
    if n < 0 then "-" + NatToString(-n) else NatToString(n)
  }

  lemma {:induction false} ParseNatToString(n: nat)
    ensures ParseDecimal(NatToString(n)) == n
    decreases n
  {
    if n >= 10 {
      var s := NatToString(n);
      assert s[..|s| - 1] == NatToString(n / 10);
      ParseNatToString(n / 10);
    }
  }

  /** `String(n).padStart(2, "0")` for a natural number below 100. */
  function Pad2(n: nat): (r: string)
    requires n < 100
    ensures |r| == 2 && AllDigits(r)
    ensures DigitValue(r[0]) == n / 10 && DigitValue(r[1]) == n % 10
  {
    [DigitChar(n / 10), DigitChar(n % 10)]
  }

  /** Four-digit, zero-padded year, as date formatting prints it for years below 10000. */
  function Pad4(n: nat): (r: string)
    requires n < 10000
    ensures |r| == 4 && AllDigits(r)
    ensures ParseDecimal(r) == n
  {
    var q1 := n / 10;
    var q2 := q1 / 10;
    var q3 := q2 / 10;
    assert n == q1 * 10 + n % 10 && q1 == q2 * 10 + q1 % 10 && q2 == q3 * 10 + q2 % 10;
    assert q3 < 10;
    ParseFourDigits(q3, q2 % 10, q1 % 10, n % 10);
    [DigitChar(q3), DigitChar(q2 % 10), DigitChar(q1 % 10), DigitChar(n % 10)]
  }

  lemma ParseFourDigits(a: nat, b: nat, c: nat, d: nat)
    requires a < 10 && b < 10 && c < 10 && d < 10
    ensures ParseDecimal([DigitChar(a), DigitChar(b), DigitChar(c), DigitChar(d)]) == ((a * 10 + b) * 10 + c) * 10 + d
  {
    var r := [DigitChar(a), DigitChar(b), DigitChar(c), DigitChar(d)];
    assert r[..3][..2][..1] == [r[0]] && r[..3][..2] == r[..2] && r[..3][..2][..1][..0] == [];
    assert ParseDecimal([r[0]]) == a;
    assert ParseDecimal(r[..2]) == a * 10 + b;
    assert ParseDecimal(r[..3]) == (a * 10 + b) * 10 + c;
  }

  lemma Pad2Parse(n: nat)
    requires n < 100
    ensures ParseDecimal(Pad2(n)) == n
  {
    var r := Pad2(n);
    assert r[..1] == [r[0]] && r[..1][..0] == [];
    assert ParseDecimal(r[..1]) == n / 10;
  }

  // ---------------------------------------------------------------------
  // Substrings
  // ---------------------------------------------------------------------

  /** `s.includes(p)`. */
  predicate Contains(s: string, p: string)
    decreases |s|
  {
    p <= s || (s != [] && Contains(s[1..], p))
  }

  lemma {:induction false} ContainsAt(s: string, p: string, i: nat)
    requires i + |p| <= |s| && s[i..i + |p|] == p
    ensures Contains(s, p)
    decreases i
  {
    if i > 0 {
      assert s[1..][i - 1..i - 1 + |p|] == s[i..i + |p|];
      ContainsAt(s[1..], p, i - 1);
    }
  }

  lemma {:induction false} ContainsPrefixOfPattern(s: string, p: string, q: string)
    requires Contains(s, p + q)
    ensures Contains(s, p)
    decreases |s|
  {
    if p + q <= s {
      assert (p + q)[..|p|] == p;
      assert s[..|p|] == (p + q)[..|p|];
    } else {
      ContainsPrefixOfPattern(s[1..], p, q);
    }
  }

  /** A pattern with a character the string lacks does not occur in it. */
  lemma {:induction false} NotContainsMissingChar(s: string, p: string, k: nat)
    requires k < |p| && p[k] !in s
    ensures !Contains(s, p)
    decreases |s|
  {
    if s != [] {
      assert forall c :: c in s[1..] ==> c in s;
      NotContainsMissingChar(s[1..], p, k);
    }
  }

  /** `s.replace(p, v)` with a string pattern: only the first occurrence. */
  function ReplaceFirst(s: string, p: string, v: string): (r: string)
    requires p != []
    ensures !Contains(s, p) ==> r == s
    decreases |s|
  {
    if |s| < |p| then s
    else if s[..|p|] == p then v + s[|p|..]
    else [s[0]] + ReplaceFirst(s[1..], p, v)
  }

  /** The replacement text `String.prototype.replace` inserts for one match
      of a pattern without capture groups: `$$` is a dollar sign, `$&` the
      matched text, `` $` `` the text before the match and `$'` the text
      after it; every other character, a `$` before anything else included,
      is copied as it is. */
  function Substitution(v: string, before: string, matched: string, after: string): (r: string)
    ensures (forall i :: 0 <= i < |v| ==> v[i] != '$') ==> r == v
    decreases |v|
  {
    if v == [] then []
    else if |v| >= 2 && v[0] == '$' && v[1] == '$' then "$" + Substitution(v[2..], before, matched, after)
    else if |v| >= 2 && v[0] == '$' && v[1] == '&' then matched + Substitution(v[2..], before, matched, after)
    else if |v| >= 2 && v[0] == '$' && v[1] == '`' then before + Substitution(v[2..], before, matched, after)
    else if |v| >= 2 && v[0] == '$' && v[1] == '\'' then after + Substitution(v[2..], before, matched, after)
    else [v[0]] + Substitution(v[1..], before, matched, after)
  }

  /** `s.replace(new RegExp(p, "g"), v)` for a pattern that matches the literal `p`:
      every leftmost, non-overlapping occurrence, scanning left to right,
      becomes the substitution of `v`; `before` is the text already scanned. */
  function ReplaceAllAfter(before: string, s: string, p: string, v: string): (r: string)
    requires p != []
    ensures !Contains(s, p) ==> r == s
    decreases |s|
  {
    if |s| < |p| then s
    else if s[..|p|] == p then Substitution(v, before, p, s[|p|..]) + ReplaceAllAfter(before + p, s[|p|..], p, v)
    else [s[0]] + ReplaceAllAfter(before + [s[0]], s[1..], p, v)
  }

  function ReplaceAll(s: string, p: string, v: string): (r: string)
    requires p != []
    ensures !Contains(s, p) ==> r == s
  {
    ReplaceAllAfter([], s, p, v)
  }

  /** `$&` puts every match back: the replace leaves the text as it was. */
  lemma {:induction false} ReplaceWithMatchIsIdentity(before: string, s: string, p: string)
    requires p != []
    ensures ReplaceAllAfter(before, s, p, "$&") == s
    decreases |s|
  {
    if |s| >= |p| {
      if s[..|p|] == p {
        var after := s[|p|..];
        assert Substitution("$&", before, p, after) == p + Substitution("", before, p, after);
        ReplaceWithMatchIsIdentity(before + p, after, p);
        assert s == p + after;
      } else {
        ReplaceWithMatchIsIdentity(before + [s[0]], s[1..], p);
        assert s == [s[0]] + s[1..];
      }
    }
  }

  /** `lines.join(sep)`. */
  function Join(lines: seq<string>, sep: string): (r: string)
    ensures |lines| == 1 ==> r == lines[0]
  {
    if lines == [] then [] else if |lines| == 1 then lines[0] else lines[0] + sep + Join(lines[1..], sep)
  }

  lemma {:induction false} JoinContainsLine(lines: seq<string>, sep: string, k: nat, p: string)
    requires k < |lines| && Contains(lines[k], p)
    ensures Contains(Join(lines, sep), p)
  {
    if |lines| > 1 {
      if k == 0 {
        ContainsInConcat(lines[0], sep + Join(lines[1..], sep), p);
        assert lines[0] + sep + Join(lines[1..], sep) == lines[0] + (sep + Join(lines[1..], sep));
      } else {
        JoinContainsLine(lines[1..], sep, k - 1, p);
        ContainsInSuffix(lines[0] + sep, Join(lines[1..], sep), p);
      }
    }
  }

  /** Every character of a join comes from a line or from the separator. */
  lemma {:induction false} JoinChars(lines: seq<string>, sep: string, c: char)
    requires c in Join(lines, sep)
    ensures c in sep || exists k :: 0 <= k < |lines| && c in lines[k]
  {
    if |lines| > 1 {
      var rest := Join(lines[1..], sep);
      assert Join(lines, sep) == lines[0] + sep + rest;
      if c in rest && c !in sep {
        JoinChars(lines[1..], sep, c);
        var k :| 0 <= k < |lines[1..]| && c in lines[1..][k];
        assert c in lines[k + 1];
      } else if c !in sep {
        assert c in lines[0];
      }
    } else if |lines| == 1 {
      assert c in lines[0];
    }
  }

  lemma {:induction false} JoinEndsWithLastLine(lines: seq<string>, sep: string)
    requires |lines| >= 1
    ensures Join(lines, sep)[..] == Join(lines[..|lines| - 1], sep) + (if |lines| == 1 then [] else sep) + lines[|lines| - 1]
  {
    if |lines| > 2 {
      JoinEndsWithLastLine(lines[1..], sep);
      assert lines[1..][..|lines[1..]| - 1] == lines[..|lines| - 1][1..];
    } else if |lines| == 2 {
      assert lines[..1] == [lines[0]];
    }
  }

  lemma {:induction false} ContainsInConcat(a: string, b: string, p: string)
    requires Contains(a, p)
    ensures Contains(a + b, p)
    decreases |a|
  {
    if p <= a {
      assert a + b == a + b;
      assert (a + b)[..|p|] == a[..|p|];
    } else {
      assert (a + b)[1..] == a[1..] + b;
      ContainsInConcat(a[1..], b, p);
    }
  }

  lemma {:induction false} ContainsInSuffix(a: string, b: string, p: string)
    requires Contains(b, p)
    ensures Contains(a + b, p)
    decreases |a|
  {
    if a == [] {
      assert a + b == b;
    } else {
      assert (a + b)[1..] == a[1..] + b;
      ContainsInSuffix(a[1..], b, p);
    }
  }

  /** A text contains whatever stands between a prefix and a suffix of it. */
  lemma ContainsMiddle(a: string, p: string, b: string)
    ensures Contains(a + p + b, p)
  {
    assert (a + p + b)[|a|..|a| + |p|] == p;
    ContainsAt(a + p + b, p, |a|);
  }

  /** A line of the form `a + p + b` puts `p` into the joined text. */
  lemma JoinContainsMiddle(lines: seq<string>, sep: string, k: nat, a: string, p: string, b: string)
    requires k < |lines| && lines[k] == a + p + b
    ensures Contains(Join(lines, sep), p)
  {
    ContainsMiddle(a, p, b);
    JoinContainsLine(lines, sep, k, p);
  }

  /** `text` ends with the separator followed by `last`. */
  predicate EndsWithLine(text: string, sep: string, last: string)
  {
    |text| >= |sep| + |last| && text[|text| - |sep| - |last|..] == sep + last
  }

  lemma JoinEndsWithLine(lines: seq<string>, sep: string)
    requires |lines| >= 2
    ensures EndsWithLine(Join(lines, sep), sep, lines[|lines| - 1])
  {
    JoinEndsWithLastLine(lines, sep);
    var head := Join(lines[..|lines| - 1], sep);
    assert Join(lines, sep) == head + (sep + lines[|lines| - 1]);
  }

  // ---------------------------------------------------------------------
  // Trimming
  // ---------------------------------------------------------------------

  function LeadingSpace(s: string): (n: nat)
    ensures n <= |s|
    ensures forall i :: 0 <= i < n ==> IsJsWhitespace(s[i])
    ensures n < |s| ==> !IsJsWhitespace(s[n])
  {
    if s == [] || !IsJsWhitespace(s[0]) then 0 else 1 + LeadingSpace(s[1..])
  }

  function TrailingSpace(s: string): (n: nat)
    ensures n <= |s|
    ensures forall i :: |s| - n <= i < |s| ==> IsJsWhitespace(s[i])
    ensures n < |s| ==> !IsJsWhitespace(s[|s| - 1 - n])
  {
    if s == [] || !IsJsWhitespace(s[|s| - 1]) then 0 else 1 + TrailingSpace(s[..|s| - 1])
  }

  /** `s.trim()`. */
  function Trim(s: string): (r: string)
    ensures r == [] || (!IsJsWhitespace(r[0]) && !IsJsWhitespace(r[|r| - 1]))
    ensures r == [] <==> forall i :: 0 <= i < |s| ==> IsJsWhitespace(s[i])
    ensures |r| <= |s|
  {
    var a := LeadingSpace(s);
    if a == |s| then []
    else
      var b := TrailingSpace(s);
      assert b < |s|;
      assert |s| - 1 - b >= a by { assert !IsJsWhitespace(s[|s| - 1 - b]); }
      s[a..|s| - b]
  }

  /** `x || null` for an optional text: the empty string is falsy. */
  function OrNull(s: Option<string>): (r: Option<string>)
    ensures r.Some? <==> s.Some? && s.value != ""
    ensures r.Some? ==> r == s
  {
    if s.Some? && s.value != "" then s else None
  }

  /** A submitted form as its text fields. */
  type Form = map<string, string>

  /** `String(formData.get(key))`: a missing field reads as `"null"`. */
  function FormText(form: Form, key: string): (r: string)
    ensures key in form ==> r == form[key]
    ensures key !in form ==> r == "null"
  {
    if key in form then form[key] else "null"
  }

  // ---------------------------------------------------------------------
  // Ordering
  // ---------------------------------------------------------------------

  /** `a < b` on strings: lexicographic order of code points. */
  predicate StrLt(a: string, b: string)
    decreases |a|
  {
    if a == [] then b != []
    else if b == [] then false
    else if a[0] != b[0] then a[0] < b[0]
    else StrLt(a[1..], b[1..])
  }

  lemma {:induction false} StrLtIrreflexive(a: string)
    ensures !StrLt(a, a)
    decreases |a|
  {
    if a != [] {
      StrLtIrreflexive(a[1..]);
    }
  }

  lemma {:induction false} StrLtTransitive(a: string, b: string, c: string)
    requires StrLt(a, b) && StrLt(b, c)
    ensures StrLt(a, c)
    decreases |a|
  {
    if a != [] && a[0] == b[0] && b[0] == c[0] {
      StrLtTransitive(a[1..], b[1..], c[1..]);
    }
  }

  /** Any two different strings are ordered one way or the other. */
  lemma {:induction false} StrLtTotal(a: string, b: string)
    requires a != b
    ensures StrLt(a, b) || StrLt(b, a)
    decreases |a|
  {
    if a != [] && b != [] && a[0] == b[0] {
      assert a == [a[0]] + a[1..] && b == [b[0]] + b[1..];
      StrLtTotal(a[1..], b[1..]);
    }
  }

  /** `split(sep)` with a one-character separator. */
  function Split(s: string, sep: char): (parts: seq<string>)
    ensures |parts| >= 1
    ensures forall k :: 0 <= k < |parts| ==> sep !in parts[k]
    decreases |s|
  {
    if s == [] then [[]]
    else
      var rest := Split(s[1..], sep);
      if s[0] == sep then [[]] + rest
      else [[s[0]] + rest[0]] + rest[1..]
  }
}
