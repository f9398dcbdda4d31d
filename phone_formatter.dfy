/** `formatPhoneNumber`: a Brazilian number in digits shown as
    `+55 (11) 9 9999-9999`. */
module PhoneFormatter {
  import opened Common
  import Validations

  /** `s.slice(a, b)` for `0 <= a <= b`: positions past the end are clamped. */
  function Slice(s: string, a: nat, b: nat): (r: string)
    requires a <= b
  {
    var hi := if b <= |s| then b else |s|;
    var lo := if a <= hi then a else hi;
    s[lo..hi]
  }

  /** Eleven digits (area code and a nine-digit number) get the country code. */
  function WithCountryCode(cleaned: string): string
  {
    if |cleaned| == 11 then "55" + cleaned else cleaned
  }

  /** The five pieces the format shows. */
  function Parts(w: string): (p: seq<string>)
  {
    [Slice(w, 0, 2), Slice(w, 2, 4), Slice(w, 4, 5), Slice(w, 5, 9), Slice(w, 9, if |w| > 9 then |w| else 9)]
  }

  function FormatPhoneNumber(phone: string): (r: string)
    ensures phone == "" <==> r == ""
  {
    if phone == "" then ""
    else
      var p := Parts(WithCountryCode(DigitsOnly(phone)));
      Render(p[0], p[1], p[2], p[3], p[4])
  }

  /** `+${countryCode} (${areaCode}) ${firstPart} ${secondPart}-${thirdPart}`. */
  function Render(cc: string, ddd: string, first: string, second: string, third: string): string
  {
    "+" + cc + " (" + ddd + ") " + first + " " + second + "-" + third
  }

  /** Only the pieces contribute digits. */
  lemma RenderDigits(cc: string, ddd: string, first: string, second: string, third: string)
    requires AllDigits(cc) && AllDigits(ddd) && AllDigits(first) && AllDigits(second) && AllDigits(third)
    ensures DigitsOnly(Render(cc, ddd, first, second, third)) == cc + ddd + first + second + third
  {
    var t1 := "+" + cc;
    DigitsOnlyConcat("+", cc);
    DigitsOnlyOfDigits(cc);
    var t2 := t1 + " (" + ddd;
    AppendPiece(t1, " (", ddd);
    var t3 := t2 + ") " + first;
    AppendPiece(t2, ") ", first);
    var t4 := t3 + " " + second;
    AppendPiece(t3, " ", second);
    AppendPiece(t4, "-", third);
  }

  /** A separator without digits followed by a piece of digits adds just the piece. */
  lemma AppendPiece(prefix: string, sep: string, piece: string)
    requires NoDigits(sep) && AllDigits(piece)
    ensures DigitsOnly(prefix + sep + piece) == DigitsOnly(prefix) + piece
  {
    DigitsOnlyConcat(prefix + sep, piece);
    DigitsOnlyConcat(prefix, sep);
    DigitsOnlyOfText(sep);
    DigitsOnlyOfDigits(piece);
  }

  predicate NoDigits(s: string) { forall i :: 0 <= i < |s| ==> !IsDigit(s[i]) }

  lemma {:induction false} DigitsOnlyOfText(s: string)
    requires NoDigits(s)
    ensures DigitsOnly(s) == []
  {
    if s != [] {
      DigitsOnlyOfText(s[1..]);
    }
  }

  /** The pieces cut the digit string without gap or overlap. */
  lemma PartsPartition(w: string)
    ensures var p := Parts(w); p[0] + p[1] + p[2] + p[3] + p[4] == w
  {
    var end := if |w| > 9 then |w| else 9;
    SliceJoin(w, 0, 2, 4);
    SliceJoin(w, 0, 4, 5);
    SliceJoin(w, 0, 5, 9);
    SliceJoin(w, 0, 9, end);
  }

  /** Two adjacent slices make the slice that spans both. */
  lemma SliceJoin(s: string, a: nat, b: nat, c: nat)
    requires a <= b <= c
    ensures Slice(s, a, b) + Slice(s, b, c) == Slice(s, a, c)
  {
    var hi := if c <= |s| then c else |s|;
    var mid := if b <= hi then b else hi;
    var lo := if a <= mid then a else mid;
    assert s[lo..mid] + s[mid..hi] == s[lo..hi];
  }

  /** The text around the digits carries no digit: stripping the non-digits
      from the output gives back the (prefixed) digit string. */
  lemma FormattedDigits(phone: string)
    requires phone != ""
    ensures DigitsOnly(FormatPhoneNumber(phone)) == WithCountryCode(DigitsOnly(phone))
  {
    var w := WithCountryCode(DigitsOnly(phone));
    assert AllDigits(w) by {
      if |DigitsOnly(phone)| == 11 {
        assert forall i :: 2 <= i < |w| ==> w[i] == DigitsOnly(phone)[i - 2];
      }
    }
    var p := Parts(w);
    PartsPartition(w);
    PieceDigits(w, 0, 2);
    PieceDigits(w, 2, 4);
    PieceDigits(w, 4, 5);
    PieceDigits(w, 5, 9);
    PieceDigits(w, 9, if |w| > 9 then |w| else 9);
    RenderDigits(p[0], p[1], p[2], p[3], p[4]);
  }

  lemma PieceDigits(w: string, a: nat, b: nat)
    requires a <= b && AllDigits(w)
    ensures AllDigits(Slice(w, a, b))
  {
  }

  /** A number that is not eleven digits long is shown unchanged by a second
      pass; eleven digits would get the country code again. */
  lemma FormatTwice(phone: string)
    requires phone != "" && |WithCountryCode(DigitsOnly(phone))| != 11
    ensures FormatPhoneNumber(FormatPhoneNumber(phone)) == FormatPhoneNumber(phone)
  {
    FormattedDigits(phone);
    var w := WithCountryCode(DigitsOnly(phone));
    assert WithCountryCode(DigitsOnly(FormatPhoneNumber(phone))) == w;
  }

  /** Pieces of the lengths the format expects come back as the parts. */
  lemma PartsOfPieces(cc: string, ddd: string, first: string, second: string, third: string)
    requires |cc| == 2 && |ddd| == 2 && |first| == 1 && |second| == 4
    ensures Parts(cc + ddd + first + second + third) == [cc, ddd, first, second, third]
  {
    var w := cc + ddd + first + second + third;
    assert w[..2] == cc;
    assert w[2..4] == ddd;
    assert w[4..5] == first;
    assert w[5..9] == second;
    assert w[9..] == third;
    assert Slice(w, 0, 2) == cc && Slice(w, 2, 4) == ddd && Slice(w, 4, 5) == first;
    assert Slice(w, 5, 9) == second && Slice(w, 9, |w|) == third;
  }

  /** The documented example. */
  lemma FormatExample(phone: string)
    requires phone == "5511999999999"
    ensures FormatPhoneNumber(phone) == "+55 (11) 9 9999-9999"
  {
    ExampleParts(phone);
    ExampleRendered();
  }

  lemma ExampleParts(phone: string)
    requires phone == "5511999999999"
    ensures Parts(WithCountryCode(DigitsOnly(phone))) == ["55", "11", "9", "9999", "9999"]
  {
    var cc, ddd, first, second, third := "55", "11", "9", "9999", "9999";
    assert phone == cc + ddd + first + second + third;
    assert AllDigits(phone);
    DigitsOnlyOfDigits(phone);
    assert WithCountryCode(DigitsOnly(phone)) == phone;
    PartsOfPieces(cc, ddd, first, second, third);
  }

  lemma ExampleRendered()
    ensures Render("55", "11", "9", "9999", "9999") == "+55 (11) 9 9999-9999"
  {
  }

  /** A stored WhatsApp number (`55`, area code and number) keeps all its
      digits in the display. */
  lemma StoredNumberShown(phone: string)
    requires Validations.IsBrazilPhone(phone)
    ensures DigitsOnly(FormatPhoneNumber(phone)) == phone
  {
    Validations.BrazilPhoneDigits(phone);
    DigitsOnlyOfDigits(phone);
    FormattedDigits(phone);
  }
}
