/** The texts of one card in the services list: the duration, the booking
    count and the labels that follow the `active` flag. */
module ServiceCard {
  import opened Common

  /** `formatDuration`: minutes below an hour as `"<m> min"`, whole hours as
      `"<h>h"`, and `"<h>h <m>min"` otherwise. */
  function FormatDuration(minutes: int): string
  {
    if minutes < 60 then IntText(minutes) + " min"
    else
      var h := minutes / 60;
      var m := minutes % 60;
      if m > 0 then NatToString(h) + ("h " + (NatToString(m) + "min")) else NatToString(h) + "h"
  }

  /** Reading a duration text back: a number, then ` min`, `h`, or `h `, a
      second number and `min`. Anything else is refused. */
  function ReadDuration(t: string): Option<int>
  {
    var a := DigitRun(t);
    if a == [] then None else ReadUnit(ParseDecimal(a), t[|a|..])
  }

  function ReadUnit(n: nat, rest: string): Option<int>
  {
    if rest == " min" then Some(n)
    else if rest == "h" then Some(60 * n)
    else if |rest| >= 2 && rest[..2] == "h " then ReadMinutesPart(60 * n, rest[2..])
    else None
  }

  function ReadMinutesPart(hours: nat, u: string): Option<int>
  {
    var b := DigitRun(u);
    if b != [] && u[|b|..] == "min" then Some(hours + ParseDecimal(b)) else None
  }

  /** The three shapes, with hours and minutes that add back up. */
  lemma FormatDurationShape(minutes: int)
    ensures 0 <= minutes < 60 ==> FormatDuration(minutes) == NatToString(minutes) + " min"
    ensures minutes >= 60 && minutes % 60 == 0 ==> FormatDuration(minutes) == NatToString(minutes / 60) + "h"
    ensures minutes >= 60 && minutes % 60 != 0 ==>
              1 <= minutes % 60 <= 59 && minutes / 60 * 60 + minutes % 60 == minutes
              && FormatDuration(minutes) == NatToString(minutes / 60) + ("h " + (NatToString(minutes % 60) + "min"))
  {
  }

  /** No information is lost: every duration of zero minutes or more reads back. */
  lemma ReadFormatDuration(minutes: int)
    requires minutes >= 0
    ensures ReadDuration(FormatDuration(minutes)) == Some(minutes)
  {
    if minutes < 60 {
      ReadMinutes(minutes);
    } else if minutes % 60 == 0 {
      ReadHours(minutes / 60);
    } else {
      ReadHoursMinutes(minutes / 60, minutes % 60);
    }
  }

  lemma ReadMinutes(m: nat)
    ensures ReadDuration(NatToString(m) + " min") == Some(m)
  {
    ReadNumberThen(m, " min");
  }

  lemma ReadHours(h: nat)
    ensures ReadDuration(NatToString(h) + "h") == Some(60 * h)
  {
    ReadNumberThen(h, "h");
  }

  lemma ReadHoursMinutes(h: nat, m: nat)
    ensures ReadDuration(NatToString(h) + ("h " + (NatToString(m) + "min"))) == Some(60 * h + m)
  {
    var rest := "h " + (NatToString(m) + "min");
    ReadNumberThen(h, rest);
    ReadAfterHours(h, m);
  }

  lemma ReadAfterHours(h: nat, m: nat)
    ensures ReadUnit(h, "h " + (NatToString(m) + "min")) == Some(60 * h + m)
  {
    var tail := NatToString(m) + "min";
    ReadHoursTail(h, tail);
    ReadMinutesTail(60 * h, m, tail);
  }

  lemma ReadHoursTail(n: nat, tail: string)
    ensures ReadUnit(n, "h " + tail) == ReadMinutesPart(60 * n, tail)
  {
    var rest := "h " + tail;
    assert rest[0] == 'h' && rest != " min" && rest != "h";
    assert rest[..2] == "h " && rest[2..] == tail;
  }

  lemma ReadMinutesTail(hours: nat, m: nat, tail: string)
    requires tail == NatToString(m) + "min"
    ensures ReadMinutesPart(hours, tail) == Some(hours + m)
  {
    DigitRunOfDigits(NatToString(m), "min");
    ParseNatToString(m);
    assert tail[|NatToString(m)|..] == "min";
  }

  /** A number written out, followed by a text that starts with no digit. */
  lemma ReadNumberThen(n: nat, rest: string)
    requires rest != [] && !IsDigit(rest[0])
    ensures ReadDuration(NatToString(n) + rest) == ReadUnit(n, rest)
  {
    DigitRunOfDigits(NatToString(n), rest);
    ParseNatToString(n);
    assert (NatToString(n) + rest)[|NatToString(n)|..] == rest;
  }

  /** `${count} agendamento(s)`. */
  function CountLabel(count: int): (r: string)
    ensures |r| == |IntText(count)| + (if count == 1 then 12 else 13)
    ensures r[|r| - 1] == 's' <==> count != 1
    ensures r[..|IntText(count)|] == IntText(count)
  {
    IntText(count) + " " + (if count == 1 then "agendamento" else "agendamentos")
  }

  /** The badge. */
  function BadgeLabel(active: bool): string
  {
    if active then "Ativo" else "Inativo"
  }

  /** The menu entry that toggles, and the value it sends. */
  function ToggleLabel(active: bool): string
  {
    if active then "Desativar" else "Ativar"
  }

  function ToggleRequest(active: bool): (r: bool)
    ensures r != active
  {
    !active
  }

  /** The menu offers the opposite of what the badge shows, and once the
      toggle is stored the badge changes. */
  lemma ToggleFlipsBadge(active: bool)
    ensures ToggleLabel(active) == (if BadgeLabel(active) == "Ativo" then "Desativar" else "Ativar")
    ensures BadgeLabel(ToggleRequest(active)) != BadgeLabel(active)
  {
  }
}
