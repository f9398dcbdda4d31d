/** The template editor of the WhatsApp settings page: the preview renderer,
    the variable splice at the cursor, the per-card edit state with its
    save/reset/cancel handlers, and the list of cards with its update. */
module TemplateManager {
  import opened Common
  import opened Domain
  import opened TemplateConstants
  import opened WhatsAppTemplates

  /** `SAMPLE_VARIABLES`, in `Object.entries` order. */
  const SampleVariables: seq<(string, string)> :=
    [("nome", "João Silva"), ("serviço", "Corte de Cabelo"),
     ("data", "25/02/2026 às 14:00"), ("organização", "Salão Exemplo")]

  /** `MAX_CHARS`. */
  const MaxChars := 1000

  // ---------------------------------------------------------------------
  // Preview: `split(/(\*[^*]+\*|_[^_]+_)/g)`
  // ---------------------------------------------------------------------

  predicate IsMarker(c: char) { c == '*' || c == '_' }

  /** The first index at or after `k` holding `c`. */
  function NextIndexOf(s: string, c: char, k: nat): (r: Option<nat>)
    requires k <= |s|
    ensures r.Some? ==> k <= r.value < |s| && s[r.value] == c
                        && forall j :: k <= j < r.value ==> s[j] != c
    ensures r.None? ==> forall j :: k <= j < |s| ==> s[j] != c
    decreases |s| - k
  {
    if k == |s| then None else if s[k] == c then Some(k) else NextIndexOf(s, c, k + 1)
  }

  /** Where a match of the pattern starting at `i` ends: a marker, at least
      one other character, and the next copy of the same marker. */
  function MatchEnd(s: string, i: nat): (r: Option<nat>)
    requires i < |s|
    ensures r.Some? ==> i + 3 <= r.value <= |s|
  {
    if !IsMarker(s[i]) then None
    else match NextIndexOf(s, s[i], i + 1)
      case None => None
      case Some(j) => if j == i + 1 then None else Some(j + 1)
  }

  /** A segment the pattern matches: a marker, then at least one character
      other than that marker, then the marker again. */
  predicate IsSpan(p: string)
  {
    |p| >= 3 && IsMarker(p[0]) && p[|p| - 1] == p[0]
    && forall k :: 1 <= k < |p| - 1 ==> p[k] != p[0]
  }

  /** The split, scanning from `i` with the current text part begun at
      `start`: text parts and captured matches alternate, text first. */
  function SplitFrom(s: string, start: nat, i: nat): (parts: seq<string>)
    requires start <= i <= |s|
    ensures |parts| % 2 == 1
    decreases |s| - i
  {
    if i == |s| then [s[start..]]
    else match MatchEnd(s, i)
      case None => SplitFrom(s, start, i + 1)
      case Some(e) => [s[start..i], s[i..e]] + SplitFrom(s, e, e)
  }

  function SplitMarkers(s: string): (parts: seq<string>)
  {
    SplitFrom(s, 0, 0)
  }

  lemma {:induction false} SplitFromJoin(s: string, start: nat, i: nat)
    requires start <= i <= |s|
    ensures Join(SplitFrom(s, start, i), "") == s[start..]
    decreases |s| - i
  {
    if i < |s| {
      match MatchEnd(s, i)
      case None => SplitFromJoin(s, start, i + 1);
      case Some(e) =>
        var rest := SplitFrom(s, e, e);
        SplitFromJoin(s, e, e);
        JoinTwoThen(s[start..i], s[i..e], rest);
        assert s[start..] == s[start..i] + (s[i..e] + s[e..]);
    }
  }

  lemma JoinTwoThen(a: string, b: string, rest: seq<string>)
    requires |rest| >= 1
    ensures Join([a, b] + rest, "") == a + (b + Join(rest, ""))
  {
    var parts := [a, b] + rest;
    var tail := [b] + rest;
    assert parts[0] == a && parts[1..] == tail && |parts| >= 2;
    assert tail[0] == b && tail[1..] == rest && |tail| >= 2;
    var j := Join(rest, "");
    assert Join(tail, "") == b + "" + j;
    assert b + "" == b;
    assert Join(parts, "") == a + "" + (b + j);
    assert a + "" == a;
  }

  /** Putting the parts back together gives the text. */
  lemma SplitMarkersJoin(s: string)
    ensures Join(SplitMarkers(s), "") == s
  {
    SplitFromJoin(s, 0, 0);
  }

  lemma MatchEndSpan(s: string, i: nat)
    requires i < |s| && MatchEnd(s, i).Some?
    ensures IsSpan(s[i..MatchEnd(s, i).value])
  {
    var j := NextIndexOf(s, s[i], i + 1).value;
    var p := s[i..j + 1];
    forall k | 1 <= k < |p| - 1 ensures p[k] != p[0] {
      assert p[k] == s[i + k];
    }
  }

  /** Every odd-numbered part is a captured match. */
  lemma {:induction false} SplitFromSpans(s: string, start: nat, i: nat, k: nat)
    requires start <= i <= |s| && k < |SplitFrom(s, start, i)| && k % 2 == 1
    ensures IsSpan(SplitFrom(s, start, i)[k])
    decreases |s| - i
  {
    if i < |s| {
      match MatchEnd(s, i)
      case None => SplitFromSpans(s, start, i + 1, k);
      case Some(e) =>
        if k == 1 {
          MatchEndSpan(s, i);
        } else {
          SplitFromSpans(s, e, e, k - 2);
        }
    }
  }

  /** A span that begins at `j` is what the pattern matches from `j`. */
  lemma SpanStartsMatch(s: string, j: nat, y: nat)
    requires j < y <= |s| && IsSpan(s[j..y])
    ensures MatchEnd(s, j).Some?
  {
    var p := s[j..y];
    assert p[0] == s[j] && p[1] == s[j + 1] && p[|p| - 1] == s[y - 1];
    assert s[j + 1] != s[j];
    assert s[y - 1] == s[j] && j + 1 < y - 1;
  }

  /** Every even-numbered part is plain text: no segment of it is a span,
      since the scan found no match starting inside it. */
  lemma {:induction false} SplitFromTextParts(s: string, start: nat, i: nat, k: nat)
    requires start <= i <= |s| && k < |SplitFrom(s, start, i)| && k % 2 == 0
    requires forall j :: start <= j < i ==> MatchEnd(s, j).None?
    ensures var part := SplitFrom(s, start, i)[k];
            forall x, y :: 0 <= x < y <= |part| ==> !IsSpan(part[x..y])
    decreases |s| - i
  {
    var part := SplitFrom(s, start, i)[k];
    if i == |s| {
      assert part == s[start..i];
      NoSpanBefore(s, start, i);
    } else {
      match MatchEnd(s, i)
      case None => SplitFromTextParts(s, start, i + 1, k);
      case Some(e) =>
        if k == 0 {
          assert part == s[start..i];
          NoSpanBefore(s, start, i);
        } else {
          SplitFromTextParts(s, e, e, k - 2);
        }
    }
  }

  /** No segment of `s[start..i]` is a span when no match starts in it. */
  lemma NoSpanBefore(s: string, start: nat, i: nat)
    requires start <= i <= |s|
    requires forall j :: start <= j < i ==> MatchEnd(s, j).None?
    ensures forall x, y :: 0 <= x < y <= |s[start..i]| ==> !IsSpan(s[start..i][x..y])
  {
    forall x, y | 0 <= x < y <= |s[start..i]| && IsSpan(s[start..i][x..y])
      ensures false
    {
      var t := s[start..i];
      assert |t| == i - start;
      assert forall q :: 0 <= q < y - x ==> t[x..y][q] == s[start + x + q];
      assert t[x..y] == s[start + x..start + y];
      SpanStartsMatch(s, start + x, start + y);
    }
  }

  /** The parts of the preview split alternate: even-numbered ones hold no
      span, odd-numbered ones are spans. */
  lemma SplitMarkersParts(s: string, k: nat)
    requires k < |SplitMarkers(s)|
    ensures k % 2 == 0 ==> forall x, y :: 0 <= x < y <= |SplitMarkers(s)[k]| ==> !IsSpan(SplitMarkers(s)[k][x..y])
    ensures k % 2 == 1 ==> IsSpan(SplitMarkers(s)[k])
  {
    if k % 2 == 0 {
      SplitFromTextParts(s, 0, 0, k);
    } else {
      SplitFromSpans(s, 0, 0, k);
    }
  }

  predicate NoMarkers(s: string)
  {
    forall j :: 0 <= j < |s| ==> !IsMarker(s[j])
  }

  lemma {:induction false} SplitFromNoMarkers(s: string, start: nat, i: nat)
    requires start <= i <= |s| && NoMarkers(s)
    ensures SplitFrom(s, start, i) == [s[start..]]
    decreases |s| - i
  {
    if i < |s| {
      SplitFromNoMarkers(s, start, i + 1);
    }
  }

  /** `part.slice(1, -1)`. */
  function Inner(part: string): (r: string)
    ensures |part| >= 2 ==> r == part[1..|part| - 1]
    ensures |part| < 2 ==> r == ""
  {
    if |part| < 2 then "" else part[1..|part| - 1]
  }

  /** The map step: a part that starts and ends with `*` becomes `<strong>`,
      one that starts and ends with `_` becomes `<em>`, any other stays. */
  function FormatPart(part: string, i: nat): (r: string)
    ensures |part| >= 1 && part[0] == '*' && part[|part| - 1] == '*' ==>
              r == "<strong key=\"" + NatToString(i) + "\">" + Inner(part) + "</strong>"
    ensures |part| >= 1 && part[0] == '_' && part[|part| - 1] == '_' ==>
              r == "<em key=\"" + NatToString(i) + "\">" + Inner(part) + "</em>"
    ensures (forall j :: 0 <= j < |part| ==> !IsMarker(part[j])) ==> r == part
  {
    if |part| >= 1 && part[0] == '*' && part[|part| - 1] == '*' then
      "<strong key=\"" + NatToString(i) + "\">" + Inner(part) + "</strong>"
    else if |part| >= 1 && part[0] == '_' && part[|part| - 1] == '_' then
      "<em key=\"" + NatToString(i) + "\">" + Inner(part) + "</em>"
    else part
  }

  /** `parts.map((part, i) => ...)`: each part with its index as key. */
  function FormatParts(parts: seq<string>): (r: seq<string>)
    ensures |r| == |parts|
    ensures forall k :: 0 <= k < |parts| ==> r[k] == FormatPart(parts[k], k)
  {
    seq(|parts|, k requires 0 <= k < |parts| => FormatPart(parts[k], k))
  }

  /** `renderPreview`. */
  function RenderPreview(content: string): string
  {
    Join(FormatParts(SplitMarkers(RenderTemplate(content, SampleVariables))), "")
  }

  /** A text without `*` or `_` after substitution is shown as substituted. */
  lemma PreviewWithoutMarkers(content: string)
    requires NoMarkers(RenderTemplate(content, SampleVariables))
    ensures RenderPreview(content) == RenderTemplate(content, SampleVariables)
  {
    var s := RenderTemplate(content, SampleVariables);
    SplitFromNoMarkers(s, 0, 0);
    assert s[0..] == s;
    assert FormatParts([s]) == [FormatPart(s, 0)];
  }

  /** A bold segment is the second part of the split and so gets key 1. */
  lemma PreviewBold()
    ensures RenderPreview("*oi*") == "<strong key=\"1\">oi</strong>"
  {
    var s := "*oi*";
    assert !Contains(s, "{{") by { NotContainsMissingChar(s, "{{", 0); }
    assert RenderTemplate(s, SampleVariables) == s;
    SplitBold();
    FormatBold();
    JoinAround("<strong key=\"1\">oi</strong>");
  }

  lemma JoinAround(b: string)
    ensures Join(["", b, ""], "") == b
  {
    assert Join(["", b, ""], "") == "" + "" + Join([b, ""], "");
    assert Join([b, ""], "") == b + "" + Join([""], "");
  }

  lemma SplitBold()
    ensures SplitMarkers("*oi*") == ["", "*oi*", ""]
  {
    var s := "*oi*";
    assert NextIndexOf(s, '*', 1) == Some(3);
    assert MatchEnd(s, 0) == Some(4);
    assert s[4..] == "";
    assert SplitFrom(s, 4, 4) == [""];
    assert s[0..0] == "" && s[0..4] == s;
  }

  lemma FormatBold()
    ensures FormatParts(["", "*oi*", ""]) == ["", "<strong key=\"1\">oi</strong>", ""]
  {
    var parts := FormatParts(["", "*oi*", ""]);
    assert NatToString(1) == "1";
    assert Inner("*oi*") == "oi";
    assert parts[0] == FormatPart("", 0) == "" && parts[2] == FormatPart("", 2) == "";
    assert parts[1] == FormatPart("*oi*", 1) == "<strong key=\"1\">oi</strong>";
  }

  /** A lone `*` is no match, yet as a text part it starts and ends with `*`
      and becomes an empty bold element. */
  lemma PreviewLoneAsterisk()
    ensures RenderPreview("*") == "<strong key=\"0\"></strong>"
  {
    var s := "*";
    assert !Contains(s, "{{") by { NotContainsMissingChar(s, "{{", 0); }
    assert MatchEnd(s, 0).None?;
    assert SplitFrom(s, 0, 1) == [s[0..]];
    assert s[0..] == s;
    assert SplitMarkers(s) == ["*"];
    assert NatToString(0) == "0";
    assert FormatParts(["*"]) == [FormatPart("*", 0)];
  }

  // ---------------------------------------------------------------------
  // Inserting a variable at the cursor
  // ---------------------------------------------------------------------

  function Min(a: nat, b: nat): nat { if a <= b then a else b }

  /** `insertVariable`: `substring(0, start) + variable + substring(end)`
      (`substring` clamps its indices to the length), and the cursor placed
      just after the inserted variable. */
  function Splice(content: string, start: nat, end: nat, variable: string): (r: (string, nat))
    ensures start <= end <= |content| ==>
              r.0 == content[..start] + variable + content[end..]
    ensures r.1 == start + |variable|
    ensures start <= |content| ==> r.1 <= |r.0| && r.0[..r.1] == content[..start] + variable
    ensures end <= |content| && start <= end ==> r.0[r.1..] == content[end..]
  {
    var before := content[..Min(start, |content|)];
    (before + variable + content[Min(end, |content|)..], start + |variable|)
  }

  /** A caret (no selection) splice only inserts: the old text comes back
      once the variable is cut out. */
  lemma SpliceAtCaret(content: string, pos: nat, variable: string)
    requires pos <= |content|
    ensures var (v, c) := Splice(content, pos, pos, variable);
            |v| == |content| + |variable| && v[..pos] + v[c..] == content
  {
  }

  // ---------------------------------------------------------------------
  // The list of cards
  // ---------------------------------------------------------------------

  /** `prev.map(t => t.type === type ? {...t, content, isCustom} : t)`. */
  function UpdateList(list: seq<TemplateData>, t: TemplateType, content: string, isCustom: bool): (r: seq<TemplateData>)
    ensures |r| == |list|
    ensures forall i :: 0 <= i < |list| ==> r[i].ttype == list[i].ttype
    ensures forall i :: 0 <= i < |list| && list[i].ttype != t ==> r[i] == list[i]
    ensures forall i :: 0 <= i < |list| && list[i].ttype == t ==> r[i].content == content && r[i].isCustom == isCustom
  {
    seq(|list|, i requires 0 <= i < |list| =>
          if list[i].ttype == t then list[i].(content := content, isCustom := isCustom) else list[i])
  }

  /** After a successful save the client list is what the store would now
      return. */
  lemma SaveMatchesStore(custom: CustomTable, org: OrgId, t: TemplateType, content: string)
    requires ContentOk(content)
    ensures UpdateList(Merge(custom, org), t, content, true) == Merge(custom[(org, t) := content], org)
  {
    var a := UpdateList(Merge(custom, org), t, content, true);
    var b := Merge(custom[(org, t) := content], org);
    forall i | 0 <= i < 3 ensures a[i] == b[i] {
      if AllTypes[i] == t {
        assert content != "";
      }
    }
  }

  /** After a successful reset the client list is what the store would now
      return. */
  lemma ResetMatchesStore(custom: CustomTable, org: OrgId, t: TemplateType)
    ensures UpdateList(Merge(custom, org), t, DefaultTemplate(t), false) == Merge(custom - {(org, t)}, org)
  {
    var a := UpdateList(Merge(custom, org), t, DefaultTemplate(t), false);
    var b := Merge(custom - {(org, t)}, org);
    forall i | 0 <= i < 3 ensures a[i] == b[i] {
      ResetEntry(custom, org, t, i);
    }
  }

  lemma ResetEntry(custom: CustomTable, org: OrgId, t: TemplateType, i: nat)
    requires i < 3
    ensures UpdateList(Merge(custom, org), t, DefaultTemplate(t), false)[i] == Merge(custom - {(org, t)}, org)[i]
  {
    var m := Merge(custom, org);
    var b := Merge(custom - {(org, t)}, org);
    var k := (org, AllTypes[i]);
    var d := DefaultTemplate(t);
    if AllTypes[i] == t {
      assert k !in custom - {(org, t)};
      assert b[i] == TemplateData(t, d, false);
    } else {
      assert (k in custom - {(org, t)}) == (k in custom);
    }
  }

  /** `templates.filter(t => t.isCustom).length`. */
  function CustomCount(list: seq<TemplateData>): (n: nat)
    ensures n <= |list|
    ensures n == 0 <==> forall i :: 0 <= i < |list| ==> !list[i].isCustom
    ensures n == |list| <==> forall i :: 0 <= i < |list| ==> list[i].isCustom
  {
    if list == [] then 0
    else (if list[0].isCustom then 1 else 0) + CustomCount(list[1..])
  }

  /** The header badge: absent when nothing is customised, otherwise the
      count with the plural `s` above one. */
  function CustomBadge(count: nat): (r: Option<string>)
    ensures r.None? <==> count == 0
    ensures count == 1 ==> r == Some("1 personalizado")  // `{customCount} personalizado{customCount > 1 ? "s" : ""}`
    ensures count > 1 ==> r == Some(NatToString(count) + " personalizados")
  {
    if count == 0 then None
    else if count > 1 then Some(NatToString(count) + " personalizados")
    else
      assert NatToString(1) + " personalizado" == "1 personalizado";
      Some(NatToString(count) + " personalizado")
  }

  class TemplateList {
    /** The `templates` state of `TemplateManager`. */
    var templates: seq<TemplateData>

    constructor(initial: seq<TemplateData>)
      ensures templates == initial
    {
      templates := initial;
    }

    /** `handleUpdate`, the cards' `onUpdate`. */
    method HandleUpdate(t: TemplateType, content: string, isCustom: bool)
      modifies this
      ensures templates == UpdateList(old(templates), t, content, isCustom)
    {
      templates := UpdateList(templates, t, content, isCustom);
    }
  }

  // ---------------------------------------------------------------------
  // One card
  // ---------------------------------------------------------------------

  /** What a handler asks the list to apply through `onUpdate`. */
  datatype Update = Update(t: TemplateType, content: string, isCustom: bool)

  class TemplateCard {
    /** The `template` prop, as the list passes it back after `onUpdate`. */
    var template: TemplateData
    var isEditing: bool
    var isExpanded: bool
    var editContent: string
    var isPending: bool

    constructor(t: TemplateData)
      ensures template == t && editContent == t.content
      ensures !isEditing && !isExpanded && !isPending
    {
      template := t;
      editContent := t.content;
      isEditing := false;
      isExpanded := false;
      isPending := false;
    }

    function CharCount(): nat
      reads this
    {
      JsLength(editContent)
    }

    predicate IsOverLimit()
      reads this
    {
      CharCount() > MaxChars
    }

    predicate IsDirty()
      reads this
    {
      editContent != template.content
    }

    /** The Save button's `disabled`. */
    predicate SaveDisabled()
      reads this
    {
      isPending || IsOverLimit() || !IsDirty()
    }

    /** The reset button's `disabled`. */
    predicate ResetDisabled()
      reads this
    {
      isPending || !template.isCustom
    }

    /** The textarea is mounted only while the card is expanded in edit mode. */
    predicate HasTextarea()
      reads this
    {
      isExpanded && isEditing
    }

    method HandleEdit()
      modifies this
      ensures editContent == template.content && isEditing && isExpanded
      ensures template == old(template) && isPending == old(isPending)
    {
      editContent := template.content;
      isEditing := true;
      isExpanded := true;
    }

    method HandleCancel()
      modifies this
      ensures editContent == template.content && !isEditing && !IsDirty()
      ensures template == old(template) && isExpanded == old(isExpanded) && isPending == old(isPending)
    {
      editContent := template.content;
      isEditing := false;
    }

    method ToggleExpanded()
      modifies this
      ensures isExpanded == !old(isExpanded)
      ensures template == old(template) && editContent == old(editContent)
      ensures isEditing == old(isEditing) && isPending == old(isPending)
    {
      isExpanded := !isExpanded;
    }

    /** `insertVariable`; the selection is a parameter. Returns the new caret. */
    method InsertVariable(variable: string, selStart: nat, selEnd: nat) returns (caret: Option<nat>)
      modifies this
      ensures !old(HasTextarea()) ==> caret.None? && editContent == old(editContent)
      ensures old(HasTextarea()) ==>
                var (v, c) := Splice(old(editContent), selStart, selEnd, variable);
                editContent == v && caret == Some(c)
      ensures template == old(template) && isEditing == old(isEditing)
      ensures isExpanded == old(isExpanded) && isPending == old(isPending)
    {
      if !HasTextarea() {
        return None;
      }
      var (v, c) := Splice(editContent, selStart, selEnd, variable);
      editContent := v;
      caret := Some(c);
    }

    /** `handleSave`, with the transition run to completion. */
    method HandleSave(store: TemplateStore, org: OrgId) returns (update: Option<Update>, toast: Option<string>)
      modifies this, store
      ensures old(IsOverLimit()) ==>
                update.None? && toast.None? && store.custom == old(store.custom)
                && template == old(template) && isEditing == old(isEditing) && editContent == old(editContent)
      ensures !old(IsOverLimit()) ==>
                var err := ValidateUpsert(TypeName(old(template).ttype), old(editContent));
                if err.None? then
                  store.custom == old(store.custom)[(org, old(template).ttype) := old(editContent)]
                  && update == Some(Update(old(template).ttype, old(editContent), true))
                  && template == old(template).(content := old(editContent), isCustom := true)
                  && !isEditing && toast == Some("Template salvo com sucesso!")
                else
                  store.custom == old(store.custom) && update.None? && template == old(template)
                  && isEditing == old(isEditing)
                  && toast == Some(UpsertMessage(err.value, TypeName(old(template).ttype)))
      ensures editContent == old(editContent) && isExpanded == old(isExpanded) && !isPending
    {
      if IsOverLimit() {
        isPending := false;
        return None, None;
      }
      var result := store.Upsert(org, TypeName(template.ttype), editContent);
      ParseTypeName(template.ttype);
      isPending := false;
      if result == Saved {
        update := Some(Update(template.ttype, editContent, true));
        template := template.(content := editContent, isCustom := true);
        isEditing := false;
        toast := Some("Template salvo com sucesso!");
      } else {
        update := None;
        toast := Some(result.error);
      }
    }

    /** `handleReset`, with the transition run to completion. */
    method HandleReset(store: TemplateStore, org: OrgId) returns (update: Update, toast: string)
      modifies this, store
      ensures store.custom == old(store.custom) - {(org, old(template).ttype)}
      ensures update == Update(old(template).ttype, DefaultTemplate(old(template).ttype), false)
      ensures template == old(template).(content := DefaultTemplate(old(template).ttype), isCustom := false)
      ensures editContent == DefaultTemplate(old(template).ttype) && !isEditing && !IsDirty()
      ensures isExpanded == old(isExpanded) && !isPending
      ensures toast == "Template restaurado ao padrão!"
    {
      var defaultContent := DefaultTemplate(template.ttype);
      var _ := store.Reset(org, template.ttype);
      update := Update(template.ttype, defaultContent, false);
      template := template.(content := defaultContent, isCustom := false);
      editContent := defaultContent;
      isEditing := false;
      isPending := false;
      toast := "Template restaurado ao padrão!";
    }
  }

  /** A save the button allows reaches the store unless the text is under
      the schema's minimum. */
  lemma EnabledSaveIsAttempted(editContent: string, t: TemplateType)
    requires JsLength(editContent) <= MaxChars && JsLength(editContent) >= MinContent
    ensures ValidateUpsert(TypeName(t), editContent).None?
  {
    ParseTypeName(t);
  }
}
