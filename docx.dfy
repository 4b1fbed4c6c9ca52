/**
 * The transcript document: a template whose `{{KEY}}` placeholders are
 * filled from the title data, followed by one paragraph per turn.
 *
 * The document is an abstract tree. A document and a table cell both hold
 * paragraphs and tables; a table holds rows of cells; a paragraph holds runs
 * of text. Fonts, indents and spacing are not modelled.
 */
module Docx {
  import opened Wrappers
  import opened Text
  import opened Records

  datatype Paragraph = Paragraph(runs: seq<string>)

  /** A document body or a table cell. */
  datatype Body = Body(paragraphs: seq<Paragraph>, tables: seq<Table>)

  datatype Table = Table(rows: seq<Row>)

  datatype Row = Row(cells: seq<Body>)

  /** The text of a paragraph, as `paragraph.text` gives it: its runs one after the other. */
  function ParagraphText(runs: seq<string>): string {
    if runs == [] then "" else runs[0] + ParagraphText(runs[1..])
  }

  /** A placeholder inside one run is inside the paragraph's text. */
  lemma {:induction false} RunInParagraphText(runs: seq<string>, i: nat, ph: string)
    requires i < |runs| && Contains(runs[i], ph)
    ensures Contains(ParagraphText(runs), ph)
  {
    if i == 0 {
      ContainsLeft(runs[0], ParagraphText(runs[1..]), ph);
    } else {
      RunInParagraphText(runs[1..], i - 1, ph);
      ContainsRight(runs[0], ParagraphText(runs[1..]), ph);
    }
  }

  // ---------------------------------------------------------------------
  // What a substitution does: `str.replace` on every run of the tree
  // ---------------------------------------------------------------------

  function ReplaceParagraph(p: Paragraph, ph: string, v: string): (q: Paragraph)
    requires ph != ""
    ensures |q.runs| == |p.runs|
  {
    Paragraph(seq(|p.runs|, i requires 0 <= i < |p.runs| => ReplaceAll(p.runs[i], ph, v)))
  }

  function ReplaceBody(b: Body, ph: string, v: string): (r: Body)
    requires ph != ""
    ensures |r.paragraphs| == |b.paragraphs| && |r.tables| == |b.tables|
    decreases b, 2
  {
    Body(
      seq(|b.paragraphs|, i requires 0 <= i < |b.paragraphs| => ReplaceParagraph(b.paragraphs[i], ph, v)),
      seq(|b.tables|, t requires 0 <= t < |b.tables| => ReplaceTable(b.tables[t], ph, v)))
  }

  function ReplaceTable(t: Table, ph: string, v: string): (r: Table)
    requires ph != ""
    ensures |r.rows| == |t.rows|
    decreases t, 1
  {
    Table(seq(|t.rows|, j requires 0 <= j < |t.rows| => ReplaceRow(t.rows[j], ph, v)))
  }

  function ReplaceRow(row: Row, ph: string, v: string): (r: Row)
    requires ph != ""
    ensures |r.cells| == |row.cells|
    decreases row, 0
  {
    Row(seq(|row.cells|, c requires 0 <= c < |row.cells| => ReplaceBody(row.cells[c], ph, v)))
  }

  /** Some run somewhere in the tree contains `ph` on its own. */
  predicate OccursIn(b: Body, ph: string)
    decreases b, 2
  {
    || (exists i, k :: 0 <= i < |b.paragraphs| && 0 <= k < |b.paragraphs[i].runs| && Contains(b.paragraphs[i].runs[k], ph))
    || (exists t :: 0 <= t < |b.tables| && OccursInTable(b.tables[t], ph))
  }

  predicate OccursInTable(t: Table, ph: string)
    decreases t, 1
  {
    exists j, c :: 0 <= j < |t.rows| && 0 <= c < |t.rows[j].cells| && OccursIn(t.rows[j].cells[c], ph)
  }

  /** A tree where no run contains the placeholder comes out of the substitution unchanged. */
  lemma {:induction false} ReplaceAbsentBody(b: Body, ph: string, v: string)
    requires ph != ""
    requires !OccursIn(b, ph)
    ensures ReplaceBody(b, ph, v) == b
    decreases b, 2
  {
    forall i | 0 <= i < |b.paragraphs|
      ensures ReplaceParagraph(b.paragraphs[i], ph, v) == b.paragraphs[i]
    {
      var p := b.paragraphs[i];
      forall k | 0 <= k < |p.runs|
        ensures ReplaceAll(p.runs[k], ph, v) == p.runs[k]
      {
        ReplaceAbsent(p.runs[k], ph, v);
      }
    }
    forall t | 0 <= t < |b.tables|
      ensures ReplaceTable(b.tables[t], ph, v) == b.tables[t]
    {
      ReplaceAbsentTable(b.tables[t], ph, v);
    }
  }

  lemma {:induction false} ReplaceAbsentTable(t: Table, ph: string, v: string)
    requires ph != ""
    requires !OccursInTable(t, ph)
    ensures ReplaceTable(t, ph, v) == t
    decreases t, 1
  {
    forall j | 0 <= j < |t.rows|
      ensures ReplaceRow(t.rows[j], ph, v) == t.rows[j]
    {
      var row := t.rows[j];
      forall c | 0 <= c < |row.cells|
        ensures ReplaceBody(row.cells[c], ph, v) == row.cells[c]
      {
        ReplaceAbsentBody(row.cells[c], ph, v);
      }
    }
  }

  /**
   * A placeholder that the template splits over two runs is in the
   * paragraph's text but in neither run, so it is left as it is.
   */
  lemma SplitPlaceholderUntouched(v: string)
    ensures var p := Paragraph(["{{CASE_", "NAME}}"]);
            Contains(ParagraphText(p.runs), "{{CASE_NAME}}")
            && ReplaceParagraph(p, "{{CASE_NAME}}", v) == p
  {
    var p := Paragraph(["{{CASE_", "NAME}}"]);
    assert ParagraphText(p.runs) == "{{CASE_NAME}}";
    ContainsSelf("{{CASE_NAME}}");
    forall k | 0 <= k < 2
      ensures !Contains(p.runs[k], "{{CASE_NAME}}")
    {
    }
    ReplaceAbsent(p.runs[0], "{{CASE_NAME}}", v);
    ReplaceAbsent(p.runs[1], "{{CASE_NAME}}", v);
  }

  // ---------------------------------------------------------------------
  // The two traversals
  // ---------------------------------------------------------------------

  /**
   * How a paragraph is rewritten once its text contains the placeholder:
   * the legacy app only touches runs that contain it themselves, the API
   * calls `replace` on every run.
   */
  datatype RunGuard = EachRun | ParagraphOnly

  /**
   * The paragraph step of `replace_placeholder_text` (`EachRun`) and of
   * `replace_text` (`ParagraphOnly`): nothing happens unless the paragraph's
   * text contains the placeholder; then runs are rewritten in place.
   * Either way the outcome is `replace` on every run.
   */
  method ReplaceInRuns(p: Paragraph, ph: string, v: string, guard: RunGuard) returns (q: Paragraph)
    requires ph != ""
    ensures q == ReplaceParagraph(p, ph, v)
  {
    if !Contains(ParagraphText(p.runs), ph) {
      forall k | 0 <= k < |p.runs|
        ensures ReplaceAll(p.runs[k], ph, v) == p.runs[k]
      {
        if Contains(p.runs[k], ph) {
          RunInParagraphText(p.runs, k, ph);
        }
        ReplaceAbsent(p.runs[k], ph, v);
      }
      return p;
    }
    var runs := p.runs;
    for i := 0 to |runs|
      invariant |runs| == |p.runs|
      invariant forall k :: 0 <= k < i ==> runs[k] == ReplaceAll(p.runs[k], ph, v)
      invariant forall k :: i <= k < |runs| ==> runs[k] == p.runs[k]
    {
      if guard == ParagraphOnly || Contains(runs[i], ph) {
        runs := runs[i := ReplaceAll(runs[i], ph, v)];
      } else {
        ReplaceAbsent(runs[i], ph, v);
      }
    }
    q := Paragraph(runs);
  }

  /**
   * `replace_placeholder_text(element, ph, v)` / `replace_text(el, ph, v)`
   * on a document or cell: every paragraph, then every cell of every row of
   * every table, recursively.
   */
  method ReplaceInBody(b: Body, ph: string, v: string, guard: RunGuard) returns (r: Body)
    requires ph != ""
    ensures r == ReplaceBody(b, ph, v)
    decreases b, 1
  {
    var paragraphs := b.paragraphs;
    for i := 0 to |paragraphs|
      invariant |paragraphs| == |b.paragraphs|
      invariant forall k :: 0 <= k < i ==> paragraphs[k] == ReplaceParagraph(b.paragraphs[k], ph, v)
      invariant forall k :: i <= k < |paragraphs| ==> paragraphs[k] == b.paragraphs[k]
    {
      var q := ReplaceInRuns(paragraphs[i], ph, v, guard);
      paragraphs := paragraphs[i := q];
    }
    var tables := b.tables;
    for t := 0 to |tables|
      invariant |tables| == |b.tables|
      invariant forall k :: 0 <= k < t ==> tables[k] == ReplaceTable(b.tables[k], ph, v)
      invariant forall k :: t <= k < |tables| ==> tables[k] == b.tables[k]
    {
      var nt := ReplaceInTable(tables[t], ph, v, guard);
      tables := tables[t := nt];
    }
    r := Body(paragraphs, tables);
  }

  method ReplaceInTable(table: Table, ph: string, v: string, guard: RunGuard) returns (r: Table)
    requires ph != ""
    ensures r == ReplaceTable(table, ph, v)
    decreases table, 0
  {
    var rows := table.rows;
    for j := 0 to |rows|
      invariant |rows| == |table.rows|
      invariant forall k :: 0 <= k < j ==> rows[k] == ReplaceRow(table.rows[k], ph, v)
      invariant forall k :: j <= k < |rows| ==> rows[k] == table.rows[k]
    {
      var cells := rows[j].cells;
      for c := 0 to |cells|
        invariant |cells| == |table.rows[j].cells|
        invariant forall k :: 0 <= k < c ==> cells[k] == ReplaceBody(table.rows[j].cells[k], ph, v)
        invariant forall k :: c <= k < |cells| ==> cells[k] == table.rows[j].cells[k]
      {
        var cell := ReplaceInBody(cells[c], ph, v, guard);
        cells := cells[c := cell];
      }
      rows := rows[j := Row(cells)];
    }
    r := Table(rows);
  }

  // ---------------------------------------------------------------------
  // Filling the template
  // ---------------------------------------------------------------------

  /** A title value: JSON null or a string. */
  datatype TitleValue = Null | Str(s: string)

  /** `str(value) if value else ""` (legacy) and `str(v or "")` (API): null and "" both become "". */
  function Rendered(value: TitleValue): string {
    if value.Null? || value.s == "" then "" else value.s
  }

  /** `f"{{{{{key}}}}}"`: the key between double braces. */
  function Placeholder(key: string): (ph: string)
    ensures |ph| == |key| + 4
  {
    "{{" + key + "}}"
  }

  /** The title items substituted one after another, in the order of the mapping. */
  function ApplyTitles(b: Body, titles: seq<(string, TitleValue)>): Body {
    if titles == [] then b
    else
      var (key, value) := titles[|titles| - 1];
      ReplaceBody(ApplyTitles(b, titles[..|titles| - 1]), Placeholder(key), Rendered(value))
  }

  /** Title keys whose placeholders occur in no run of the template leave it unchanged. */
  lemma {:induction false} ApplyUnusedTitles(b: Body, titles: seq<(string, TitleValue)>)
    requires forall i :: 0 <= i < |titles| ==> !OccursIn(b, Placeholder(titles[i].0))
    ensures ApplyTitles(b, titles) == b
  {
    if titles != [] {
      var init := titles[..|titles| - 1];
      ApplyUnusedTitles(b, init);
      var (key, value) := titles[|titles| - 1];
      ReplaceAbsentBody(b, Placeholder(key), Rendered(value));
    }
  }

  const BodyMarker: string := "{{TRANSCRIPT_BODY}}"

  /** The first paragraph at index `k` or later whose text contains the body marker. */
  function FirstMarked(ps: seq<Paragraph>, k: nat): (r: Option<nat>)
    ensures r.Some? ==> k <= r.value < |ps| && Contains(ParagraphText(ps[r.value].runs), BodyMarker)
    ensures r.Some? ==> forall j :: k <= j < r.value ==> !Contains(ParagraphText(ps[j].runs), BodyMarker)
    ensures r.None? ==> forall j :: k <= j < |ps| ==> !Contains(ParagraphText(ps[j].runs), BodyMarker)
    decreases |ps| - k
  {
    if |ps| <= k then None
    else if Contains(ParagraphText(ps[k].runs), BodyMarker) then Some(k)
    else FirstMarked(ps, k + 1)
  }

  /** The paragraph for one turn: the upper-cased speaker and three spaces after a colon, then the text. */
  function TurnParagraph(turn: Turn): Paragraph {
    Paragraph([Upper(turn.speaker) + ":   ", turn.text])
  }

  /** The paragraphs without the first one that holds the body marker. */
  function Unmarked(ps: seq<Paragraph>): seq<Paragraph> {
    match FirstMarked(ps, 0)
    case Some(k) => ps[..k] + ps[k + 1..]
    case None => ps
  }

  /** One paragraph per turn, in order. */
  function TurnParagraphs(turns: seq<Turn>): seq<Paragraph> {
    seq(|turns|, i requires 0 <= i < |turns| => TurnParagraph(turns[i]))
  }

  /** The first marker paragraph removed, then one paragraph per turn at the end. */
  function Layout(b: Body, turns: seq<Turn>): Body {
    Body(Unmarked(b.paragraphs) + TurnParagraphs(turns), b.tables)
  }

  /**
   * `create_docx` / `make_docx`: no document without a template; otherwise
   * every title is substituted, the first top-level paragraph containing the
   * body marker is removed and a paragraph per turn is added at the end.
   */
  method CreateDocx(template: Option<Body>, titles: seq<(string, TitleValue)>, turns: seq<Turn>, guard: RunGuard)
    returns (doc: Option<Body>)
    ensures doc.None? <==> template.None?
    ensures doc.Some? ==> doc.value == Layout(ApplyTitles(template.value, titles), turns)
  {
    if template.None? {
      return None;
    }
    var body := FillTitles(template.value, titles, guard);
    var paragraphs := DropMarker(body.paragraphs);
    paragraphs := AppendTurns(paragraphs, turns);
    doc := Some(Body(paragraphs, body.tables));
  }

  /** The title loop of `create_docx` / `make_docx`: each placeholder replaced in turn, in the order of `titles`. */
  method FillTitles(template: Body, titles: seq<(string, TitleValue)>, guard: RunGuard) returns (body: Body)
    ensures body == ApplyTitles(template, titles)
  {
    body := template;
    for i := 0 to |titles|
      invariant body == ApplyTitles(template, titles[..i])
    {
      var (key, value) := titles[i];
      assert titles[..i + 1][..i] == titles[..i];
      body := ReplaceInBody(body, Placeholder(key), Rendered(value), guard);
    }
    assert titles[..|titles|] == titles;
  }

  /** The search for the body marker: the first paragraph holding it is removed, and the search stops there. */
  method DropMarker(paragraphs: seq<Paragraph>) returns (kept: seq<Paragraph>)
    ensures kept == Unmarked(paragraphs)
  {
    var marked: Option<nat> := None;
    for i := 0 to |paragraphs|
      invariant marked.None?
      invariant FirstMarked(paragraphs, 0) == FirstMarked(paragraphs, i)
    {
      if Contains(ParagraphText(paragraphs[i].runs), BodyMarker) {
        marked := Some(i);
        break;
      }
    }
    assert marked == FirstMarked(paragraphs, 0);
    kept := paragraphs;
    if marked.Some? {
      var k := marked.value;
      kept := paragraphs[..k] + paragraphs[k + 1..];
    }
  }

  /** The loop over the turns: one paragraph added at the end per turn. */
  method AppendTurns(paragraphs: seq<Paragraph>, turns: seq<Turn>) returns (result: seq<Paragraph>)
    ensures result == paragraphs + TurnParagraphs(turns)
  {
    result := paragraphs;
    for i := 0 to |turns|
      invariant result == paragraphs + TurnParagraphs(turns[..i])
    {
      assert TurnParagraphs(turns[..i + 1]) == TurnParagraphs(turns[..i]) + [TurnParagraph(turns[i])];
      result := result + [TurnParagraph(turns[i])];
    }
    assert turns[..|turns|] == turns;
  }


  /**
   * What the layout promises: tables stay, exactly the first marker
   * paragraph (if any) is gone, the others keep their order, and the turns
   * follow in order, one paragraph each.
   */
  lemma LayoutShape(b: Body, turns: seq<Turn>)
    ensures var r := Layout(b, turns);
            var kept := |r.paragraphs| - |turns|;
            && r.tables == b.tables
            && kept == (if FirstMarked(b.paragraphs, 0).Some? then |b.paragraphs| - 1 else |b.paragraphs|)
            && (forall i :: 0 <= i < |turns| ==> r.paragraphs[kept + i] == TurnParagraph(turns[i]))
            && (FirstMarked(b.paragraphs, 0).None? ==> r.paragraphs[..kept] == b.paragraphs)
            && (FirstMarked(b.paragraphs, 0).Some? ==>
                  var k := FirstMarked(b.paragraphs, 0).value;
                  r.paragraphs[..kept] == b.paragraphs[..k] + b.paragraphs[k + 1..])
  {
  }

  /** Only the first marker paragraph goes: a second one stays in the document. */
  lemma SecondMarkerStays(turns: seq<Turn>)
    ensures var marker := Paragraph([BodyMarker]);
            var other := Paragraph(["Heading"]);
            Layout(Body([other, marker, marker], []), turns).paragraphs[..2] == [other, marker]
  {
    var marker := Paragraph([BodyMarker]);
    var other := Paragraph(["Heading"]);
    ContainsSelf(BodyMarker);
    assert ParagraphText(marker.runs) == BodyMarker;
    assert ParagraphText(other.runs) == "Heading";
    assert !Contains("Heading", BodyMarker);
    assert FirstMarked([other, marker, marker], 0) == Some(1);
  }

  /**
   * The speaker run is the speaker upper-cased letter by letter, then a colon
   * and three spaces; the text run is the turn's text.
   */
  lemma TurnParagraphShape(turn: Turn)
    ensures var runs := TurnParagraph(turn).runs;
            && |runs| == 2 && runs[1] == turn.text
            && |runs[0]| == |turn.speaker| + 4
            && (forall i :: 0 <= i < |turn.speaker| ==> runs[0][i] == UpperChar(turn.speaker[i]))
            && IsUpperCase(runs[0][..|turn.speaker|])
            && runs[0][|turn.speaker|..] == ":   "
  {
    UpperIsUpperCase(turn.speaker);
    var runs := TurnParagraph(turn).runs;
    assert runs[0][..|turn.speaker|] == Upper(turn.speaker);
    forall i | 0 <= i < |turn.speaker|
      ensures runs[0][i] == UpperChar(turn.speaker[i])
    {
      UpperAt(turn.speaker, i);
    }
  }
}
