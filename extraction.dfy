/** What the two attachment bots share: the closed classifier from a file
    name to an extraction strategy, the three third-party parsers taken as
    given functions, and the rendering of their output as text (paragraphs
    and pages newline-joined, worksheet cells tab-joined and rows
    newline-joined). */
module Extraction {
  import opened Wrappers
  import opened Strings

  /** The extraction strategy a file name selects. */
  datatype Strategy = Docx | Pdf | Xlsx | NoStrategy

  /** The file-name suffix that selects a strategy. */
  function Suffix(s: Strategy): string
    requires s != NoStrategy
  {
    if s == Docx then ".docx" else if s == Pdf then ".pdf" else ".xlsx"
  }

  /** The `elif` chain on `name.endswith(...)`: `.docx`, then `.pdf`, then
      `.xlsx`, case-sensitive; anything else selects no strategy. */
  function Classify(name: string): Strategy
  {
    if EndsWith(name, ".docx") then Docx
    else if EndsWith(name, ".pdf") then Pdf
    else if EndsWith(name, ".xlsx") then Xlsx
    else NoStrategy
  }

  /** No name ends with two of the three suffixes, so the order of the
      `elif` chain never decides between them. */
  lemma SuffixesExclusive(name: string, s: Strategy, t: Strategy)
    requires s != NoStrategy && t != NoStrategy
    requires EndsWith(name, Suffix(s)) && EndsWith(name, Suffix(t))
    ensures s == t
  {
    var n := |name|;
    assert name[n - |Suffix(s)|..] == Suffix(s);
    assert name[n - |Suffix(t)|..] == Suffix(t);
    assert name[n - 1] == Suffix(s)[|Suffix(s)| - 1] == Suffix(t)[|Suffix(t)| - 1];
    if s != Pdf && t != Pdf {
      assert name[n - 4] == Suffix(s)[1] == Suffix(t)[1];
    }
  }

  /** Classification is exact: a name selects a strategy if and only if it
      ends with that strategy's suffix. */
  lemma ClassifyExact(name: string, s: Strategy)
    requires s != NoStrategy
    ensures Classify(name) == s <==> EndsWith(name, Suffix(s))
  {
    if EndsWith(name, Suffix(s)) {
      var c := Classify(name);
      if c != NoStrategy {
        SuffixesExclusive(name, c, s);
      }
    }
  }

  /** Round trip: any stem followed by a strategy's suffix classifies as that
      strategy. */
  lemma ClassifySuffix(stem: string, s: Strategy)
    requires s != NoStrategy
    ensures Classify(stem + Suffix(s)) == s
  {
    EndsWithAppended(stem, Suffix(s));
    ClassifyExact(stem + Suffix(s), s);
  }

  /** The third-party parsers, taken as given functions of the attachment
      content: python-docx's paragraph texts, PyPDF2's per-page
      `extract_text()`, and the rows of openpyxl's active sheet (read with
      `data_only=True`, each cell already `str()`-ed, an empty cell `None`).
      A `Failure` carries the text of the exception the library raised. */
  datatype Parsers = Parsers(
    docxParagraphs: string -> Result<seq<string>, string>,
    pdfPages: string -> Result<seq<string>, string>,
    xlsxRows: string -> Result<seq<seq<Option<string>>>, string>)

  /** A worksheet cell as text: `str(cell)`, or `""` for `None`. */
  function CellText(cell: Option<string>): string
  {
    match cell
    case None => ""
    case Some(v) => v
  }

  function CellTexts(row: seq<Option<string>>): seq<string>
  {
    seq(|row|, i requires 0 <= i < |row| => CellText(row[i]))
  }

  /** One worksheet row: its cells tab-joined. */
  function RowText(row: seq<Option<string>>): string
  {
    Join("\t", CellTexts(row))
  }

  function RowTexts(sheet: seq<seq<Option<string>>>): seq<string>
  {
    seq(|sheet|, i requires 0 <= i < |sheet| => RowText(sheet[i]))
  }

  /** A worksheet: its rendered rows newline-joined. */
  function SheetText(sheet: seq<seq<Option<string>>>): string
  {
    Join("\n", RowTexts(sheet))
  }

  /** The `rows` loop of the `.xlsx` branch: one rendered line appended per
      row of the sheet, then the lines newline-joined. */
  method RenderWorksheet(sheet: seq<seq<Option<string>>>) returns (text: string)
    ensures text == SheetText(sheet)
  {
    var rows: seq<string> := [];
    for i := 0 to |sheet|
      invariant |rows| == i
      invariant forall k :: 0 <= k < i ==> rows[k] == RowText(sheet[k])
    {
      rows := rows + [RowText(sheet[i])];
    }
    assert rows == RowTexts(sheet);
    text := Join("\n", rows);
  }

  /** Column alignment: when no cell contains a tab, cutting a rendered row at
      its tabs gives back every cell's text at its own column, a `None` cell
      as an empty field. */
  lemma RowColumns(row: seq<Option<string>>)
    requires |row| >= 1
    requires forall k :: 0 <= k < |row| ==> '\t' !in CellText(row[k])
    ensures Split(RowText(row), '\t') == CellTexts(row)
    ensures forall k :: 0 <= k < |row| ==> Split(RowText(row), '\t')[k] == CellText(row[k])
  {
    var cells := CellTexts(row);
    forall p | p in cells
      ensures '\t' !in p
    {
      var k :| 0 <= k < |cells| && cells[k] == p;
    }
    SplitJoin(cells, '\t');
  }

  /** Row `[A, None, C]` renders as `A`, two tabs, `C`. */
  lemma RowWithEmptyMiddleCell(a: string, c: string)
    ensures RowText([Some(a), None, Some(c)]) == a + "\t\t" + c
  {
    var cells := CellTexts([Some(a), None, Some(c)]);
    assert cells == [a, "", c];
    assert cells[1..] == ["", c];
    assert cells[1..][1..] == [c];
    assert Join("\t", cells[1..]) == "" + "\t" + c;
    assert Join("\t", cells) == a + "\t" + ("" + "\t" + c);
  }

  /** A sheet with no rows renders as the empty text, not as an error. */
  lemma EmptySheet()
    ensures SheetText([]) == ""
  {
    assert RowTexts([]) == [];
  }

  /** Row structure: when no cell contains a newline, cutting the rendered
      sheet at its newlines gives back the rendered rows, one per sheet row
      and in sheet order. */
  lemma SheetRows(sheet: seq<seq<Option<string>>>)
    requires |sheet| >= 1
    requires forall r, k :: 0 <= r < |sheet| && 0 <= k < |sheet[r]| ==> '\n' !in CellText(sheet[r][k])
    ensures Split(SheetText(sheet), '\n') == RowTexts(sheet)
  {
    var rows := RowTexts(sheet);
    forall p | p in rows
      ensures '\n' !in p
    {
      var r :| 0 <= r < |rows| && rows[r] == p;
      var cells := CellTexts(sheet[r]);
      forall q | q in cells
        ensures '\n' !in q
      {
        var k :| 0 <= k < |cells| && cells[k] == q;
      }
      JoinAvoids("\t", cells, '\n');
    }
    SplitJoin(rows, '\n');
  }

  /** The `responses` list a loop builds when each item appends at most one
      line: the items' lines, in item order. */
  function Lines<T>(items: seq<T>, line: T -> Option<string>): (r: seq<string>)
    ensures |r| <= |items|
    decreases |items|
  {
    if |items| == 0 then []
    else Lines(items[..|items| - 1], line) + ToSeq(line(items[|items| - 1]))
  }

  /** The lines of two item lists in a row are the lines of each, in order. */
  lemma {:induction false} LinesAppend<T>(xs: seq<T>, ys: seq<T>, line: T -> Option<string>)
    ensures Lines(xs + ys, line) == Lines(xs, line) + Lines(ys, line)
    decreases |ys|
  {
    if |ys| == 0 {
      assert xs + ys == xs;
    } else {
      var ys' := ys[..|ys| - 1];
      assert (xs + ys)[..|xs + ys| - 1] == xs + ys';
      assert (xs + ys)[|xs + ys| - 1] == ys[|ys| - 1];
      LinesAppend(xs, ys', line);
    }
  }

  /** Order and isolation: whatever item stands at position `i`, it
      contributes at most its own one line, between the lines of the items
      before it and those after it, which do not change. */
  lemma LinesAt<T>(items: seq<T>, i: nat, b: T, line: T -> Option<string>)
    requires i < |items|
    ensures Lines(items[i := b], line)
         == Lines(items[..i], line) + ToSeq(line(b)) + Lines(items[i + 1..], line)
  {
    assert items[i := b] == items[..i] + [b] + items[i + 1..];
    assert [b][..0] == [];
    LinesAppend(items[..i] + [b], items[i + 1..], line);
    LinesAppend(items[..i], [b], line);
  }

  /** No line at all exactly when no item produces one. */
  lemma {:induction false} NoLines<T>(items: seq<T>, line: T -> Option<string>)
    ensures Lines(items, line) == [] <==> forall i :: 0 <= i < |items| ==> line(items[i]).None?
    decreases |items|
  {
    if |items| > 0 {
      var init := items[..|items| - 1];
      NoLines(init, line);
      if Lines(items, line) == [] {
        forall i | 0 <= i < |items|
          ensures line(items[i]).None?
        {
          if i < |items| - 1 {
            assert items[i] == init[i];
          }
        }
      }
      if forall i :: 0 <= i < |items| ==> line(items[i]).None? {
        forall i | 0 <= i < |init|
          ensures line(init[i]).None?
        {
          assert init[i] == items[i];
        }
      }
    }
  }

  /** Every line comes from some item: nothing else is ever appended. */
  lemma {:induction false} LinesFromItems<T>(items: seq<T>, line: T -> Option<string>)
    ensures forall l :: l in Lines(items, line) ==>
      exists j :: 0 <= j < |items| && line(items[j]) == Some(l)
    decreases |items|
  {
    if |items| > 0 {
      var n := |items| - 1;
      var init := items[..n];
      LinesFromItems(init, line);
      forall l | l in Lines(items, line)
        ensures exists j :: 0 <= j < |items| && line(items[j]) == Some(l)
      {
        if l in Lines(init, line) {
          var j :| 0 <= j < |init| && line(init[j]) == Some(l);
          assert items[j] == init[j];
        } else {
          assert line(items[n]) == Some(l);
        }
      }
    }
  }

  /** What the `try` block of one strategy produces for one attachment: the
      extracted body, or the parser's exception text. Paragraphs and pages are
      newline-joined in source order; a worksheet is rendered by `SheetText`. */
  function ExtractBody(s: Strategy, content: string, p: Parsers): (r: Result<string, string>)
    requires s != NoStrategy
  {
    if s == Docx then
      match p.docxParagraphs(content)
      case Success(paragraphs) => Success(Join("\n", paragraphs))
      case Failure(e) => Failure(e)
    else if s == Pdf then
      match p.pdfPages(content)
      case Success(pages) => Success(Join("\n", pages))
      case Failure(e) => Failure(e)
    else
      match p.xlsxRows(content)
      case Success(sheet) => Success(SheetText(sheet))
      case Failure(e) => Failure(e)
  }

  /** The body fails exactly when the strategy's parser raises, and then
      carries the parser's exception text. A docx or pdf body lays out the
      paragraphs or pages in source order with a newline between neighbours,
      and splits back into them when there is at least one and none holds a
      newline; an xlsx body is the rendered sheet. */
  lemma ExtractBodyOutcome(s: Strategy, content: string, p: Parsers)
    requires s != NoStrategy
    ensures s == Docx ==> (ExtractBody(s, content, p).Failure? <==> p.docxParagraphs(content).Failure?)
    ensures s == Pdf ==> (ExtractBody(s, content, p).Failure? <==> p.pdfPages(content).Failure?)
    ensures s == Xlsx ==> (ExtractBody(s, content, p).Failure? <==> p.xlsxRows(content).Failure?)
    ensures s == Docx && p.docxParagraphs(content).Failure? ==>
      ExtractBody(s, content, p).error == p.docxParagraphs(content).error
    ensures s == Pdf && p.pdfPages(content).Failure? ==>
      ExtractBody(s, content, p).error == p.pdfPages(content).error
    ensures s == Xlsx && p.xlsxRows(content).Failure? ==>
      ExtractBody(s, content, p).error == p.xlsxRows(content).error
    ensures s == Docx && p.docxParagraphs(content).Success? ==>
      JoinedLayout("\n", p.docxParagraphs(content).value, ExtractBody(s, content, p).value)
    ensures s == Pdf && p.pdfPages(content).Success? ==>
      JoinedLayout("\n", p.pdfPages(content).value, ExtractBody(s, content, p).value)
    ensures s == Xlsx && p.xlsxRows(content).Success? ==>
      ExtractBody(s, content, p) == Success(SheetText(p.xlsxRows(content).value))
    ensures s == Docx && p.docxParagraphs(content).Success? && |p.docxParagraphs(content).value| >= 1
            && (forall q :: q in p.docxParagraphs(content).value ==> '\n' !in q) ==>
      Split(ExtractBody(s, content, p).value, '\n') == p.docxParagraphs(content).value
    ensures s == Pdf && p.pdfPages(content).Success? && |p.pdfPages(content).value| >= 1
            && (forall q :: q in p.pdfPages(content).value ==> '\n' !in q) ==>
      Split(ExtractBody(s, content, p).value, '\n') == p.pdfPages(content).value
  {
    if s == Docx && p.docxParagraphs(content).Success? {
      JoinLayout("\n", p.docxParagraphs(content).value);
      if |p.docxParagraphs(content).value| >= 1
         && (forall q :: q in p.docxParagraphs(content).value ==> '\n' !in q) {
        SplitJoin(p.docxParagraphs(content).value, '\n');
      }
    }
    if s == Pdf && p.pdfPages(content).Success? {
      JoinLayout("\n", p.pdfPages(content).value);
      if |p.pdfPages(content).value| >= 1
         && (forall q :: q in p.pdfPages(content).value ==> '\n' !in q) {
        SplitJoin(p.pdfPages(content).value, '\n');
      }
    }
  }
}
