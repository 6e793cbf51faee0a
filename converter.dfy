/** The Markdown-to-PDF conversion of the application's main page
    (`App.handleConvert` and the convert button). Parsing the Markdown,
    extracting the text and wrapping it to the page width are done by
    foreign libraries; the model starts from the wrapped lines and covers
    what the handler itself does with them: a vertical cursor that starts at
    20, moves down 7 per line and wraps to a new page once it is past 280. */
module Converter {
  import opened Wrappers
  import opened JsText

  /** The cursor's value at the top of every page. */
  const TopY: int := 20
  /** How far the cursor moves down after each line. */
  const LineStep: int := 7
  /** A new page is started when the cursor is strictly below this. */
  const BottomY: int := 280
  /** Every line is drawn at this horizontal position. */
  const LeftX: int := 15
  /** How many lines fit on a page: 20 + 7 * 37 = 279 <= 280 < 286 = 20 + 7 * 38. */
  const LinesPerPage: nat := 38

  /** One `pdf.text(line, x, y)` call. */
  datatype TextDraw = TextDraw(line: string, x: int, y: int)

  /** The draws of one page holding `chunk`, top to bottom. */
  function PageDraws(chunk: seq<string>): seq<TextDraw> {
    seq(|chunk|, j requires 0 <= j < |chunk| => TextDraw(chunk[j], LeftX, TopY + LineStep * j))
  }

  /** Reference layout, defined by counting rather than by the cursor: the
      lines are cut into consecutive pages of LinesPerPage lines, and the
      document always has at least its first page. */
  function Layout(lines: seq<string>): seq<seq<TextDraw>>
    decreases |lines|
  {
    if |lines| <= LinesPerPage then [PageDraws(lines)]
    else [PageDraws(lines[..LinesPerPage])] + Layout(lines[LinesPerPage..])
  }

  /** The text of every draw, page after page. */
  function DrawnLines(pages: seq<seq<TextDraw>>): seq<string> {
    if pages == [] then []
    else seq(|pages[0]|, j requires 0 <= j < |pages[0]| => pages[0][j].line) + DrawnLines(pages[1..])
  }

  /** The last page of a document. */
  function LastPage(pages: seq<seq<TextDraw>>): seq<TextDraw>
    requires pages != []
  {
    pages[|pages| - 1]
  }

  // ---------------------------------------------------------------------
  // Properties of the reference layout
  // ---------------------------------------------------------------------

  /** The document has one page for no lines, and ceil(n / 38) pages for n >= 1 lines. */
  lemma {:induction false} LayoutPageCount(lines: seq<string>)
    ensures |Layout(lines)| == if lines == [] then 1 else (|lines| + LinesPerPage - 1) / LinesPerPage
    decreases |lines|
  {
    if |lines| > LinesPerPage {
      LayoutPageCount(lines[LinesPerPage..]);
    }
  }

  /** Every page but the last holds exactly 38 lines; the last holds at most
      38, and at least one when there is any line. */
  lemma {:induction false} LayoutPageSizes(lines: seq<string>)
    ensures Layout(lines) != []
    ensures forall p :: 0 <= p < |Layout(lines)| - 1 ==> |Layout(lines)[p]| == LinesPerPage
    ensures |LastPage(Layout(lines))| <= LinesPerPage
    ensures lines != [] ==> |LastPage(Layout(lines))| >= 1
    decreases |lines|
  {
    if |lines| > LinesPerPage {
      var rest := lines[LinesPerPage..];
      LayoutPageSizes(rest);
      assert Layout(lines) == [PageDraws(lines[..LinesPerPage])] + Layout(rest);
    }
  }

  /** Every line is drawn exactly once, in input order. */
  lemma {:induction false} LayoutDrawsEachLineOnce(lines: seq<string>)
    ensures DrawnLines(Layout(lines)) == lines
    decreases |lines|
  {
    var n := LinesPerPage;
    if |lines| <= n {
      assert DrawnLines(Layout(lines)) == DrawnLines([PageDraws(lines)]);
      assert [PageDraws(lines)][1..] == [];
    } else {
      LayoutDrawsEachLineOnce(lines[n..]);
      var pages := Layout(lines);
      assert pages[0] == PageDraws(lines[..n]);
      assert pages[1..] == Layout(lines[n..]);
      assert lines == lines[..n] + lines[n..];
    }
  }

  /** Line i lands on page i / 38, in row i % 38, at x = 15 and
      y = 20 + 7 * (i % 38). */
  lemma {:induction false} LayoutPosition(lines: seq<string>, i: int)
    requires 0 <= i < |lines|
    ensures i / LinesPerPage < |Layout(lines)|
    ensures i % LinesPerPage < |Layout(lines)[i / LinesPerPage]|
    ensures Layout(lines)[i / LinesPerPage][i % LinesPerPage]
         == TextDraw(lines[i], LeftX, TopY + LineStep * (i % LinesPerPage))
    decreases |lines|
  {
    var n := LinesPerPage;
    if i >= n {
      LayoutPosition(lines[n..], i - n);
      assert (i - n) / n == i / n - 1;
      assert (i - n) % n == i % n;
    }
  }

  /** No line is drawn outside the band 20 <= y <= 280, and all at x = 15. */
  lemma {:induction false} LayoutWithinMargins(lines: seq<string>)
    ensures forall p, j :: 0 <= p < |Layout(lines)| && 0 <= j < |Layout(lines)[p]| ==>
      Layout(lines)[p][j].x == LeftX && TopY <= Layout(lines)[p][j].y <= BottomY
    decreases |lines|
  {
    var n := LinesPerPage;
    if |lines| > n {
      LayoutWithinMargins(lines[n..]);
      assert Layout(lines) == [PageDraws(lines[..n])] + Layout(lines[n..]);
    }
  }

  /** Two consecutive lines: either the second is on the same page, 7 lower,
      or the first filled its page (the cursor after it, first + 7, is past
      280) and the second opens the next page at y = 20. */
  lemma LayoutConsecutive(lines: seq<string>, i: int)
    requires 0 <= i && i + 1 < |lines|
    ensures i / LinesPerPage < |Layout(lines)| && i % LinesPerPage < |Layout(lines)[i / LinesPerPage]|
    ensures (i + 1) / LinesPerPage < |Layout(lines)| && (i + 1) % LinesPerPage < |Layout(lines)[(i + 1) / LinesPerPage]|
    ensures var n := LinesPerPage; var a, b := Layout(lines)[i / n][i % n], Layout(lines)[(i + 1) / n][(i + 1) % n];
      || ((i + 1) / n == i / n && b.y == a.y + LineStep)
      || ((i + 1) / n == i / n + 1 && a.y + LineStep > BottomY && b.y == TopY)
  {
    LayoutPosition(lines, i);
    LayoutPosition(lines, i + 1);
  }

  /** Appending one line to a layout either extends its last page by a draw
      at y = 20 + 7 * (lines on it), or, when that page is full, opens a new
      page holding only the line at y = 20. */
  lemma {:induction false} LayoutAppend(lines: seq<string>, line: string)
    ensures var pages := Layout(lines); var last := LastPage(pages);
      Layout(lines + [line]) ==
        if |last| == LinesPerPage then pages + [[TextDraw(line, LeftX, TopY)]]
        else pages[..|pages| - 1] + [last + [TextDraw(line, LeftX, TopY + LineStep * |last|)]]
    decreases |lines|
  {
    var n := LinesPerPage;
    var s := lines + [line];
    if |lines| < n {
      assert PageDraws(s) == PageDraws(lines) + [TextDraw(line, LeftX, TopY + LineStep * |lines|)];
    } else if |lines| == n {
      assert s[..n] == lines && s[n..] == [line];
      assert PageDraws([line]) == [TextDraw(line, LeftX, TopY)];
    } else {
      LayoutAppend(lines[n..], line);
      assert s[..n] == lines[..n];
      assert s[n..] == lines[n..] + [line];
      LayoutPageSizes(lines[n..]);
    }
  }

  /** The loop's page-break step: a line after a full page opens a new page at the top. */
  lemma LayoutAppendFull(lines: seq<string>, line: string)
    requires |LastPage(Layout(lines))| == LinesPerPage
    ensures Layout(lines + [line]) == Layout(lines) + [[TextDraw(line, LeftX, TopY)]]
  {
    LayoutAppend(lines, line);
  }

  /** The loop's same-page step: a line after a page with room goes below its last line. */
  lemma LayoutAppendRoom(lines: seq<string>, line: string)
    requires |LastPage(Layout(lines))| < LinesPerPage
    ensures var pages := Layout(lines); var last := LastPage(pages);
      Layout(lines + [line]) == pages[..|pages| - 1] + [last + [TextDraw(line, LeftX, TopY + LineStep * |last|)]]
  {
    LayoutAppend(lines, line);
  }

  // ---------------------------------------------------------------------
  // The document under construction and the page component
  // ---------------------------------------------------------------------

  /** A jsPDF document: its pages, each the list of text draws made on it. */
  class Pdf {
    var pages: seq<seq<TextDraw>>

    /** `new jsPDF()`: a document with one empty page. */
    constructor ()
      ensures pages == [[]]
    {
      pages := [[]];
    }

    /** `pdf.addPage()`: a new empty page becomes the current one. */
    method AddPage()
      modifies this
      ensures pages == old(pages) + [[]]
    {
      pages := pages + [[]];
    }

    /** `pdf.text(line, x, y)`: draws on the current (last) page. */
    method Text(line: string, x: int, y: int)
      requires pages != []
      modifies this
      ensures pages == old(pages)[..|old(pages)| - 1] + [LastPage(old(pages)) + [TextDraw(line, x, y)]]
    {
      pages := pages[..|pages| - 1] + [LastPage(pages) + [TextDraw(line, x, y)]];
    }
  }

  /** The `lines.forEach` loop of `handleConvert` on a fresh document:
      before each line, a cursor past 280 starts a new page and returns to
      20; the line is drawn at (15, cursor) and the cursor moves down 7. The
      document it builds is the reference layout. */
  method WriteLines(lines: seq<string>) returns (pdf: Pdf)
    ensures fresh(pdf)
    ensures pdf.pages == Layout(lines)
  {
    pdf := new Pdf();
    var y := TopY;
    var i := 0;
    assert lines[..0] == [] && PageDraws([]) == [];
    while i < |lines|
      invariant 0 <= i <= |lines|
      invariant pdf.pages == Layout(lines[..i])
      invariant y == TopY + LineStep * |LastPage(pdf.pages)|
    {
      var done := lines[..i];
      ghost var before := pdf.pages;
      LayoutPageSizes(done);
      if y > BottomY {
        LayoutAppendFull(done, lines[i]);
        pdf.AddPage();
        y := TopY;
        ghost var withNewPage := pdf.pages;
        ghost var draw := TextDraw(lines[i], LeftX, TopY);
        assert withNewPage[..|withNewPage| - 1] == before;
        assert LastPage(withNewPage) + [draw] == [draw];
        pdf.Text(lines[i], LeftX, y);
        assert pdf.pages == before + [[TextDraw(lines[i], LeftX, TopY)]];
      } else {
        LayoutAppendRoom(done, lines[i]);
        pdf.Text(lines[i], LeftX, y);
      }
      y := y + LineStep;
      assert lines[..i + 1] == done + [lines[i]];
      i := i + 1;
    }
    assert lines[..|lines|] == lines;
  }

  /** The page component's state: the editor contents and the in-progress flag.
      `isConvertingWrites` records every call of the flag's setter. */
  class App {
    var markdown: string
    var isConverting: bool
    ghost var isConvertingWrites: seq<bool>

    constructor ()
      ensures markdown == "" && !isConverting && isConvertingWrites == []
    {
      markdown := "";
      isConverting := false;
      isConvertingWrites := [];
    }

    /** The editor's change handler. */
    method SetMarkdown(text: string)
      modifies this`markdown
      ensures markdown == text
    {
      markdown := text;
    }

    /** The convert button is disabled exactly when the editor holds only
        whitespace or a conversion is in progress. */
    function ConvertDisabled(): (r: bool)
      reads this
      ensures r <==> IsBlank(markdown) || isConverting
    {
      TrimProperties(markdown);
      Trim(markdown) == "" || isConverting
    }

    /** `handleConvert`. `lines` stands for what the Markdown parser, the text
        extraction and the line wrapper make of the editor contents, and
        `parseThrows` for an exception thrown by them. The result is the
        document handed to `pdf.save`, if any. */
    method HandleConvert(lines: seq<string>, parseThrows: bool) returns (saved: Option<seq<seq<TextDraw>>>)
      modifies this`isConverting, this`isConvertingWrites
      ensures IsBlank(markdown) ==>
        saved == None && isConverting == old(isConverting) && isConvertingWrites == old(isConvertingWrites)
      ensures !IsBlank(markdown) ==>
        !isConverting && isConvertingWrites == old(isConvertingWrites) + [true, false]
      ensures !IsBlank(markdown) && !parseThrows ==> saved == Some(Layout(lines))
      ensures parseThrows ==> saved == None
    {
      TrimProperties(markdown);
      if Trim(markdown) == "" {
        return None;
      }
      isConverting, isConvertingWrites := true, isConvertingWrites + [true];
      saved := None;
      if !parseThrows {
        var pdf := WriteLines(lines);
        saved := Some(pdf.pages);
      }
      isConverting, isConvertingWrites := false, isConvertingWrites + [false];
    }
  }
}
