/** The two text extractors of app.py. The document libraries are abstracted away:
    a PDF is the sequence of what each page's text extraction returns (`None` when it
    returns nothing), a DOCX document is the sequence of its paragraphs' texts. */
module Extractors {
  import opened Wrappers
  import opened Text

  /** Python truthiness of a page's extracted text: present and non-empty. */
  predicate HasText(page: Option<string>) {
    page.Some? && page.value != ""
  }

  /** What one page adds to the PDF text. */
  function PageContribution(page: Option<string>): string {
    if HasText(page) then page.value + " " else ""
  }

  /** The text the PDF loop has built after the given pages, in document order. */
  function PdfText(pages: seq<Option<string>>): string
  {
    if pages == [] then "" else PdfText(pages[..|pages| - 1]) + PageContribution(pages[|pages| - 1])
  }

  /** The text the DOCX loop has built after the given paragraphs, in document order. */
  function DocxText(paragraphs: seq<string>): string
  {
    if paragraphs == [] then ""
    else DocxText(paragraphs[..|paragraphs| - 1]) + paragraphs[|paragraphs| - 1] + " "
  }

  /** The texts of the pages that have text, in document order. */
  function PageTexts(pages: seq<Option<string>>): (texts: seq<string>)
    ensures |texts| <= |pages|
    ensures forall t :: t in texts ==> t != ""
  {
    if pages == [] then []
    else PageTexts(pages[..|pages| - 1]) + (if HasText(pages[|pages| - 1]) then [pages[|pages| - 1].value] else [])
  }

  // ---------------------------------------------------------------- the loops

  /** `extract_text_from_pdf`: each page with non-empty text contributes its text and a space. */
  method ExtractTextFromPdf(pages: seq<Option<string>>) returns (text: string)
    ensures text == PdfText(pages)
  {
    text := "";
    for i := 0 to |pages|
      invariant text == PdfText(pages[..i])
    {
      assert pages[..i + 1][..i] == pages[..i];
      if HasText(pages[i]) {
        text := text + pages[i].value + " ";
      }
    }
    assert pages[..|pages|] == pages;
  }

  /** `extract_text_from_docx`: every paragraph contributes its text and a space, even when empty. */
  method ExtractTextFromDocx(paragraphs: seq<string>) returns (text: string)
    ensures text == DocxText(paragraphs)
  {
    text := "";
    for i := 0 to |paragraphs|
      invariant text == DocxText(paragraphs[..i])
    {
      assert paragraphs[..i + 1][..i] == paragraphs[..i];
      text := text + paragraphs[i] + " ";
    }
    assert paragraphs[..|paragraphs|] == paragraphs;
  }

  // ---------------------------------------------------------------- properties

  /** DOCX text is built paragraph by paragraph: the text of two runs of paragraphs is
      the text of the first followed by the text of the second. */
  lemma {:induction false} DocxTextAppend(a: seq<string>, b: seq<string>)
    ensures DocxText(a + b) == DocxText(a) + DocxText(b)
    decreases |b|
  {
    if b == [] {
      assert a + b == a;
    } else {
      var n := |b| - 1;
      assert (a + b)[..|a + b| - 1] == a + b[..n];
      DocxTextAppend(a, b[..n]);
    }
  }

  /** One paragraph yields its text followed by a single space. */
  lemma DocxTextSingle(p: string)
    ensures DocxText([p]) == p + " "
  {
  }

  /** The DOCX text is as long as all paragraphs together plus one space per paragraph. */
  lemma {:induction false} DocxTextLength(paragraphs: seq<string>)
    ensures |DocxText(paragraphs)| == TotalLength(paragraphs) + |paragraphs|
  {
    if paragraphs != [] {
      DocxTextLength(paragraphs[..|paragraphs| - 1]);
    }
  }

  /** The DOCX text is whitespace only exactly when every paragraph is; in particular a
      document whose paragraphs are all empty yields only spaces. */
  lemma {:induction false} DocxTextBlankIff(paragraphs: seq<string>)
    ensures IsBlank(DocxText(paragraphs)) <==> forall i :: 0 <= i < |paragraphs| ==> IsBlank(paragraphs[i])
  {
    if paragraphs != [] {
      var n := |paragraphs| - 1;
      var init := paragraphs[..n];
      DocxTextBlankIff(init);
      BlankAppend(DocxText(init) + paragraphs[n], " ");
      BlankAppend(DocxText(init), paragraphs[n]);
      assert forall i :: 0 <= i < n ==> init[i] == paragraphs[i];
    }
  }

  /** The PDF text is the DOCX-style concatenation of the texts of the pages that have text. */
  lemma {:induction false} PdfTextOfPageTexts(pages: seq<Option<string>>)
    ensures PdfText(pages) == DocxText(PageTexts(pages))
  {
    if pages != [] {
      var n := |pages| - 1;
      PdfTextOfPageTexts(pages[..n]);
      if HasText(pages[n]) {
        DocxTextAppend(PageTexts(pages[..n]), [pages[n].value]);
        DocxTextSingle(pages[n].value);
      } else {
        assert PageTexts(pages) == PageTexts(pages[..n]) + [] == PageTexts(pages[..n]);
        assert PdfText(pages) == PdfText(pages[..n]) + "" == PdfText(pages[..n]);
      }
    }
  }

  /** The texts kept are exactly those of the pages with text. */
  lemma {:induction false} PageTextsMembers(pages: seq<Option<string>>)
    ensures forall t :: t in PageTexts(pages) <==> exists i :: 0 <= i < |pages| && HasText(pages[i]) && pages[i].value == t
  {
    if pages != [] {
      var n := |pages| - 1;
      PageTextsMembers(pages[..n]);
      assert forall i :: 0 <= i < n ==> pages[..n][i] == pages[i];
    }
  }

  /** The PDF text is empty exactly when no page has text: a scanned-image PDF yields "". */
  lemma {:induction false} PdfTextEmptyIff(pages: seq<Option<string>>)
    ensures PdfText(pages) == "" <==> forall i :: 0 <= i < |pages| ==> !HasText(pages[i])
  {
    if pages != [] {
      var n := |pages| - 1;
      PdfTextEmptyIff(pages[..n]);
      assert forall i :: 0 <= i < n ==> pages[..n][i] == pages[i];
    }
  }

  /** The PDF text is whitespace only exactly when every page's text, where there is one,
      is whitespace only. */
  lemma PdfTextBlankIff(pages: seq<Option<string>>)
    ensures IsBlank(PdfText(pages)) <==> forall i :: 0 <= i < |pages| && pages[i].Some? ==> IsBlank(pages[i].value)
  {
    PdfTextOfPageTexts(pages);
    DocxTextBlankIff(PageTexts(pages));
    PageTextsMembers(pages);
    var texts := PageTexts(pages);
    if forall i :: 0 <= i < |pages| && pages[i].Some? ==> IsBlank(pages[i].value) {
      forall j | 0 <= j < |texts| ensures IsBlank(texts[j]) {
        assert texts[j] in texts;
      }
    }
    if forall j :: 0 <= j < |texts| ==> IsBlank(texts[j]) {
      forall i | 0 <= i < |pages| && pages[i].Some? ensures IsBlank(pages[i].value) {
        if HasText(pages[i]) {
          assert pages[i].value in texts;
        }
      }
    }
  }
}
