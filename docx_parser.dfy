/** Text extraction from a .docx document: the stripped, non-blank
    paragraphs joined by newlines. Reading the .docx container itself is the
    python-docx library's work; here the paragraph texts are the input. */
module DocxParser {
  import opened PyStr

  /** `extract_text_from_docx`, given the texts of `doc.paragraphs`.
      The text is empty exactly when every paragraph is blank, and never
      starts or ends with whitespace. */
  function ExtractTextFromDocx(paragraphs: seq<string>): (text: string)
    ensures text == "" <==> forall j :: 0 <= j < |paragraphs| ==> AllSpace(paragraphs[j])
    ensures text == "" || (!IsSpace(text[0]) && !IsSpace(text[|text| - 1]))
  {
    var segments := StrippedNonBlank(paragraphs);
    StrippedNonBlankEmpty(paragraphs);
    if segments != [] then
      StrippedNonBlankClean(paragraphs);
      JoinCleanEnds(segments, "\n");
      Join(segments, "\n")
    else
      ""
  }

  /** Two texts as the extractor joins them: one newline between, none
      when either is empty. */
  function JoinLines(a: string, b: string): string
  {
    if a == "" then b else if b == "" then a else a + "\n" + b
  }

  /** Paragraph order is kept: the text of `a + b` is the text of `a`
      followed by the text of `b`. */
  lemma ExtractInOrder(a: seq<string>, b: seq<string>)
    ensures ExtractTextFromDocx(a + b) == JoinLines(ExtractTextFromDocx(a), ExtractTextFromDocx(b))
  {
    StrippedNonBlankAppend(a, b);
    StrippedNonBlankEmpty(a);
    StrippedNonBlankEmpty(b);
    JoinAppend(StrippedNonBlank(a), StrippedNonBlank(b), "\n");
  }

  /** A whitespace-only paragraph contributes nothing, wherever it stands. */
  lemma BlankParagraphOmitted(a: seq<string>, blank: string, b: seq<string>)
    requires AllSpace(blank)
    ensures ExtractTextFromDocx(a + [blank] + b) == ExtractTextFromDocx(a + b)
  {
    ExtractInOrder(a + [blank], b);
    ExtractInOrder(a, [blank]);
    ExtractInOrder(a, b);
  }

  /** When no paragraph holds a line break, splitting the text at
      newlines gives back exactly the stripped, non-blank paragraphs. */
  lemma ExtractSplitsBack(paragraphs: seq<string>)
    requires forall j :: 0 <= j < |paragraphs| ==> '\n' !in paragraphs[j]
    requires StrippedNonBlank(paragraphs) != []
    ensures SplitOn(ExtractTextFromDocx(paragraphs), "\n") == StrippedNonBlank(paragraphs)
  {
    StrippedNonBlankAvoids(paragraphs, '\n');
    JoinThenSplit(StrippedNonBlank(paragraphs), '\n');
  }
}
