/** What the two upload routers share: the uploaded file, how it is handed
    to the language model (extracted text for a Word document, the raw
    bytes otherwise), and the model's reply. The model itself is an oracle
    and appears here only through its reply. */
module Uploads {
  import opened Values
  import opened PyStr
  import DocxParser

  /** An uploaded file. `paragraphs` stands for what the .docx reader finds
      in `content`: the paragraph texts, or None when the content is not a
      readable Word document. */
  datatype UploadFile = UploadFile(filename: string, content: Bytes, contentType: Option<string>,
                                   paragraphs: Option<seq<string>>)

  const PdfType: string := "application/pdf"
  const DocxType: string := "application/vnd.openxmlformats-officedocument.wordprocessingml.document"

  /** `file.content_type or "application/pdf"` */
  function ContentTypeOrPdf(f: UploadFile): (t: string)
    ensures t != ""
    ensures f.contentType.Some? && f.contentType.value != "" ==> t == f.contentType.value
    ensures f.contentType.None? || f.contentType.value == "" ==> t == PdfType
  {
    if f.contentType.Some? && f.contentType.value != "" then f.contentType.value else PdfType
  }

  /** Whether the routers extract the text themselves: a file name ending
      in ".docx" in any letter case, or the Word content type. */
  predicate IsDocxUpload(f: UploadFile)
  {
    EndsWith(Lower(f.filename), ".docx") || ContentTypeOrPdf(f) == DocxType
  }

  /** A name ending in ".DOCX" counts as a Word document here, unlike in
      the analyzer's case-sensitive test. */
  lemma UpperCaseDocxIsDocx(f: UploadFile)
    requires EndsWith(f.filename, ".DOCX")
    ensures IsDocxUpload(f)
  {
    var n := |f.filename|;
    var low := Lower(f.filename);
    assert f.filename[n - 5..] == ".DOCX";
    assert forall k :: n - 5 <= k < n ==> low[k] == LowerChar(f.filename[k]);
    assert f.filename[n - 5] == '.' && f.filename[n - 4] == 'D' && f.filename[n - 3] == 'O';
    assert f.filename[n - 2] == 'C' && f.filename[n - 1] == 'X';
    assert low[n - 5..] == ".docx";
  }

  /** What the model is given for a file. */
  datatype Part = TextPart(text: string) | BytesPart(data: Bytes, mimeType: string)

  /** The part built for a file: the extracted text of a Word document
      (failing when it cannot be read), or the bytes with their content
      type. */
  function FilePart(f: UploadFile): (r: Result<Part, string>)
    ensures !IsDocxUpload(f) ==> r == Ok(BytesPart(f.content, ContentTypeOrPdf(f)))
    ensures IsDocxUpload(f) ==> (r.Ok? <==> f.paragraphs.Some?)
    ensures r.Ok? && IsDocxUpload(f) ==> r.value == TextPart(DocxParser.ExtractTextFromDocx(f.paragraphs.value))
  {
    if !IsDocxUpload(f) then Ok(BytesPart(f.content, ContentTypeOrPdf(f)))
    else if f.paragraphs.Some? then Ok(TextPart(DocxParser.ExtractTextFromDocx(f.paragraphs.value)))
    else Err("File is not a zip file")
  }

  /** The model's reply: its text, the structured object the client
      library parsed against the schema (as a dict), and what
      `json.loads(text)` gives when that is a JSON object. */
  datatype LlmReply = LlmReply(text: string, parsed: Option<Record>, decoded: Option<Record>)

  const ModelOutputError: string := "Expecting value: model output is not a JSON object"
}
