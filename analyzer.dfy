/** The analyzer endpoint: extract the text of a resume and of a job
    description, chosen by each file name's extension. The PDF extractor is
    an oracle; Word documents go through the paragraph extractor. */
module Analyzer {
  import opened Values
  import opened PyStr
  import opened FirebaseConfig
  import opened Uploads
  import DocxParser

  /** How a file name is handled: by exact, case-sensitive suffix. */
  datatype FileKind = PdfFile | DocxFile | Unsupported

  function KindOf(filename: string): FileKind
  {
    if EndsWith(filename, ".pdf") then PdfFile
    else if EndsWith(filename, ".docx") then DocxFile
    else Unsupported
  }

  /** The suffix test is case-sensitive: a name ending in ".PDF" or ".DOCX"
      is refused, although the upload routers lower-case the name first. */
  lemma UpperCaseRejected(filename: string)
    requires EndsWith(filename, ".PDF") || EndsWith(filename, ".DOCX")
    ensures KindOf(filename) == Unsupported
  {
    var n := |filename|;
    assert filename[n - 1] == 'F' || filename[n - 1] == 'X';
    OtherLastChar(filename, ".pdf");
    OtherLastChar(filename, ".docx");
  }

  /** A name whose last character differs from a suffix's does not end
      with it. */
  lemma OtherLastChar(s: string, suffix: string)
    requires suffix != [] && s != [] && s[|s| - 1] != suffix[|suffix| - 1]
    ensures !EndsWith(s, suffix)
  {
    if |suffix| <= |s| {
      assert s[|s| - |suffix|..][|suffix| - 1] == s[|s| - 1];
    }
  }

  /** Exactly the two lower-case extensions are accepted. */
  lemma KindAccepted(filename: string)
    ensures KindOf(filename) != Unsupported <==> EndsWith(filename, ".pdf") || EndsWith(filename, ".docx")
  {
  }

  /** The text of one file, or the message of the exception raised while
      getting it: an unsupported name raises a 400 whose detail names the
      file's role. */
  function ExtractFile(f: UploadFile, pdf: Bytes -> Result<string, string>, unsupported: string): (r: Result<string, string>)
    ensures KindOf(f.filename) == Unsupported ==> r == Err(Describe(HttpError(400, unsupported)))
    ensures KindOf(f.filename) == PdfFile ==> r == pdf(f.content)
    ensures KindOf(f.filename) == DocxFile ==>
      (r.Ok? <==> f.paragraphs.Some?) && (r.Ok? ==> r.value == DocxParser.ExtractTextFromDocx(f.paragraphs.value))
  {
    match KindOf(f.filename)
    case PdfFile => pdf(f.content)
    case DocxFile =>
      if f.paragraphs.Some? then Ok(DocxParser.ExtractTextFromDocx(f.paragraphs.value))
      else Err("File is not a zip file")
    case Unsupported => Err(Describe(HttpError(400, unsupported)))
  }

  const ResumeUnsupported: string := "Unsupported resume format"
  const JdUnsupported: string := "Unsupported JD format"
  const ExtractionPrefix: string := "Extraction failed: "

  /** The reply: both texts. */
  datatype Analysis = Analysis(resumeText: string, jdText: string)

  /** `analyze_resume_and_jd`. Authentication comes first, outside the
      `try`; the resume is then handled before the job description, and any
      failure, including the 400 for an unsupported name, is re-raised as a
      500 carrying the original message. */
  function AnalyzeResumeAndJd(auth: AuthRequest, resume: UploadFile, jd: UploadFile,
                              pdf: Bytes -> Result<string, string>): (r: Result<Analysis, HttpError>)
    ensures Authenticate(auth).Err? ==> r == Err(Authenticate(auth).error)
    ensures Authenticate(auth).Ok? ==>
      (r.Ok? <==> ExtractFile(resume, pdf, ResumeUnsupported).Ok? && ExtractFile(jd, pdf, JdUnsupported).Ok?)
    ensures r.Ok? ==>
      r.value == Analysis(ExtractFile(resume, pdf, ResumeUnsupported).value, ExtractFile(jd, pdf, JdUnsupported).value)
    ensures Authenticate(auth).Ok? && ExtractFile(resume, pdf, ResumeUnsupported).Err? ==>
      r == Err(HttpError(500, ExtractionPrefix + ExtractFile(resume, pdf, ResumeUnsupported).error))
    ensures Authenticate(auth).Ok? && ExtractFile(resume, pdf, ResumeUnsupported).Ok? && ExtractFile(jd, pdf, JdUnsupported).Err? ==>
      r == Err(HttpError(500, ExtractionPrefix + ExtractFile(jd, pdf, JdUnsupported).error))
  {
    match Authenticate(auth)
    case Err(e) => Err(e)
    case Ok(_) =>
      match ExtractFile(resume, pdf, ResumeUnsupported)
      case Err(msg) => Err(HttpError(500, ExtractionPrefix + msg))
      case Ok(resumeText) =>
        match ExtractFile(jd, pdf, JdUnsupported)
        case Err(msg) => Err(HttpError(500, ExtractionPrefix + msg))
        case Ok(jdText) => Ok(Analysis(resumeText, jdText))
  }

  /** An unsupported resume is reported as a 500, whatever the job
      description is, and whatever the PDF extractor would do. */
  lemma UnsupportedResumeIs500(auth: AuthRequest, resume: UploadFile, jd: UploadFile, pdf: Bytes -> Result<string, string>)
    requires Authenticate(auth).Ok? && KindOf(resume.filename) == Unsupported
    ensures AnalyzeResumeAndJd(auth, resume, jd, pdf) ==
      Err(HttpError(500, ExtractionPrefix + Describe(HttpError(400, ResumeUnsupported))))
  {
  }

  /** A supported resume with an unsupported job description gives the
      job description's message. */
  lemma UnsupportedJdIs500(auth: AuthRequest, resume: UploadFile, jd: UploadFile, pdf: Bytes -> Result<string, string>)
    requires Authenticate(auth).Ok? && ExtractFile(resume, pdf, ResumeUnsupported).Ok?
    requires KindOf(jd.filename) == Unsupported
    ensures AnalyzeResumeAndJd(auth, resume, jd, pdf) ==
      Err(HttpError(500, ExtractionPrefix + Describe(HttpError(400, JdUnsupported))))
  {
  }
}
