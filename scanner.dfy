/** The processing block of app.py: the two gates, text extraction, cleaning, scoring,
    skill extraction and report assembly, in the order the script runs them.

    What the script gets from libraries it cannot see arrives as parameters:
    `nlp` is the language model's tokenizer and classifier used by `clean_text`, and
    `ats` is `calculate_ats_score` (TF-IDF vectors and cosine similarity, rounded). The
    vectorizer raises an error when neither cleaned text has a term it keeps (an empty
    vocabulary), and the script then ends without a report, so `ats` returns `None` for
    the inputs on which it fails. */
module Scanner {
  import opened Wrappers
  import opened Text
  import opened Extractors
  import opened Skills
  import opened Normalizer
  import opened Report

  /** An uploaded resume, as the document libraries see it. */
  datatype Document =
    | Pdf(pages: seq<Option<string>>)
    | Docx(paragraphs: seq<string>)

  /** Why a run shows no report. */
  datatype HaltReason =
    | AwaitingInput        // no upload yet, or an empty job description
    | UnableToExtractText  // the resume text is empty or whitespace only
    | ScoringFailed        // the scorer raised an error (an empty TF-IDF vocabulary)

  datatype Outcome = Halted(reason: HaltReason) | Completed(report: ScanResult)

  /** The resume text: the PDF extractor for PDF uploads, the DOCX extractor otherwise.
      It is whitespace only exactly when every page text there is, or every paragraph, is. */
  function DocumentText(doc: Document): (text: string)
    ensures IsBlank(text) <==> match doc
      case Pdf(pages) => forall i :: 0 <= i < |pages| && pages[i].Some? ==> IsBlank(pages[i].value)
      case Docx(paragraphs) => forall i :: 0 <= i < |paragraphs| ==> IsBlank(paragraphs[i])
  {
    match doc
    case Pdf(pages) => PdfTextBlankIff(pages); PdfText(pages)
    case Docx(paragraphs) => DocxTextBlankIff(paragraphs); DocxText(paragraphs)
  }

  /** `clean_text(text)`: lowercase, tokenize with the language model, filter and join.
      The text of every token of the lowercased text that is neither a stop-word nor
      punctuation appears in the result. */
  function Clean(nlp: string -> seq<Token>, text: string): (r: string)
    ensures forall t :: t in nlp(Lower(text)) && Keeps(t) ==> IsSubstring(t.text, r)
  {
    CleanText(nlp(Lower(text)))
  }

  /** What one run of the script shows for the given inputs. The input gate halts
      exactly when the upload or the job description is missing; past it, the extraction
      gate halts exactly when the resume text is whitespace only. */
  function ScanOf(upload: Option<Document>, jobDescription: string,
                  nlp: string -> seq<Token>, ats: (string, string) -> Option<real>): (o: Outcome)
    ensures o == Halted(AwaitingInput) <==> upload.None? || jobDescription == ""
    ensures o == Halted(UnableToExtractText)
        <==> upload.Some? && jobDescription != "" && IsBlank(DocumentText(upload.value))
  {
    if upload.None? || jobDescription == "" then Halted(AwaitingInput)
    else
      var resumeText := DocumentText(upload.value);
      if Strip(resumeText) == "" then Halted(UnableToExtractText)
      else
        var score := ats(Clean(nlp, resumeText), Clean(nlp, jobDescription));
        if score.None? then Halted(ScoringFailed)
        else Completed(Assemble(score.value, SkillsOf(resumeText), SkillsOf(jobDescription)))
  }

  method ExtractText(doc: Document) returns (text: string)
    ensures text == DocumentText(doc)
  {
    match doc
    case Pdf(pages) =>
      text := ExtractTextFromPdf(pages);
    case Docx(paragraphs) =>
      text := ExtractTextFromDocx(paragraphs);
  }

  /** The script's processing block, step by step. */
  method RunScan(upload: Option<Document>, jobDescription: string,
                 nlp: string -> seq<Token>, ats: (string, string) -> Option<real>)
    returns (outcome: Outcome)
    ensures outcome == ScanOf(upload, jobDescription, nlp, ats)
  {
    if upload.None? || jobDescription == "" {
      return Halted(AwaitingInput);
    }
    var resumeText := ExtractText(upload.value);
    if Strip(resumeText) == "" {
      return Halted(UnableToExtractText);
    }
    var cleanResume := Clean(nlp, resumeText);
    var cleanJd := Clean(nlp, jobDescription);
    var score := ats(cleanResume, cleanJd);
    if score.None? {
      return Halted(ScoringFailed);
    }
    var resumeSkills := ExtractSkills(resumeText);
    var jdSkills := ExtractSkills(jobDescription);
    var matched := Matched(resumeSkills, jdSkills);
    var missing := Missing(resumeSkills, jdSkills);
    outcome := Completed(ScanResult(score.value, matched, missing, TierOf(score.value)));
  }

  // ---------------------------------------------------------------- properties

  /** A report is produced exactly when there is an upload, the job description is not
      empty, the resume text is not whitespace only and the scorer succeeds on the two
      cleaned texts; when the gates pass but the scorer fails, the run ends without a
      report. */
  lemma ReportIffGatesPass(upload: Option<Document>, jobDescription: string,
                           nlp: string -> seq<Token>, ats: (string, string) -> Option<real>)
    ensures ScanOf(upload, jobDescription, nlp, ats).Completed?
        <==> && upload.Some? && jobDescription != "" && !IsBlank(DocumentText(upload.value))
             && ats(Clean(nlp, DocumentText(upload.value)), Clean(nlp, jobDescription)).Some?
    ensures ScanOf(upload, jobDescription, nlp, ats) == Halted(ScoringFailed)
        <==> && upload.Some? && jobDescription != "" && !IsBlank(DocumentText(upload.value))
             && ats(Clean(nlp, DocumentText(upload.value)), Clean(nlp, jobDescription)).None?
  {
  }

  /** The report of a completed run: the score is the scorer's value on the two cleaned
      texts, the matched skills are the vocabulary entries found in both texts, the
      missing ones those found in the job description only, and the tier is that of
      the score. */
  lemma CompletedReport(upload: Option<Document>, jobDescription: string,
                        nlp: string -> seq<Token>, ats: (string, string) -> Option<real>)
    requires ScanOf(upload, jobDescription, nlp, ats).Completed?
    ensures var r := ScanOf(upload, jobDescription, nlp, ats).report;
      var resume := Lower(DocumentText(upload.value));
      && Some(r.score) == ats(Clean(nlp, DocumentText(upload.value)), Clean(nlp, jobDescription))
      && (forall s :: s in r.matched <==> s in SKILLS && IsSubstring(s, resume) && IsSubstring(s, Lower(jobDescription)))
      && (forall s :: s in r.missing <==> s in SKILLS && !IsSubstring(s, resume) && IsSubstring(s, Lower(jobDescription)))
      && r.tier == TierOf(r.score)
  {
  }

  /** A PDF none of whose pages yields text (a scanned image, say) halts the run once both
      inputs are present. */
  lemma TextlessPdfHalts(pages: seq<Option<string>>, jobDescription: string,
                         nlp: string -> seq<Token>, ats: (string, string) -> Option<real>)
    requires jobDescription != ""
    requires forall i :: 0 <= i < |pages| ==> !HasText(pages[i])
    ensures ScanOf(Some(Pdf(pages)), jobDescription, nlp, ats) == Halted(UnableToExtractText)
  {
    PdfTextEmptyIff(pages);
  }

  /** A DOCX document whose paragraphs are all empty or whitespace yields only spaces and
      halts the run once both inputs are present. */
  lemma BlankDocxHalts(paragraphs: seq<string>, jobDescription: string,
                       nlp: string -> seq<Token>, ats: (string, string) -> Option<real>)
    requires jobDescription != ""
    requires forall i :: 0 <= i < |paragraphs| ==> IsBlank(paragraphs[i])
    ensures ScanOf(Some(Docx(paragraphs)), jobDescription, nlp, ats) == Halted(UnableToExtractText)
  {
    DocxTextBlankIff(paragraphs);
  }

  /** The input gate only asks for a non-empty job description: one made of spaces passes
      both gates next to a resume with some non-whitespace paragraph, and the run then
      gets a report exactly when the scorer succeeds. */
  lemma BlankJobDescriptionPassesGate(paragraphs: seq<string>, k: nat,
                                      nlp: string -> seq<Token>, ats: (string, string) -> Option<real>)
    requires k < |paragraphs| && !IsBlank(paragraphs[k])
    ensures ScanOf(Some(Docx(paragraphs)), " ", nlp, ats) != Halted(AwaitingInput)
    ensures ScanOf(Some(Docx(paragraphs)), " ", nlp, ats) != Halted(UnableToExtractText)
    ensures ScanOf(Some(Docx(paragraphs)), " ", nlp, ats).Completed?
        <==> ats(Clean(nlp, DocxText(paragraphs)), Clean(nlp, " ")).Some?
  {
    DocxTextBlankIff(paragraphs);
    ReportIffGatesPass(Some(Docx(paragraphs)), " ", nlp, ats);
  }

  /** Matching is by substring, so a resume and a job description that both use the word
      "experience" always share the skill "c", whatever else they say. */
  lemma SharedExperienceMatchesC(upload: Option<Document>, jobDescription: string,
                                 nlp: string -> seq<Token>, ats: (string, string) -> Option<real>,
                                 a: string, b: string, c: string, d: string)
    requires ScanOf(upload, jobDescription, nlp, ats).Completed?
    requires DocumentText(upload.value) == a + "experience" + b
    requires jobDescription == c + "experience" + d
    ensures "c" in ScanOf(upload, jobDescription, nlp, ats).report.matched
  {
    ExperienceMatchesC(a, b);
    ExperienceMatchesC(c, d);
  }
}
