# ATS resume scanner: the text-and-set pipeline

This project models the computational core of a single-page resume scanner (`app.py`).
The scanner takes an uploaded resume (PDF or DOCX) and a pasted job description. It
extracts the resume text and halts when that text is whitespace only. It then scores
the two texts against each other and finds which entries of a fixed skill vocabulary
each text mentions. The report lists the matched skills, the missing skills and a
three-way suggestion tier chosen from the score.

Modules, in dependency order:

- `Wrappers` (`wrappers.dfy`): the `Option` type. It stands for three things: a PDF page whose text extraction returns nothing, a missing upload (`ScanOf`'s `upload`), and a scorer call that fails (`ats`).
- `Text` (`text.dfy`): Python's `str.lower` over ASCII letters, `str.isspace`, `str.strip` and the substring test `pat in text`. The substring test is proved equal to the positional definition, and its closure properties are proved.
- `Extractors` (`extractors.dfy`): the accumulator loops of `extract_text_from_pdf` and `extract_text_from_docx`. Each loop is a method proved against a recursive specification function. The lemmas cover emptiness, whitespace-only output and length.
- `Skills` (`skills.dfy`): the vocabulary `SKILLS` and the `extract_skills` loop, proved equal to a set comprehension. The lemmas cover case insensitivity, monotonicity and how vocabulary entries imply one another.
- `Normalizer` (`normalizer.dfy`): the filter-and-join part of `clean_text`, over tokens that arrive already classified.
- `Report` (`report.dfy`): the matched/missing set algebra, the suggestion tiers and report assembly.
- `Scanner` (`scanner.dfy`): the processing block. It has the input gate (app.py:83) and the extraction gate (app.py:91-93). `RunScan` is proved equal to the pure `ScanOf`, and the lemmas about `ScanOf` state when a report is produced and what it contains.

Two inputs come from libraries the model cannot see, so they are passed in as function parameters of `ScanOf`/`RunScan`:

- `nlp`: the language model's tokenizer and its stop-word/punctuation classification, used by `clean_text`.
- `ats`: `calculate_ats_score`, i.e. TF-IDF vectors, cosine similarity and rounding. It returns `None` where the vectorizer raises an error. That happens when neither cleaned text has a term it keeps, an empty vocabulary. The script then ends with no report, which the model records as the halt `ScoringFailed`. Otherwise its value is the report's score.

Three behaviours of the code are worth stating outright:

- Substring matching also credits `c`. Take the resume "Proficient in Python and SQL, experience with Docker" and the job description "Looking for Python, SQL, and AWS experience". They share python, sql and c, because both contain "experience". `Skills.ExperienceMatchesC` and `Scanner.SharedExperienceMatchesC` prove this.
- Each extractor appends a space after every page that has text and after every paragraph. So a non-empty result ends in a space, and a DOCX whose paragraphs are all empty yields one space per paragraph.
- The input gate tests that the job description is non-empty, not that it has non-whitespace content. A job description of spaces passes both gates next to a resume with text (`Scanner.BlankJobDescriptionPassesGate`). Whether a report follows is then up to the scorer, as long as the libraries do not raise.

## Model

| member | source | states |
|---|---|---|
| `Text.Lower` | app.py:61 | lowercasing keeps the length and leaves no upper-case letter |
| `Text.LowerIdempotent` | app.py:61 | lowercasing twice gives the same text as lowercasing once |
| `Text.LowerAppend` | app.py:61 | lowercasing distributes over concatenation |
| `Text.Strip` | app.py:91 | `s.strip()` is no longer than `s`; it is `""` exactly when every character of `s` is Python whitespace, and otherwise it begins and ends with a non-whitespace character |
| `Text.IsSubstring` | app.py:64 | a pattern found in a text is no longer than the text, and the empty pattern is found in every text |
| `Text.SubstringIff` | app.py:64 | the recursive `pat in text` holds exactly when `pat` occurs at some position of `text` |
| `Text.SubstringOfAppend` | app.py:64 | `pat in text` stays true when anything is put before or after `text` |
| `Text.SubstringTransitive` | app.py:64 | a substring of a substring of `text` is a substring of `text` |
| `Extractors.ExtractTextFromPdf` | app.py:37-43 | the loop returns `PdfText(pages)`: each page with non-empty text adds that text and a space, in page order |
| `Extractors.ExtractTextFromDocx` | app.py:46-51 | the loop returns `DocxText(paragraphs)`: every paragraph, even an empty one, adds its text and a space, in order |
| `Extractors.PdfTextOfPageTexts` | app.py:40-42 | the PDF text is the DOCX-style concatenation of the texts of exactly the pages that have text; pages without text contribute nothing |
| `Extractors.PageTextsMembers` | app.py:41 | the texts kept are exactly those of pages whose text is present and non-empty |
| `Extractors.PdfTextEmptyIff` | app.py:39-43 | the PDF text is `""` exactly when no page has non-empty text |
| `Extractors.PdfTextBlankIff` | app.py:39-43 | the PDF text is whitespace only exactly when every present page text is whitespace only |
| `Extractors.DocxTextAppend` | app.py:49-50 | the DOCX text of two runs of paragraphs is the first run's text followed by the second's |
| `Extractors.DocxTextLength` | app.py:48-51 | the DOCX text's length is the sum of paragraph lengths plus the paragraph count |
| `Extractors.DocxTextBlankIff` | app.py:48-51 | the DOCX text is whitespace only exactly when every paragraph is, so an all-empty document yields only spaces |
| `Skills.SkillsOf` | app.py:60-66 | the skills found in a text are always a subset of the vocabulary |
| `Skills.ExtractSkills` | app.py:60-66 | the loop returns exactly the vocabulary entries that are substrings of the lowercased text |
| `Skills.VocabularyIsLowercase` | app.py:24-33 | every vocabulary entry is its own lower-case form |
| `Skills.SkillsIgnoreCase` | app.py:61 | two texts with the same lower-case form yield the same skills |
| `Skills.SkillsOfLower` | app.py:61 | a text and its lower-case form yield the same skills |
| `Skills.SkillFoundInContext` | app.py:61-65 | a vocabulary entry written in any letter case anywhere in a text is found |
| `Skills.SkillFoundVerbatim` | app.py:63-65 | a vocabulary entry written verbatim anywhere in a text is found |
| `Skills.SkillsMonotone` | app.py:63-65 | extending a text before or after never loses a skill |
| `Skills.ContainedSkillFollows` | app.py:63-65 | when one vocabulary entry contains another, finding the outer one implies finding the inner one |
| `Skills.CppImpliesC` | app.py:24-33 | a text credited with c++ is also credited with c |
| `Skills.MysqlImpliesSql` | app.py:24-33 | a text credited with mysql is also credited with sql |
| `Skills.GithubImpliesGit` | app.py:24-33 | a text credited with github is also credited with git |
| `Skills.JavascriptImpliesJava` | app.py:24-33 | a text credited with javascript is also credited with java |
| `Skills.ExperienceMatchesC` | app.py:64 | any text containing "experience" is credited with the skill "c" |
| `Normalizer.KeptTokens` | app.py:56 | every kept token is neither a stop-word nor punctuation and comes from the input, and every such input token is kept |
| `Normalizer.KeptTokensAppend` | app.py:56 | filtering works token by token, so the relative order of the kept tokens is preserved |
| `Normalizer.Join` | app.py:57 | `" ".join` of no words is `""`; otherwise the result is as long as the words together plus one space per pair of neighbours |
| `Normalizer.JoinAppend` | app.py:57 | joining two non-empty runs of words gives the two joined runs with a single space between them |
| `Normalizer.JoinContainsWords` | app.py:57 | every word is a substring of the joined text |
| `Normalizer.CleanText` | app.py:56-57 | the text of every token that is neither a stop-word nor punctuation appears in the cleaned text |
| `Normalizer.CleanTextAppend` | app.py:56-57 | cleaning two runs of tokens that each keep a token gives the two cleaned runs with a single space between them |
| `Report.TierOf` | app.py:132-137 | LOW exactly below 60, MEDIUM exactly from 60 up to but not including 80, HIGH exactly from 80 on |
| `Report.TierMonotone` | app.py:132-137 | a higher score never gets a lower tier |
| `Report.TierBoundaries` | app.py:132-137 | 59.99 is LOW, 60.00 and 79.99 are MEDIUM, 80.00 is HIGH |
| `Report.Matched` | app.py:106 | the matched skills are exactly those in both the resume's and the job description's skills |
| `Report.Missing` | app.py:107 | the missing skills are exactly the job description's skills that are not among the resume's |
| `Report.MatchedMissingPartition` | app.py:106-107 | matched and missing are disjoint and together make up the job description's skills; nothing missing is in the resume |
| `Report.Assemble` | app.py:106-107 | the report carries the score, a matched/missing partition of the job description's skills with missing disjoint from the resume's skills, and the score's tier |
| `Scanner.DocumentText` | app.py:86-89 | the resume text is whitespace only exactly when every present page text of a PDF, or every paragraph of a DOCX, is |
| `Scanner.Clean` | app.py:54-57 | the text of every kept token of the lowercased text appears in the cleaned text |
| `Scanner.ScanOf` | app.py:83-107 | the run awaits input exactly when the upload or the job description is missing, and halts with "unable to extract text" exactly when both are present and the resume text is whitespace only |
| `Scanner.ExtractText` | app.py:86-89 | PDF uploads go through the PDF extractor and DOCX uploads through the DOCX extractor |
| `Scanner.RunScan` | app.py:83-107 | the processing block yields exactly `ScanOf` of its inputs, including the halt when the scorer fails, when the language model and the document parsers do not raise |
| `Scanner.ReportIffGatesPass` | app.py:83-100 | a report is produced exactly when there is an upload, the job description is non-empty, the resume text is not whitespace only and the scorer succeeds on the two cleaned texts; when only the scorer fails, the run ends without a report; this holds when the language model and the document parsers do not raise |
| `Scanner.CompletedReport` | app.py:96-107 | a report's score is the scorer's value on the two cleaned texts; matched holds exactly the entries found in both texts, missing exactly those found in the job description only; the tier is the score's |
| `Scanner.TextlessPdfHalts` | app.py:91-93 | a PDF whose pages all lack text halts with "unable to extract text" |
| `Scanner.BlankDocxHalts` | app.py:91-93 | a DOCX whose paragraphs are all whitespace halts with "unable to extract text" |
| `Scanner.BlankJobDescriptionPassesGate` | app.py:83-100 | a job description made only of spaces, next to a DOCX with a non-whitespace paragraph, passes both gates; a report follows exactly when the scorer succeeds, when the language model and the document parsers do not raise |
| `Scanner.SharedExperienceMatchesC` | app.py:103-106 | a resume and a job description that both contain "experience" always share the skill "c" |

## Left out

- `calculate_ats_score` (app.py:69-73): TF-IDF vectors and cosine similarity are computed in floating point by scikit-learn. The model takes the scorer as the opaque parameter `ats`, and its score is a `real`. The model does not capture rounding to two decimals or the [0, 100] bound. `ats` returns `None` where the vectorizer raises "empty vocabulary". The model does not say which inputs do this, because that depends on the vectorizer's token pattern and its English stop-word list.
- Tokenization in `clean_text` (app.py:55): the language model is not visible. The model takes it as the parameter `nlp`, which returns classified tokens. Only the filter-and-join over those tokens is modelled.
- `load_nlp` and its resource caching (app.py:16-21): loading a model has no logic to model.
- PyPDF2 `PdfReader` and `docx.Document` (app.py:38, 47): binary document parsing is left out, and only their output enters the model. A PDF is the sequence of its page texts, with `None` where extraction returns nothing. A DOCX is the sequence of its paragraph texts. The PDF loop calls `page.extract_text()` twice per page; the model assumes both calls return the same value.
- Scanner.ReportIffGatesPass, Scanner.BlankJobDescriptionPassesGate, Scanner.RunScan: the model assumes that three library calls always succeed. Each can raise in the source, and the script then ends with an uncaught error and no report. The three calls are:
  - `nlp(text.lower())` (app.py:55, reached from app.py:96-97), which raises for a text longer than the language model's length limit (1,000,000 characters by default);
  - `PdfReader(file)` (app.py:38), which raises on a malformed or encrypted PDF;
  - `docx.Document(file)` (app.py:47), which raises on a malformed DOCX.

  These three members state the outcome of runs in which none of these calls raises. The model does not say which inputs make them raise.
- Dispatch on the MIME type (app.py:86-89): the upload is a closed choice between PDF and DOCX. The uploader accepts only those two types, and the code sends every non-PDF type to the DOCX extractor.
- `str.lower` beyond ASCII: only the letters A-Z are lowercased. Whitespace for `strip` uses Python's full `str.isspace` set.
- Rendering (app.py:13, 76-80, 110-145): this covers the page configuration, uploader, text area and progress bar (`min(int(ats_score), 100)`). It also covers the sorted, comma-joined skill lists, the empty-list messages, the suggestion texts, the 2000-character preview and `st.stop`. The report keeps the matched and missing skills as sets; the sorting happens only at display time.
