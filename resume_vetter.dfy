/**
 * The resume vetting page: resume text XOR a PDF, an optional job
 * description, a multipart submission, and a results view made of score
 * cards, lists and "##"-headed feedback.
 */
module ResumeVetter {
  import opened Wrappers
  import opened Text
  import opened Renderer
  import opened Forms

  const NoResume: string := "Please upload a resume or paste text"
  const AnalysisFailed: string := "Analysis failed"
  const VetFallback: string := "Analysis failed. Please try again."
  const AnalysisDone: string := "Analysis completed successfully!"
  /** `JSON.stringify(["ats", "skills", "structure"])` */
  const AnalysisTypes: string := "[\"ats\",\"skills\",\"structure\"]"

  const Excellent: string := "Excellent!"
  const Good: string := "Good, but can improve"
  const NeedsWork: string := "Needs significant work"

  /** The `data` of a successful analysis; every key may be missing. */
  datatype Analysis = Analysis(
    overallScore: Option<int>,
    atsScore: Option<int>,
    skillScore: Option<int>,
    structureScore: Option<int>,
    missingSkills: Option<seq<string>>,
    suggestedImprovements: Option<seq<string>>,
    detailedFeedback: Option<string>,
    coverLetter: Option<string>)

  /** The body of a `POST /vet-resume/` that did not fail at the HTTP level. */
  datatype VetResponse = VetResponse(status: string, data: Analysis, detail: Option<string>)

  /** The payload: file, text and job description each only when present, then the analysis types. */
  function ResumePayload(pdf: Option<PdfFile>, text: string, jobDesc: string): seq<Part> {
    (if pdf.Some? then [FilePart("resume_pdf", pdf.value)] else [])
    + (if text != "" then [TextPart("resume_text", text)] else [])
    + (if jobDesc != "" then [TextPart("job_description", jobDesc)] else [])
    + [TextPart("analysis_type", AnalysisTypes)]
  }

  /** The payload's part names: each optional name exactly under its condition, then the analysis types. */
  lemma ResumePayloadNames(pdf: Option<PdfFile>, text: string, jobDesc: string)
    ensures PartNames(ResumePayload(pdf, text, jobDesc)) ==
      (if pdf.Some? then ["resume_pdf"] else [])
      + (if text != "" then ["resume_text"] else [])
      + (if jobDesc != "" then ["job_description"] else [])
      + ["analysis_type"]
  {
    var a := if pdf.Some? then [FilePart("resume_pdf", pdf.value)] else [];
    var b := if text != "" then [TextPart("resume_text", text)] else [];
    var c := if jobDesc != "" then [TextPart("job_description", jobDesc)] else [];
    var d := [TextPart("analysis_type", AnalysisTypes)];
    PartNamesConcat(a + b + c, d);
    PartNamesConcat(a + b, c);
    PartNamesConcat(a, b);
  }

  /** Which parts the payload holds, and that the analysis types always close it. */
  lemma ResumePayloadParts(pdf: Option<PdfFile>, text: string, jobDesc: string)
    ensures var names := PartNames(ResumePayload(pdf, text, jobDesc));
      && ("resume_pdf" in names <==> pdf.Some?)
      && ("resume_text" in names <==> text != "")
      && ("job_description" in names <==> jobDesc != "")
    ensures var p := ResumePayload(pdf, text, jobDesc);
      p[|p| - 1] == TextPart("analysis_type", AnalysisTypes)
    ensures pdf.Some? ==> ResumePayload(pdf, text, jobDesc)[0] == FilePart("resume_pdf", pdf.value)
    ensures text != "" ==> TextPart("resume_text", text) in ResumePayload(pdf, text, jobDesc)
    ensures jobDesc != "" ==> TextPart("job_description", jobDesc) in ResumePayload(pdf, text, jobDesc)
  {
    ResumePayloadNames(pdf, text, jobDesc);
    var p := ResumePayload(pdf, text, jobDesc);
    var i := if pdf.Some? then 1 else 0;
    if text != "" { assert p[i] == TextPart("resume_text", text); }
    if jobDesc != "" { assert p[i + (if text != "" then 1 else 0)] == TextPart("job_description", jobDesc); }
  }

  /** `err.response?.data?.detail || err.message || fallback` */
  function VetErrorMessage(err: HttpError): (r: string)
    ensures r != ""
    ensures Or(Detail(err), "") != "" ==> r == Detail(err).value
    ensures Or(Detail(err), "") == "" && err.message != "" ==> r == err.message
    ensures Or(Detail(err), "") == "" && err.message == "" ==> r == VetFallback
  {
    Or(Detail(err), if err.message != "" then err.message else VetFallback)
  }

  /** `new Error(m)` thrown inside the `try`: no response, no request, just a message. */
  function Thrown(message: string): HttpError {
    HttpError(None, false, message)
  }

  /** A response whose status is not "success" shows its `detail`, else "Analysis failed", not the generic fallback. */
  lemma StatusFailureMessage(resp: VetResponse)
    ensures VetErrorMessage(Thrown(Or(resp.detail, AnalysisFailed))) ==
      (if resp.detail.Some? && resp.detail.value != "" then resp.detail.value else AnalysisFailed)
  {
  }

  /** The note under a score card: thresholds 80 and 60, both inclusive. */
  function ScoreNote(score: int): (note: string)
    ensures note == Excellent <==> score >= 80
    ensures note == Good <==> 60 <= score < 80
    ensures note == NeedsWork <==> score < 60
  {
    if score >= 80 then Excellent else if score >= 60 then Good else NeedsWork
  }

  function NoteRank(note: string): nat {
    if note == Excellent then 2 else if note == Good then 1 else 0
  }

  /** A higher score never gets a worse note. */
  lemma ScoreNoteMonotone(a: int, b: int)
    requires a <= b
    ensures NoteRank(ScoreNote(a)) <= NoteRank(ScoreNote(b))
  {
  }

  /** What the results area shows, top to bottom. */
  datatype Section =
    | ScoreCard(title: string, score: int, note: string)
    | StrayZero
    | MissingSkills(items: seq<string>)
    | Improvements(items: seq<string>)
    | Feedback(blocks: seq<Block>)
    | CoverLetter(text: string)

  function Card(title: string, score: int): Section {
    ScoreCard(title, score, ScoreNote(score))
  }

  /**
   * `{score && card}` as written: a missing score shows nothing, but a 0
   * score makes the expression evaluate to the number 0, which React prints.
   */
  function SubScoreAsWritten(title: string, score: Option<int>): seq<Section> {
    if score.None? then [] else if score.value == 0 then [StrayZero] else [Card(title, score.value)]
  }

  /** The sub-score slot as intended: a card for a present non-zero score, nothing otherwise. */
  function SubScore(title: string, score: Option<int>): (r: seq<Section>)
    ensures |r| <= 1
    ensures r != [] <==> score.Some? && score.value != 0
    ensures r != [] ==> r[0] == ScoreCard(title, score.value, ScoreNote(score.value))
  {
    if score.Some? && score.value != 0 then [Card(title, score.value)] else []
  }

  /** The sections after the score cards: lists, feedback, cover letter, each only when non-empty. */
  function Details(a: Analysis, jobDesc: string): seq<Section> {
    (if a.missingSkills.Some? && |a.missingSkills.value| > 0 then [MissingSkills(a.missingSkills.value)] else [])
    + (if a.suggestedImprovements.Some? && |a.suggestedImprovements.value| > 0 then [Improvements(a.suggestedImprovements.value)] else [])
    + (if Or(a.detailedFeedback, "") != "" then [Feedback(Render(a.detailedFeedback.value, ResumeMarker))] else [])
    + (if jobDesc != "" && Or(a.coverLetter, "") != "" then [CoverLetter(a.coverLetter.value)] else [])
  }

  function OverallCard(a: Analysis): Section {
    Card("📊 Overall Score", if a.overallScore.Some? then a.overallScore.value else 0)
  }

  /** The results view as the markup is written. */
  function AnalysisViewAsWritten(a: Analysis, jobDesc: string): seq<Section> {
    [OverallCard(a)]
    + SubScoreAsWritten("ATS Score", a.atsScore)
    + SubScoreAsWritten("Skill Match", a.skillScore)
    + SubScoreAsWritten("Structure", a.structureScore)
    + Details(a, jobDesc)
  }

  /** The results view with sub-scores of 0 left out. */
  function AnalysisView(a: Analysis, jobDesc: string): seq<Section> {
    [OverallCard(a)]
    + SubScore("ATS Score", a.atsScore)
    + SubScore("Skill Match", a.skillScore)
    + SubScore("Structure", a.structureScore)
    + Details(a, jobDesc)
  }

  /** As written, an ATS score of 0 puts a bare "0" into the score row instead of leaving it empty. */
  lemma ZeroSubScoreShowsStrayZero(a: Analysis, jobDesc: string)
    requires a.atsScore == Some(0)
    ensures AnalysisViewAsWritten(a, jobDesc)[1] == StrayZero
    ensures StrayZero !in AnalysisView(a, jobDesc)
  {
    var v := AnalysisView(a, jobDesc);
    var d := Details(a, jobDesc);
    assert v == [OverallCard(a)] + SubScore("Skill Match", a.skillScore) + SubScore("Structure", a.structureScore) + d;
    DetailsHaveNoStrayZero(a, jobDesc);
  }

  lemma DetailsHaveNoStrayZero(a: Analysis, jobDesc: string)
    ensures StrayZero !in Details(a, jobDesc)
  {
    var d := Details(a, jobDesc);
    forall i | 0 <= i < |d| ensures d[i] != StrayZero {
    }
  }

  /** The intended view: the overall card always comes first (0 when absent) and no stray text appears. */
  lemma AnalysisViewShape(a: Analysis, jobDesc: string)
    ensures var v := AnalysisView(a, jobDesc);
      && v[0] == ScoreCard("📊 Overall Score", a.overallScore.GetOr(0), ScoreNote(a.overallScore.GetOr(0)))
      && StrayZero !in v
    ensures var v := AnalysisView(a, jobDesc);
      |v| == 1 + |SubScore("ATS Score", a.atsScore)| + |SubScore("Skill Match", a.skillScore)|
        + |SubScore("Structure", a.structureScore)| + |Details(a, jobDesc)|
  {
    DetailsHaveNoStrayZero(a, jobDesc);
    var v := AnalysisView(a, jobDesc);
    var s1 := SubScore("ATS Score", a.atsScore);
    var s2 := SubScore("Skill Match", a.skillScore);
    var s3 := SubScore("Structure", a.structureScore);
    assert StrayZero !in s1 && StrayZero !in s2 && StrayZero !in s3;
  }

  /** The view with every bare "0" dropped and everything else kept in order. */
  function DropStrayZeros(v: seq<Section>): (r: seq<Section>)
    ensures |r| <= |v|
    ensures StrayZero !in r
  {
    if v == [] then [] else (if v[0] == StrayZero then [] else [v[0]]) + DropStrayZeros(v[1..])
  }

  /** Dropping the bare "0" from a written sub-score slot gives the intended slot. */
  lemma SubScoreDropsStrayZero(title: string, score: Option<int>)
    ensures DropStrayZeros(SubScoreAsWritten(title, score)) == SubScore(title, score)
  {
    var w := SubScoreAsWritten(title, score);
    if w != [] {
      assert w[1..] == [];
    }
  }

  lemma {:induction false} DropStrayZerosConcat(u: seq<Section>, v: seq<Section>)
    ensures DropStrayZeros(u + v) == DropStrayZeros(u) + DropStrayZeros(v)
    decreases |u|
  {
    if u != [] {
      assert (u + v)[1..] == u[1..] + v;
      DropStrayZerosConcat(u[1..], v);
    } else {
      assert u + v == v;
    }
  }

  lemma {:induction false} DropStrayZerosNone(v: seq<Section>)
    requires StrayZero !in v
    ensures DropStrayZeros(v) == v
    decreases |v|
  {
    if v != [] {
      assert v[0] != StrayZero;
      assert StrayZero !in v[1..] by {
        forall i | 0 <= i < |v[1..]| ensures v[1..][i] != StrayZero {
          assert v[1..][i] == v[i + 1];
        }
      }
      DropStrayZerosNone(v[1..]);
      assert v == [v[0]] + v[1..];
    }
  }

  /** As written, a bare "0" appears after the overall card exactly when some sub-score is 0. */
  lemma AnalysisViewAsWrittenShape(a: Analysis, jobDesc: string)
    ensures var v := AnalysisViewAsWritten(a, jobDesc);
      && v[0] == OverallCard(a)
      && (StrayZero in v <==> a.atsScore == Some(0) || a.skillScore == Some(0) || a.structureScore == Some(0))
  {
    DetailsHaveNoStrayZero(a, jobDesc);
    var s1 := SubScoreAsWritten("ATS Score", a.atsScore);
    var s2 := SubScoreAsWritten("Skill Match", a.skillScore);
    var s3 := SubScoreAsWritten("Structure", a.structureScore);
    var v := AnalysisViewAsWritten(a, jobDesc);
    assert v == [OverallCard(a)] + s1 + s2 + s3 + Details(a, jobDesc);
    assert StrayZero in v <==> StrayZero in s1 || StrayZero in s2 || StrayZero in s3;
  }

  /** The correction changes nothing but the bare "0"s: the intended view is the written one without them. */
  lemma CorrectionOnlyDropsStrayZeros(a: Analysis, jobDesc: string)
    ensures AnalysisView(a, jobDesc) == DropStrayZeros(AnalysisViewAsWritten(a, jobDesc))
  {
    var head := [OverallCard(a)];
    var s1 := SubScoreAsWritten("ATS Score", a.atsScore);
    var s2 := SubScoreAsWritten("Skill Match", a.skillScore);
    var s3 := SubScoreAsWritten("Structure", a.structureScore);
    var d := Details(a, jobDesc);
    DropStrayZerosConcat(head + s1 + s2 + s3, d);
    DropStrayZerosConcat(head + s1 + s2, s3);
    DropStrayZerosConcat(head + s1, s2);
    DropStrayZerosConcat(head, s1);
    DetailsHaveNoStrayZero(a, jobDesc);
    DropStrayZerosNone(d);
    DropStrayZerosNone(head);
    SubScoreDropsStrayZero("ATS Score", a.atsScore);
    SubScoreDropsStrayZero("Skill Match", a.skillScore);
    SubScoreDropsStrayZero("Structure", a.structureScore);
  }

  /** The missing-skills list is shown exactly when non-empty, with its items in order. */
  lemma MissingSkillsShown(a: Analysis, jobDesc: string)
    ensures (a.missingSkills.Some? && |a.missingSkills.value| > 0) <==>
      (exists s :: s in Details(a, jobDesc) && s.MissingSkills?)
    ensures a.missingSkills.Some? && |a.missingSkills.value| > 0 ==>
      Details(a, jobDesc)[0] == MissingSkills(a.missingSkills.value)
  {
    var d := Details(a, jobDesc);
    if a.missingSkills.Some? && |a.missingSkills.value| > 0 {
      assert d[0] in d;
    }
  }

  /** The page state: resume input, job description, results, flag and banners. */
  class ResumeForm {
    var resumeText: string
    var pdfFile: Option<PdfFile>
    var jobDesc: string
    var analysis: Option<Analysis>
    var loading: bool
    var error: Option<string>
    var success: Option<string>

    /** Pasted text and a selected file are never both present. */
    ghost predicate Exclusive()
      reads this
    {
      resumeText == "" || pdfFile.None?
    }

    constructor ()
      ensures Exclusive()
      ensures resumeText == "" && pdfFile.None? && jobDesc == "" && analysis.None?
      ensures !loading && error.None? && success.None?
    {
      resumeText := "";
      pdfFile := None;
      jobDesc := "";
      analysis := None;
      loading := false;
      error := None;
      success := None;
    }

    /** `handlePdfUpload`: as on the profile page, and an accepted file also clears the text. */
    method SelectFile(file: Option<PdfFile>)
      requires Exclusive()
      modifies this
      ensures Exclusive()
      ensures jobDesc == old(jobDesc) && analysis == old(analysis) && loading == old(loading) && success == old(success)
      ensures file.None? ==> pdfFile == old(pdfFile) && resumeText == old(resumeText) && error == old(error)
      ensures file.Some? && CheckPdf(file.value).Reject? ==>
        pdfFile == old(pdfFile) && resumeText == old(resumeText) && error == Some(CheckPdf(file.value).message)
      ensures file.Some? && CheckPdf(file.value).Accept? ==>
        pdfFile == file && resumeText == "" && error.None?
    {
      if file.None? {
        return;
      }
      var f := file.value;
      if f.size > MaxPdfBytes {
        error := Some(FileTooLarge);
        return;
      }
      if f.mimeType != PdfMimeType {
        error := Some(NotAPdf);
        return;
      }
      pdfFile := file;
      resumeText := "";
      error := None;
    }

    /** Typing in the resume box replaces the text and drops any selected file. */
    method EditText(text: string)
      modifies this
      ensures Exclusive()
      ensures resumeText == text && pdfFile.None?
      ensures jobDesc == old(jobDesc) && analysis == old(analysis) && loading == old(loading)
      ensures error == old(error) && success == old(success)
    {
      resumeText := text;
      if pdfFile.Some? {
        pdfFile := None;
      }
    }

    method EditJobDescription(text: string)
      requires Exclusive()
      modifies this
      ensures Exclusive()
      ensures jobDesc == text
      ensures resumeText == old(resumeText) && pdfFile == old(pdfFile) && analysis == old(analysis)
      ensures loading == old(loading) && error == old(error) && success == old(success)
    {
      jobDesc := text;
    }

    /** The clear button next to the selected file. */
    method ClearFile()
      modifies this
      ensures Exclusive()
      ensures pdfFile.None?
      ensures resumeText == old(resumeText) && jobDesc == old(jobDesc) && analysis == old(analysis)
      ensures loading == old(loading) && error == old(error) && success == old(success)
    {
      pdfFile := None;
    }

    /** The submit button is enabled only when idle and some resume is given. */
    function SubmitEnabled(): (enabled: bool)
      reads this
      ensures enabled <==> !loading && (resumeText != "" || pdfFile.Some?)
    {
      !(loading || (resumeText == "" && pdfFile.None?))
    }

    /**
     * The synchronous part of `handleSubmit`: reset banners and results; with
     * neither text nor file, fail at once and send nothing; otherwise build
     * the payload and wait.
     */
    method BeginSubmit() returns (payload: Option<seq<Part>>)
      requires Exclusive()
      modifies this
      ensures Exclusive()
      ensures resumeText == old(resumeText) && pdfFile == old(pdfFile) && jobDesc == old(jobDesc)
      ensures analysis.None? && success.None?
      ensures payload.None? <==> resumeText == "" && pdfFile.None?
      ensures payload.None? ==> error == Some(VetErrorMessage(Thrown(NoResume))) && !loading
      ensures payload.Some? ==> payload.value == ResumePayload(pdfFile, resumeText, jobDesc) && error.None? && loading
    {
      loading := true;
      error := None;
      success := None;
      analysis := None;
      if resumeText == "" && pdfFile.None? {
        error := Some(VetErrorMessage(Thrown(NoResume)));
        loading := false;
        payload := None;
        return;
      }
      payload := Some(ResumePayload(pdfFile, resumeText, jobDesc));
    }

    /** The request returned: "success" shows the analysis, any other status fails with its detail. */
    method Complete(resp: VetResponse)
      requires Exclusive()
      modifies this
      ensures Exclusive()
      ensures resumeText == old(resumeText) && pdfFile == old(pdfFile) && jobDesc == old(jobDesc) && !loading
      ensures resp.status == "success" ==>
        analysis == Some(resp.data) && success == Some(AnalysisDone) && error == old(error)
      ensures resp.status != "success" ==>
        analysis == old(analysis) && success == old(success)
        && error == Some(VetErrorMessage(Thrown(Or(resp.detail, AnalysisFailed))))
    {
      if resp.status == "success" {
        analysis := Some(resp.data);
        success := Some(AnalysisDone);
      } else {
        error := Some(VetErrorMessage(Thrown(Or(resp.detail, AnalysisFailed))));
      }
      loading := false;
    }

    /** The request failed at the HTTP level. */
    method Fail(err: HttpError)
      requires Exclusive()
      modifies this
      ensures Exclusive()
      ensures resumeText == old(resumeText) && pdfFile == old(pdfFile) && jobDesc == old(jobDesc)
      ensures analysis == old(analysis) && success == old(success)
      ensures error == Some(VetErrorMessage(err)) && !loading
    {
      error := Some(VetErrorMessage(err));
      loading := false;
    }

    /** The results area as the markup is written, read against the job description as it is now. */
    function ResultsAsWritten(): (r: seq<Section>)
      reads this
      ensures analysis.None? ==> r == []
      ensures analysis.Some? ==> var a := analysis.value;
        && |r| >= 1 && r[0] == OverallCard(a)
        && (StrayZero in r <==> a.atsScore == Some(0) || a.skillScore == Some(0) || a.structureScore == Some(0))
    {
      if analysis.None? then []
      else
        AnalysisViewAsWrittenShape(analysis.value, jobDesc);
        AnalysisViewAsWritten(analysis.value, jobDesc)
    }

    /** The results area as intended: the written one without its bare "0"s. */
    function Results(): (r: seq<Section>)
      reads this
      ensures analysis.None? ==> r == []
      ensures analysis.Some? ==> |r| >= 1 && StrayZero !in r
      ensures r == DropStrayZeros(ResultsAsWritten())
    {
      if analysis.None? then []
      else
        AnalysisViewShape(analysis.value, jobDesc);
        CorrectionOnlyDropsStrayZeros(analysis.value, jobDesc);
        AnalysisView(analysis.value, jobDesc)
    }
  }

  /** An overall score of 72 with one missing skill: a "Good" card, then exactly that skill. */
  lemma OverallSeventyTwo()
    ensures var a := Analysis(Some(72), None, None, None, Some(["SQL"]), None, None, None);
      AnalysisView(a, "") == [ScoreCard("📊 Overall Score", 72, Good), MissingSkills(["SQL"])]
  {
  }
}
