/** The testing analyzer page: the same blank-input guard as the scanner,
    but the request carries only the code (no tier), and the external call
    (an oracle of the model) returns a type-and-testing report. */
module TestingType {
  import opened Wrappers
  import opened Submission

  /** What is sent to the type-and-testing flow: the code and nothing else. */
  datatype AnalysisRequest = AnalysisRequest(contractCode: string)

  /** The record the flow's output schema declares: the overview and the
      testing areas are required, the language and the notes optional. */
  datatype AnalysisReport = AnalysisReport(
    identifiedLanguage: Option<string>,
    contractOverview: string,
    suggestedTestingAreas: seq<string>,
    generalNotes: Option<string>)

  datatype Page = Page(
    contractCode: string,
    analysisResult: Option<AnalysisReport>,
    error: Option<string>,
    pending: bool)

  const InitialPage := Page("", None, None, false)

  const FailurePrefix := "Failed to analyze contract: "

  /** The synchronous part of `handleSubmit`: blank code only sets the error
      and sends nothing; any other code clears the error and the previous
      result and is sent exactly as typed. */
  function Submit(p: Page): (out: (Page, Option<AnalysisRequest>))
    ensures out.1.Some? <==> !IsBlank(p.contractCode)
    ensures IsBlank(p.contractCode) ==> out.0 == p.(error := Some(EmptyCode))
    ensures out.1.Some? ==>
              && out.1.value == AnalysisRequest(p.contractCode)
              && out.0 == p.(error := None, analysisResult := None, pending := true)
  {
    if IsBlank(p.contractCode) then (p.(error := Some(EmptyCode)), None)
    else (p.(error := None, analysisResult := None, pending := true), Some(AnalysisRequest(p.contractCode)))
  }

  /** The end of the analysis call. A returned report is shown; a thrown
      value becomes the error, and the result is left as it was. */
  function Complete(p: Page, outcome: CallOutcome<AnalysisReport>): (out: (Page, Toast))
    ensures !out.0.pending && out.0.contractCode == p.contractCode
    ensures outcome.Returned? ==>
              out.0.analysisResult == Some(outcome.value) && out.0.error == p.error
              && out.1.variant == DefaultToast
    ensures outcome.Threw? ==>
              && out.0.analysisResult == p.analysisResult
              && out.0.error == Some(FailurePrefix + ThrownMessage(outcome.thrown))
              && out.1.variant == DestructiveToast
  {
    match outcome
    case Returned(rep) =>
      (p.(analysisResult := Some(rep), pending := false),
       Toast("Analysis Complete", "Contract type analysis and testing suggestions generated.", DefaultToast))
    case Threw(e) =>
      (p.(error := Some(FailurePrefix + ThrownMessage(e)), pending := false),
       FailureToast("Analysis Failed", e))
  }

  /** The submit button is disabled while an analysis runs or when the code is blank. */
  predicate SubmitDisabled(p: Page)
  {
    p.pending || IsBlank(p.contractCode)
  }

  function ButtonText(p: Page): string
  {
    if p.pending then "Analyzing..." else "Analyze Contract"
  }

  /** An analysis is sent exactly when the code holds a character `trim` keeps. */
  lemma AnalysisSentIffCodeHasContent(p: Page)
    ensures Submit(p).1.Some? <==> exists i :: 0 <= i < |p.contractCode| && !IsTrimmable(p.contractCode[i])
  {
    BlankIffNoContent(p.contractCode);
  }

  /** When the button is enabled, pressing it sends the code verbatim. */
  lemma EnabledButtonSendsAnalysis(p: Page)
    requires !SubmitDisabled(p)
    ensures Submit(p).1 == Some(AnalysisRequest(p.contractCode))
  {
  }

  /** A submission whose analysis fails ends with no result, the prefixed
      error and no analysis running. */
  lemma FailedAnalysisShowsNoResult(p: Page, e: Thrown)
    requires !IsBlank(p.contractCode)
    ensures var r := Complete(Submit(p).0, Threw(e)).0;
            r.analysisResult == None && r.error == Some(FailurePrefix + ThrownMessage(e)) && !r.pending
  {
  }

  /** A submission whose analysis returns shows exactly that report and no error. */
  lemma SuccessfulAnalysisShowsReport(p: Page, rep: AnalysisReport)
    requires !IsBlank(p.contractCode)
    ensures var r := Complete(Submit(p).0, Returned(rep)).0;
            r.analysisResult == Some(rep) && r.error == None && !r.pending
  {
  }

  /** The button reads "Analyzing..." exactly while an analysis runs, and
      "Analyze Contract" otherwise. */
  lemma ButtonTextFollowsPending(p: Page)
    ensures ButtonText(p) == "Analyzing..." <==> p.pending
    ensures !p.pending ==> ButtonText(p) == "Analyze Contract"
  {
    assert "Analyze Contract"[6] != "Analyzing..."[6];
  }

  /** The button is disabled exactly while an analysis runs or when the code
      has no character `trim` keeps. */
  lemma SubmitDisabledIff(p: Page)
    ensures SubmitDisabled(p) <==>
              p.pending || !exists i :: 0 <= i < |p.contractCode| && !IsTrimmable(p.contractCode[i])
  {
    BlankIffNoContent(p.contractCode);
  }

  /** The page opens with its button disabled: there is no code yet. */
  lemma FreshPageCannotSubmit()
    ensures SubmitDisabled(InitialPage)
    ensures Submit(InitialPage).1 == None
  {
  }
}
