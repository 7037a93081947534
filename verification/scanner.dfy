/** The vulnerability scanner page: the decision part of `handleSubmit`,
    the completion of the external scan call (an oracle of the model), and
    the button and badge the page derives from its state. */
module Scanner {
  import opened Wrappers
  import opened Tiers
  import opened Submission

  /** What is sent to the scan flow. */
  datatype ScanRequest = ScanRequest(smartContractCode: string, userTier: Tier)

  /** What the scan flow returns. */
  datatype ScanReport = ScanReport(
    securityScore: int,
    vulnerabilities: seq<string>,
    suggestedFixes: seq<string>,
    tierApplied: Option<Tier>)

  datatype Page = Page(
    contractCode: string,
    userTier: Tier,
    scanResult: Option<ScanReport>,
    error: Option<string>,
    pending: bool)

  /** The page as it opens: empty code, tier `free`, nothing shown. */
  const InitialPage := Page("", Free, None, None, false)

  const FailurePrefix := "Failed to scan contract: "

  /** The synchronous part of `handleSubmit`. Blank code only sets the error
      and sends nothing; any other code clears the error and the previous
      result and sends the code exactly as typed, with the selected tier. */
  function Submit(p: Page): (out: (Page, Option<ScanRequest>))
    ensures out.1.Some? <==> !IsBlank(p.contractCode)
    ensures IsBlank(p.contractCode) ==> out.0 == p.(error := Some(EmptyCode))
    ensures out.1.Some? ==>
              && out.1.value == ScanRequest(p.contractCode, p.userTier)
              && out.0 == p.(error := None, scanResult := None, pending := true)
  {
    if IsBlank(p.contractCode) then (p.(error := Some(EmptyCode)), None)
    else
      (p.(error := None, scanResult := None, pending := true),
       Some(ScanRequest(p.contractCode, p.userTier)))
  }

  /** The tier the success toast names: the one the report says it applied,
      or the one the request asked for when the report names none. */
  function ReportedTier(rep: ScanReport, requested: Tier): (name: string)
    ensures rep.tierApplied.Some? ==> name == TierName(rep.tierApplied.value)
    ensures rep.tierApplied.None? ==> name == TierName(requested)
  {
    TierName(rep.tierApplied.GetOr(requested))
  }

  /** The end of the scan call for `req`. A returned report is shown; a
      thrown value becomes the error, and the result is left as it was. */
  function Complete(p: Page, req: ScanRequest, outcome: CallOutcome<ScanReport>): (out: (Page, Toast))
    ensures !out.0.pending
    ensures out.0.contractCode == p.contractCode && out.0.userTier == p.userTier
    ensures outcome.Returned? ==>
              && out.0.scanResult == Some(outcome.value) && out.0.error == p.error
              && out.1.variant == DefaultToast
    ensures outcome.Threw? ==>
              && out.0.scanResult == p.scanResult
              && out.0.error == Some(FailurePrefix + ThrownMessage(outcome.thrown))
              && out.1.variant == DestructiveToast
  {
    match outcome
    case Returned(rep) =>
      (p.(scanResult := Some(rep), pending := false),
       Toast("Scan Complete",
             "Vulnerability scan finished successfully (Tier: " + ReportedTier(rep, req.userTier) + ").",
             DefaultToast))
    case Threw(e) =>
      (p.(error := Some(FailurePrefix + ThrownMessage(e)), pending := false),
       FailureToast("Scan Failed", e))
  }

  /** The submit button is disabled while a scan runs or when the code is blank. */
  predicate SubmitDisabled(p: Page)
  {
    p.pending || IsBlank(p.contractCode)
  }

  /** Upper-casing of one character, for the ASCII letters tier names use. */
  function UpperAscii(c: char): char
  {
    if 'a' <= c <= 'z' then (c as int - 32) as char else c
  }

  /** A tier name as the button shows it: an empty name reads "Free", any
      other has its first character upper-cased and the rest kept. */
  function TierLabel(name: string): (text: string)
    ensures name == "" ==> text == "Free"
    ensures name != "" ==>
              |text| == |name| && text[0] == UpperAscii(name[0]) && text[1..] == name[1..]
  {
    if name == "" then "Free" else [UpperAscii(name[0])] + name[1..]
  }

  /** The submit button's text. */
  function ButtonText(p: Page): string
  {
    if p.pending then "Scanning..." else "Scan Contract (" + TierLabel(TierName(p.userTier)) + ")"
  }

  datatype BadgeVariant = DefaultBadge | SecondaryBadge

  /** The tier badge on the results: shown when the report names its tier,
      in the `default` style for the paid tiers. */
  function TierBadge(rep: ScanReport): (b: Option<BadgeVariant>)
    ensures b.Some? <==> rep.tierApplied.Some?
    ensures b == Some(DefaultBadge) <==> rep.tierApplied == Some(Pro) || rep.tierApplied == Some(Enterprise)
    ensures b == Some(SecondaryBadge) <==> rep.tierApplied == Some(Free)
  {
    match rep.tierApplied
    case None => None
    case Some(t) => Some(if TierName(t) == "pro" || TierName(t) == "enterprise" then DefaultBadge else SecondaryBadge)
  }

  /** A scan is sent exactly when the code holds a character `trim` keeps. */
  lemma ScanSentIffCodeHasContent(p: Page)
    ensures Submit(p).1.Some? <==> exists i :: 0 <= i < |p.contractCode| && !IsTrimmable(p.contractCode[i])
  {
    BlankIffNoContent(p.contractCode);
  }

  /** The button and the handler agree: when the button is enabled, pressing
      it sends the code verbatim with the selected tier. */
  lemma EnabledButtonSendsScan(p: Page)
    requires !SubmitDisabled(p)
    ensures Submit(p).1 == Some(ScanRequest(p.contractCode, p.userTier))
  {
  }

  /** On a freshly opened page, non-blank code is scanned at the `free` tier. */
  lemma FreshPageScansFree(code: string)
    requires !IsBlank(code)
    ensures Submit(InitialPage.(contractCode := code)).1 == Some(ScanRequest(code, Free))
  {
  }

  /** A submission whose scan fails ends with no result, the prefixed error
      and no scan running. */
  lemma FailedScanShowsNoResult(p: Page, e: Thrown)
    requires !IsBlank(p.contractCode)
    ensures var (q, req) := Submit(p);
            var r := Complete(q, req.value, Threw(e)).0;
            r.scanResult == None && r.error == Some(FailurePrefix + ThrownMessage(e)) && !r.pending
  {
  }

  /** A submission whose scan returns shows exactly that report and no error,
      and its toast names the applied tier or else the requested one. */
  lemma SuccessfulScanShowsReport(p: Page, rep: ScanReport)
    requires !IsBlank(p.contractCode)
    ensures var (q, req) := Submit(p);
            var (r, toast) := Complete(q, req.value, Returned(rep));
            && r.scanResult == Some(rep) && r.error == None && !r.pending
            && toast.description == "Vulnerability scan finished successfully (Tier: "
                 + TierName(rep.tierApplied.GetOr(p.userTier)) + ")."
  {
  }

  /** The labels of the three tiers. */
  lemma TierLabels()
    ensures TierLabel(TierName(Free)) == "Free"
    ensures TierLabel(TierName(Pro)) == "Pro"
    ensures TierLabel(TierName(Enterprise)) == "Enterprise"
  {
  }

  /** The button reads "Scanning..." while a scan runs, and otherwise names
      the selected tier. */
  lemma ButtonTextShowsTier(p: Page)
    ensures p.pending ==> ButtonText(p) == "Scanning..."
    ensures !p.pending && p.userTier == Free ==> ButtonText(p) == "Scan Contract (Free)"
    ensures !p.pending && p.userTier == Pro ==> ButtonText(p) == "Scan Contract (Pro)"
    ensures !p.pending && p.userTier == Enterprise ==> ButtonText(p) == "Scan Contract (Enterprise)"
  {
    TierLabels();
    if !p.pending {
      match p.userTier
      case Free => assert ButtonText(p) == "Scan Contract (" + "Free" + ")";
      case Pro => assert ButtonText(p) == "Scan Contract (" + "Pro" + ")";
      case Enterprise => assert ButtonText(p) == "Scan Contract (" + "Enterprise" + ")";
    }
  }

  /** The button is disabled exactly while a scan runs or when the code has
      no character `trim` keeps. */
  lemma SubmitDisabledIff(p: Page)
    ensures SubmitDisabled(p) <==>
              p.pending || !exists i :: 0 <= i < |p.contractCode| && !IsTrimmable(p.contractCode[i])
  {
    BlankIffNoContent(p.contractCode);
  }

  /** The error a failed scan shows: the prefix and the thrown `Error`'s own
      message, or the prefix and a fixed text for any other thrown value. */
  lemma FailureErrorText(p: Page, req: ScanRequest, m: string)
    ensures Complete(p, req, Threw(ErrorObject(m))).0.error == Some(FailurePrefix + m)
    ensures Complete(p, req, Threw(OtherValue)).0.error
            == Some(FailurePrefix + UnknownError)
  {
  }
}
