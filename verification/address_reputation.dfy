/** The address-reputation page: the Ethereum address check, the mock
    report it produces (score, risk level, flags), and the page state around
    one submission. The random draws of the mock are parameters in [0, 1),
    as `Math.random()` returns them. */
module AddressReputation {
  import opened Wrappers

  datatype RiskLevel = Low | Medium | High | Unknown

  datatype Report = Report(
    address: string,
    score: int,
    riskLevel: RiskLevel,
    firstTransaction: string,
    lastTransaction: string,
    totalTransactions: int,
    knownFlags: seq<string>)

  const InvalidAddress := "Please enter a valid Ethereum address."
  const Scores: seq<int> := [30, 65, 90]
  const PhishingFlag := "Associated with Phishing Attack (XYZ)"
  const SuspiciousFlag := "Reported for Suspicious Activity"
  const RiskyContractFlag := "Interacted with known risky contract"

  // ---------------------------------------------------------------------
  // The address check: /^0x[a-fA-F0-9]{40}$/

  predicate IsHexDigit(c: char)
  {
    ('0' <= c <= '9') || ('a' <= c <= 'f') || ('A' <= c <= 'F')
  }

  /** What a valid address is: 42 characters, the prefix "0x" with a lower-case
      x, and 40 hexadecimal digits of either case. */
  predicate IsEthereumAddress(s: string)
  {
    |s| == 42 && s[0] == '0' && s[1] == 'x' && forall i :: 2 <= i < 42 ==> IsHexDigit(s[i])
  }

  /** `[a-fA-F0-9]{n}$`: exactly n hex digits, then the end of the input. */
  function MatchesHexRun(s: string, n: nat): bool
  {
    if n == 0 then s == []
    else |s| > 0 && IsHexDigit(s[0]) && MatchesHexRun(s[1..], n - 1)
  }

  /** The anchored pattern, read left to right as the regular expression is. */
  function MatchesAddressPattern(s: string): bool
  {
    |s| >= 2 && s[0] == '0' && s[1] == 'x' && MatchesHexRun(s[2..], 40)
  }

  lemma {:induction false} HexRunIsLengthAndDigits(s: string, n: nat)
    ensures MatchesHexRun(s, n) <==> |s| == n && forall i :: 0 <= i < |s| ==> IsHexDigit(s[i])
  {
    if n > 0 && |s| > 0 {
      HexRunIsLengthAndDigits(s[1..], n - 1);
      assert forall i :: 1 <= i < |s| ==> s[i] == s[1..][i - 1];
    }
  }

  /** The pattern accepts exactly the valid addresses. */
  lemma AddressPatternIsAddress(s: string)
    ensures MatchesAddressPattern(s) <==> IsEthereumAddress(s)
  {
    if |s| >= 2 {
      HexRunIsLengthAndDigits(s[2..], 40);
      assert forall i :: 2 <= i < |s| ==> s[i] == s[2..][i - 2];
    }
  }

  // ---------------------------------------------------------------------
  // Classification

  /** The score thresholds: below 50 is High risk, below 75 Medium, else Low. */
  function ClassifyScore(score: int): (r: RiskLevel)
    ensures r != Unknown
    ensures r == High <==> score < 50
    ensures r == Medium <==> 50 <= score < 75
    ensures r == Low <==> 75 <= score
  {
    if score < 50 then High
    else if score < 75 then Medium
    else Low
  }

  /** How risky a produced level is; Unknown is never produced by a score. */
  function Riskiness(r: RiskLevel): nat
    requires r != Unknown
  {
    match r
    case Low => 0
    case Medium => 1
    case High => 2
  }

  /** A higher score never gives a riskier level. */
  lemma ClassifyIsMonotone(a: int, b: int)
    requires a <= b
    ensures Riskiness(ClassifyScore(b)) <= Riskiness(ClassifyScore(a))
  {
  }

  /** The flags a report lists for its risk level. */
  function KnownFlags(r: RiskLevel): (flags: seq<string>)
    ensures r == High ==> |flags| == 2
    ensures r == Medium ==> |flags| == 1
    ensures (r == Low || r == Unknown) ==> flags == []
    ensures flags == [] <==> (r == Low || r == Unknown)
  {
    match r
    case High => [PhishingFlag, SuspiciousFlag]
    case Medium => [RiskyContractFlag]
    case Low => []
    case Unknown => []
  }

  /** The text colour of a level. */
  function RiskColor(r: RiskLevel): string
  {
    if r == Low then "text-green-500"
    else if r == Medium then "text-yellow-500"
    else if r == High then "text-red-500"
    else "text-gray-500"
  }

  /** Each level has its own colour, so the colour identifies the level. */
  lemma RiskColorIsInjective(a: RiskLevel, b: RiskLevel)
    ensures RiskColor(a) == RiskColor(b) ==> a == b
  {
  }

  // ---------------------------------------------------------------------
  // The mock report

  /** The score a draw in [0, 1) picks: the draw, scaled by the number of
      scores and rounded down, indexes the score list. */
  function ScoreFromDraw(draw: real): (score: int)
    requires 0.0 <= draw < 1.0
    ensures score in Scores
  {
    var k := (draw * 3.0).Floor;
    assert 0 <= k < 3;
    Scores[k]
  }

  /** The transaction count a draw in [0, 1) gives: the draw scaled to a
      thousand and rounded down, plus fifty. */
  function TransactionsFromDraw(draw: real): (n: int)
    requires 0.0 <= draw < 1.0
    ensures 50 <= n <= 1049
  {
    (draw * 1000.0).Floor + 50
  }

  /** The report the page builds for a valid address. */
  function BuildReport(address: string, scoreDraw: real, txDraw: real): (rep: Report)
    requires 0.0 <= scoreDraw < 1.0 && 0.0 <= txDraw < 1.0
    ensures rep.address == address
    ensures rep.score in Scores
    ensures rep.riskLevel == ClassifyScore(rep.score)
    ensures rep.knownFlags == KnownFlags(rep.riskLevel)
    ensures 50 <= rep.totalTransactions <= 1049
  {
    var score := ScoreFromDraw(scoreDraw);
    var risk := ClassifyScore(score);
    Report(address, score, risk, "2022-01-15", "2024-07-01", TransactionsFromDraw(txDraw), KnownFlags(risk))
  }

  /** Every level a score can give is reached by some draw. */
  lemma EveryRiskLevelIsReachable(address: string)
    ensures BuildReport(address, 0.0, 0.0).riskLevel == High
    ensures BuildReport(address, 0.5, 0.0).riskLevel == Medium
    ensures BuildReport(address, 0.9, 0.0).riskLevel == Low
  {
    assert (0.5 * 3.0).Floor == 1;
    assert (0.9 * 3.0).Floor == 2;
  }

  /** The "No Negative Flags Found" notice is shown for a report with no flags
      and a Low level. */
  predicate ShowsNoNegativeFlags(rep: Report)
  {
    |rep.knownFlags| == 0 && rep.riskLevel == Low
  }

  /** For the reports the page builds, the notice appears exactly on Low risk,
      and the flag list is shown exactly otherwise. */
  lemma NoNegativeFlagsIffLow(address: string, scoreDraw: real, txDraw: real)
    requires 0.0 <= scoreDraw < 1.0 && 0.0 <= txDraw < 1.0
    ensures var rep := BuildReport(address, scoreDraw, txDraw);
            (ShowsNoNegativeFlags(rep) <==> rep.riskLevel == Low)
            && (|rep.knownFlags| > 0 <==> rep.riskLevel != Low)
  {
  }

  // ---------------------------------------------------------------------
  // Page state

  datatype Page = Page(address: string, reputation: Option<Report>, loading: bool, error: Option<string>)

  const InitialPage := Page("", None, false, None)

  /** The check button is disabled while loading or when the field is empty. */
  predicate SubmitDisabled(p: Page)
  {
    p.loading || p.address == ""
  }

  /** The synchronous part of `handleSubmit`. An invalid address only sets the
      error; the earlier report, if any, stays on the page. A valid address
      clears the error and the report, starts loading, and schedules the mock
      check of that address. */
  function StartCheck(p: Page): (out: (Page, Option<string>))
    ensures out.1.Some? <==> IsEthereumAddress(p.address)
    ensures out.1.Some? ==> out.1.value == p.address
    ensures !IsEthereumAddress(p.address) ==>
              out.0.error == Some(InvalidAddress) && out.0.reputation == p.reputation
              && out.0.loading == p.loading
    ensures IsEthereumAddress(p.address) ==>
              out.0.error == None && out.0.reputation == None && out.0.loading
    ensures out.0.address == p.address
  {
    AddressPatternIsAddress(p.address);
    if !MatchesAddressPattern(p.address) then (p.(error := Some(InvalidAddress)), None)
    else (p.(error := None, loading := true, reputation := None), Some(p.address))
  }

  /** The end of the mock check: the report for the scheduled address. */
  function FinishCheck(p: Page, address: string, scoreDraw: real, txDraw: real): (q: Page)
    requires 0.0 <= scoreDraw < 1.0 && 0.0 <= txDraw < 1.0
    ensures !q.loading && q.error == p.error && q.address == p.address
    ensures q.reputation.Some? && q.reputation.value.address == address
    ensures q.reputation == Some(BuildReport(address, scoreDraw, txDraw))
  {
    p.(reputation := Some(BuildReport(address, scoreDraw, txDraw)), loading := false)
  }

  /** A full submission of a valid address ends with no error and a report
      that echoes the address; an invalid one schedules nothing. */
  lemma SubmitValidAddress(p: Page, scoreDraw: real, txDraw: real)
    requires 0.0 <= scoreDraw < 1.0 && 0.0 <= txDraw < 1.0
    requires IsEthereumAddress(p.address)
    ensures var (q, scheduled) := StartCheck(p);
            var r := FinishCheck(q, scheduled.value, scoreDraw, txDraw);
            r.error == None && !r.loading && r.reputation.Some?
            && r.reputation.value.address == p.address
            && r.reputation.value.riskLevel == ClassifyScore(r.reputation.value.score)
  {
  }

  /** The colour of a built report's level follows its score: red below 50,
      yellow from 50 to 74, green from 75; the grey of Unknown never shows. */
  lemma ReportColorFollowsScore(address: string, scoreDraw: real, txDraw: real)
    requires 0.0 <= scoreDraw < 1.0 && 0.0 <= txDraw < 1.0
    ensures var rep := BuildReport(address, scoreDraw, txDraw);
            (RiskColor(rep.riskLevel) == "text-red-500" <==> rep.score < 50)
            && (RiskColor(rep.riskLevel) == "text-yellow-500" <==> 50 <= rep.score < 75)
            && (RiskColor(rep.riskLevel) == "text-green-500" <==> 75 <= rep.score)
            && RiskColor(rep.riskLevel) != "text-gray-500"
  {
    var rep := BuildReport(address, scoreDraw, txDraw);
    RiskColorIsInjective(rep.riskLevel, High);
    RiskColorIsInjective(rep.riskLevel, Medium);
    RiskColorIsInjective(rep.riskLevel, Low);
    RiskColorIsInjective(rep.riskLevel, Unknown);
  }

  /** The page opens with its button disabled: the field is empty. */
  lemma FreshPageCannotSubmit()
    ensures SubmitDisabled(InitialPage)
  {
  }

  /** A valid address typed while no check runs enables the button. */
  lemma ValidAddressEnablesButton(p: Page)
    requires IsEthereumAddress(p.address) && !p.loading
    ensures !SubmitDisabled(p)
  {
  }

  /** The button only asks for a non-empty field, so it can be pressed on an
      invalid address; that press schedules nothing and shows the address
      error. */
  lemma EnabledButtonMayStillReject(p: Page)
    requires !SubmitDisabled(p) && !IsEthereumAddress(p.address)
    ensures StartCheck(p).1 == None
    ensures StartCheck(p).0.error == Some(InvalidAddress)
  {
  }
}
