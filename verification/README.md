# BlockArmor core, modelled in Dafny

BlockArmor is a Next.js front end with demo Web3-security tools and a small
account system. Its deterministic logic is modelled here:

- **Accounts** (`accounts.dfy`, `form_validation.dfy`, `register.dfy`, `login.dfy`).
  The `registerUser` and `loginUser` server actions work on a credential store.
  The store is a map from email to `User(displayName, hashedPassword, tier)`.
  Registration runs its checks in a fixed order: password confirmation, then
  the field schema, then the duplicate-email lookup. Only then does it insert
  the user with tier `free`. Login validates, looks up and compares, and only
  reads the store. The libraries are an `Env` of functions: zod's email check,
  bcrypt's `hash(password, salt)` and bcrypt's `compare`. The salt is bcrypt's
  random draw and is passed as a parameter. `HashSound(env)` states bcrypt's
  promise that a password matches every hash made of it. A `DbFault` parameter
  stands for the exceptions the database can raise.
- **Address reputation** (`address_reputation.dfy`). The check for
  `^0x[a-fA-F0-9]{40}$` is written two ways, as a left-to-right pattern match
  and as a direct predicate, and a lemma proves they agree. The module also
  holds the score-to-risk thresholds, the risk-to-flags mapping, the risk
  colours, and the mock report. The report's `Math.random()` draws are `real`
  parameters in [0, 1). The page state of one submission is modelled too.
- **Sidebar** (`sidebar.dfy`). The two route lists and the `isActive` rule:
  an exact match, or a character prefix for every main item except
  `/dashboard`. A lemma proves at most one main item is active for any path.
- **Submission guards** (`submission.dfy`, `scanner.dfy`, `testing_type.dfy`).
  Both analysis pages reject code that `String.prototype.trim` empties, before
  any call. Both clear the previous error and result, send the code verbatim,
  and show `Failed to … contract: <message>` when the call throws. The external
  analysis call is an oracle: the model is given its `CallOutcome`, either a
  returned report or a thrown value. The scanner's tier starts at `free`. Its
  button label capitalises the tier, and its badge style depends on the applied
  tier.

Shared concepts are defined once: `Wrappers.Option` and `Tiers.Tier`.

Both analysis pages handle every failure of their call alike: they show the
message of the thrown value and do not tell kinds of failure apart. An
invalid address and a blank contract only set the error; a report or result
already on the page stays there (`StartCheck`, `Submit`). The user table
created in `src/lib/db.ts` has no tier column, while the register action
inserts one; the store here holds the tier, as the actions expect.

## Model

| member | source | states |
|---|---|---|
| FormValidation.FailedMessages | src/app/register/actions.ts:41-47 | the failing fields' messages: empty iff every check passes, each failing check's message present and every message from a failing check; a single check gives its message iff it fails, and with FailedMessagesOfConcat this fixes schema order and one message per failing check |
| FormValidation.FailedMessagesOfConcat | src/app/register/actions.ts:44 | the messages of two consecutive parts of a schema are the first part's messages followed by the second's, so they come out in schema order |
| FormValidation.SchemaError | src/app/register/actions.ts:35-48 | a schema reports no error iff every field passes; otherwise it reports the failing messages joined by spaces |
| FormValidation.FailingSchemaErrorIsNonEmpty | src/app/register/actions.ts:41-47 | a failing schema whose messages are non-empty reports a non-empty error, so the page shows it |
| FormValidation.JoinOfConcat | src/app/register/actions.ts:44 | joining two non-empty message lists puts exactly one space between their joins |
| Register.RegisterChecksAreSchema | src/app/register/actions.ts:8-12 | the three field checks pass exactly when the display name is non-empty, the email is an email and the password has at least 6 characters |
| Register.AllFieldsInvalidMessage | src/app/register/actions.ts:8-12 | with matching passwords, an empty name, a non-email and a short password, the error is the three schema messages in field order, separated by single spaces |
| Register.RegisterUser | src/app/register/actions.ts:20-85 | mismatch first, then the schema, then the duplicate lookup, each leaving the store unchanged; success iff all pass and the insert goes through; a failed insert answers with the duplicate error on a UNIQUE violation, "Failed to create account. Please try again." when no row changed, and "An unexpected error occurred during registration." on any other exception; on success exactly one entry is added under the email with the name, `hash(password, salt)` and tier free, and other entries are unchanged; success iff a message and no error |
| Register.LookupAndInsert | src/app/register/actions.ts:56-83 | an email already stored gives the duplicate error; for a new email, a UNIQUE violation gives the duplicate error, no changed row gives "Failed to create account. Please try again." and any other exception "An unexpected error occurred during registration."; success iff the email is new and the INSERT raises nothing, and then the store gains exactly the new user under that email with the rest kept; any failure leaves the store unchanged |
| Register.UniqueViolationReadsAsDuplicate | src/app/register/actions.ts:78-82 | a UNIQUE-constraint failure at the insert gives the same duplicate-email error, with the store unchanged |
| Register.SecondRegistrationIsDuplicate | src/app/register/actions.ts:56-62 | after a successful registration, any valid registration under the same email is refused as a duplicate and the store stays the same |
| Login.LoginChecksAreSchema | src/app/login/actions.ts:9-12 | the two login checks pass exactly when the email is an email and the password is non-empty |
| Login.BothFieldsInvalidMessage | src/app/login/actions.ts:9-12 | a non-email and an empty password give the email message, a space, then the password message |
| Login.LoginUser | src/app/login/actions.ts:21-77 | invalid fields give the joined schema messages; success iff the fields are valid, the database does not fail, the email is known and the password matches its hash; with no database fault every other answer is "Invalid email or password.", and any database fault gives "An unexpected error occurred during login."; no redirect is ever set |
| Login.ValidationPrecedesLookup | src/app/login/actions.ts:30-39 | for invalid fields the answer does not depend on the store or on any database fault |
| Login.UnknownEmailLooksLikeWrongPassword | src/app/login/actions.ts:48-56 | an unknown email and a wrong password give identical answers |
| Login.RegisterThenLogin | src/app/login/actions.ts:52-67 | after a successful registration, logging in with the same email and password succeeds and greets the registered name |
| AddressReputation.HexRunIsLengthAndDigits | src/app/address-reputation/page.tsx:29 | `[a-fA-F0-9]{n}$` matches exactly the strings of n hex digits |
| AddressReputation.AddressPatternIsAddress | src/app/address-reputation/page.tsx:29 | the anchored pattern accepts exactly the 42-character strings that start with "0x" (lower-case x) and continue with 40 hex digits |
| AddressReputation.ClassifyScore | src/app/address-reputation/page.tsx:43-45 | High iff score < 50, Medium iff 50 <= score < 75, Low iff score >= 75; never Unknown |
| AddressReputation.ClassifyIsMonotone | src/app/address-reputation/page.tsx:43-45 | a higher score never gives a riskier level |
| AddressReputation.KnownFlags | src/app/address-reputation/page.tsx:54 | High has 2 flags, Medium 1, and Low and Unknown none |
| AddressReputation.RiskColorIsInjective | src/app/address-reputation/page.tsx:60-65 | each risk level has its own colour |
| AddressReputation.ReportColorFollowsScore | src/app/address-reputation/page.tsx:43-45 | a built report's colour is red iff its score is below 50, yellow iff it is 50 to 74, green iff it is 75 or more, and never grey |
| AddressReputation.ScoreFromDraw | src/app/address-reputation/page.tsx:41-42 | a draw in [0,1) selects a score among 30, 65 and 90 |
| AddressReputation.TransactionsFromDraw | src/app/address-reputation/page.tsx:53 | a draw in [0,1) gives a transaction count in [50, 1049] |
| AddressReputation.BuildReport | src/app/address-reputation/page.tsx:40-55 | the report echoes the address, has a score from the list and its risk level and flags, and a count in [50, 1049] |
| AddressReputation.EveryRiskLevelIsReachable | src/app/address-reputation/page.tsx:41-45 | draws 0.0, 0.5 and 0.9 give High, Medium and Low |
| AddressReputation.NoNegativeFlagsIffLow | src/app/address-reputation/page.tsx:148-169 | for built reports the "No Negative Flags" notice shows iff the risk is Low, and the flag list shows iff it is not |
| AddressReputation.StartCheck | src/app/address-reputation/page.tsx:27-35 | a check is scheduled iff the address is valid, and for that same address; an invalid one sets the error and leaves the earlier report; a valid one clears error and report and starts loading |
| AddressReputation.FinishCheck | src/app/address-reputation/page.tsx:47-56 | loading ends, the error is kept, and the report shown is the one built for the scheduled address from the draws, so it has a listed score, that score's level and flags, and a count in [50, 1049] |
| AddressReputation.SubmitValidAddress | src/app/address-reputation/page.tsx:27-57 | a valid submission ends with no error and a report for the submitted address |
| AddressReputation.FreshPageCannotSubmit | src/app/address-reputation/page.tsx:22 | the page opens with its check button disabled |
| AddressReputation.ValidAddressEnablesButton | src/app/address-reputation/page.tsx:108 | a valid address while no check runs leaves the button enabled |
| AddressReputation.EnabledButtonMayStillReject | src/app/address-reputation/page.tsx:108 | the button asks only for a non-empty field, so an enabled press on an invalid address schedules nothing and shows the address error |
| Sidebar.MainButton | src/components/layout/AppSidebarContent.tsx:61-69 | the button is active iff the path equals the href or, except for /dashboard, starts with it; the highlight class is chosen iff it is active |
| Sidebar.BottomButton | src/components/layout/AppSidebarContent.tsx:83-91 | a bottom button is active iff the path equals its href; the highlight class is chosen iff it is active |
| Sidebar.ActiveMainItems | src/components/layout/AppSidebarContent.tsx:59-63 | the active items are exactly the listed items whose activity rule holds |
| Sidebar.DashboardOnlyOnExactMatch | src/components/layout/AppSidebarContent.tsx:63 | the dashboard item is active iff the path is exactly /dashboard |
| Sidebar.PrefixMatchIsByCharacters | src/components/layout/AppSidebarContent.tsx:63 | prefix matching is on characters: "/scanner-x" activates /scanner and not /simulator |
| Sidebar.TestingTypePathHighlightsNothing | src/components/layout/AppSidebarContent.tsx:30-38 | on "/dashboard/testing-type" no main item is active, the dashboard included |
| Sidebar.MainHrefsArePrefixFree | src/components/layout/AppSidebarContent.tsx:30-38 | no main href is a prefix of another |
| Sidebar.ActiveMainItemsExclude | src/components/layout/AppSidebarContent.tsx:63 | two distinct main items are never active together |
| Sidebar.AtMostOneMainItemActive | src/components/layout/AppSidebarContent.tsx:30-38 | for every path at most one main item is active |
| Sidebar.BottomItemsExactOnly | src/components/layout/AppSidebarContent.tsx:85 | a bottom item is inactive on any path other than its own |
| Submission.Trim | src/app/scanner/page.tsx:26 | the trimmed code is empty iff every character is whitespace or a line terminator; otherwise it starts and ends with a kept character |
| Submission.TrimIsInfix | src/app/scanner/page.tsx:26 | the trimmed code is a contiguous part of the code, and everything cut away before and after it is whitespace or line terminators |
| Submission.BlankIffNoContent | src/app/scanner/page.tsx:26 | code is blank iff it has no character that trim keeps |
| Scanner.Submit | src/app/scanner/page.tsx:24-35 | blank code sets "Smart contract code cannot be empty." and sends nothing; other code clears error and result, starts pending and sends the code verbatim with the selected tier |
| Scanner.Complete | src/app/scanner/page.tsx:33-52 | a returned report is shown; a thrown value sets "Failed to scan contract: " + its message and leaves the result; pending ends |
| Scanner.ReportedTier | src/app/scanner/page.tsx:39 | the success toast names the applied tier, or the requested tier when none is applied |
| Scanner.TierLabel | src/app/scanner/page.tsx:113 | an empty tier reads "Free"; any other has its first character upper-cased and the rest unchanged |
| Scanner.TierBadge | src/app/scanner/page.tsx:129-130 | a badge is shown iff the report names its tier; it uses the default style iff the tier is pro or enterprise |
| Scanner.ScanSentIffCodeHasContent | src/app/scanner/page.tsx:26-35 | a scan is sent iff the code holds a character trim keeps |
| Scanner.EnabledButtonSendsScan | src/app/scanner/page.tsx:104 | when the button is enabled (not pending, code not blank), submitting sends the code verbatim with the tier |
| Scanner.FreshPageScansFree | src/app/scanner/page.tsx:22 | on a fresh page, non-blank code is scanned at the free tier |
| Scanner.FailedScanShowsNoResult | src/app/scanner/page.tsx:30-45 | a submission whose scan throws ends with no result and the prefixed error |
| Scanner.SuccessfulScanShowsReport | src/app/scanner/page.tsx:30-41 | a submission whose scan returns shows that report, no error, and a toast naming the applied or requested tier |
| Scanner.TierLabels | src/app/scanner/page.tsx:113 | the three tiers are labelled Free, Pro and Enterprise |
| Scanner.ButtonTextShowsTier | src/app/scanner/page.tsx:105-114 | the button reads "Scanning..." while pending, else "Scan Contract (Free)", "Scan Contract (Pro)" or "Scan Contract (Enterprise)" for the selected tier |
| Scanner.SubmitDisabledIff | src/app/scanner/page.tsx:104 | the button is disabled iff a scan is pending or the code has no character trim keeps |
| Scanner.FailureErrorText | src/app/scanner/page.tsx:42-45 | a thrown `Error` shows "Failed to scan contract: " followed by its own message; any other thrown value shows "Failed to scan contract: An unknown error occurred." |
| TestingType.Submit | src/app/dashboard/testing-type/page.tsx:21-32 | blank code sets the empty-code error and sends nothing; other code clears error and result and sends only the code, verbatim |
| TestingType.Complete | src/app/dashboard/testing-type/page.tsx:30-49 | a returned report is shown; a thrown value sets "Failed to analyze contract: " + its message and leaves the result; pending ends |
| TestingType.AnalysisSentIffCodeHasContent | src/app/dashboard/testing-type/page.tsx:23-32 | an analysis is sent iff the code holds a character trim keeps |
| TestingType.EnabledButtonSendsAnalysis | src/app/dashboard/testing-type/page.tsx:87 | when the button is enabled, submitting sends the code verbatim |
| TestingType.FailedAnalysisShowsNoResult | src/app/dashboard/testing-type/page.tsx:27-42 | a submission whose analysis throws ends with no result and the prefixed error |
| TestingType.SuccessfulAnalysisShowsReport | src/app/dashboard/testing-type/page.tsx:27-33 | a submission whose analysis returns shows that report and no error |
| TestingType.ButtonTextFollowsPending | src/app/dashboard/testing-type/page.tsx:88-97 | the button reads "Analyzing..." iff an analysis is pending, and "Analyze Contract" otherwise |
| TestingType.SubmitDisabledIff | src/app/dashboard/testing-type/page.tsx:87 | the button is disabled iff an analysis is pending or the code has no character trim keeps |
| TestingType.FreshPageCannotSubmit | src/app/dashboard/testing-type/page.tsx:87 | the page opens with its button disabled, and submitting it sends nothing |

## Left out

- The AI flows (prompt text, the language-model call, schema enforcement).
  They are external. The calls are oracles returning a `CallOutcome`.
  `TestingType.AnalysisReport` mirrors the output record of
  `src/ai/flows/contract-type-test-flow.ts`. The vulnerability-scan flow is
  not part of this model; `Scanner.ScanReport` follows the fields the scanner
  page reads.
- bcrypt, zod's email check and better-sqlite3 are library internals. They
  are the `Env` functions and the store map. The connection set-up, the WAL
  pragma and the directory creation are left out.
- The missing `tier` column in `src/lib/db.ts`. Against that schema the
  INSERT and SELECT naming `tier` would fail, and both actions would return
  their unexpected-error message. The model keeps the store the actions
  expect and does not reconcile the two.
- The user `id` and `createdAt` columns. The register lookup selects `id` and the
  login lookup reads it, but no action uses its value.
- Register.RegisterUser: database faults are considered only at the INSERT.
  A fault while opening the database or during the lookup gives the same
  unexpected-error message, except that it would also replace the
  duplicate-email answer.
- The "Invalid data provided." fallback of both actions. `fieldErrors` is
  always an object, so that branch cannot be taken.
- Form fields missing from the `FormData` (`null`). Fields are strings here.
- Lengths count Dafny characters. JavaScript counts UTF-16 code units, which
  differs only outside the Basic Multilingual Plane.
- Scanner.TierLabel: upper-cases ASCII letters only, because
  `toUpperCase` on other scripts is Unicode case mapping. Tier names are ASCII.
- Floating point: the random draws are exact reals. The draws themselves are
  parameters, and the 1.8-second mock delay is the gap between `StartCheck`
  and `FinishCheck`.
- The NEXT_REDIRECT rethrow in the login action, the console logging, toasts
  beyond their text and variant, icons, colours other than the risk colours,
  JSX, and React state plumbing (`useState`, `useTransition`).
- The gas estimator and the transaction simulator. They return constant mock
  text after a timer.
- The static or presentational pages (dashboard, alerts, visualizations,
  settings, support, layout, shell, header, chart loader) and the sidebar's
  placeholder Log Out button.
- Concurrency of overlapping submissions or server actions.
