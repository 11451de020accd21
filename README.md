# Insider website test suite — a Dafny model of its page objects

The repository is a Selenium/JUnit suite that drives the Insider website (home page,
careers page, the quality-assurance jobs page, and the open-positions listing) and writes an
Extent HTML report. This project models the decision logic inside its page objects and its
report manager, with the live browser replaced by abstract observations:

- a meta tag is missing, or present with a possibly-null `content`;
- a wait either sees its condition within its budget or raises `TimeoutException`;
- the dropdown's option list is given per arrow click;
- job items are their department and location texts;
- the browser is a list of window handles plus the focused handle.

Modules, one per Java file, plus one for the `java.lang.String` operations the code relies on:

| module | file | models |
|---|---|---|
| `JavaStrings` | `java_strings.dfy` | `contains`, `equalsIgnoreCase` (ASCII case folding), `trim` |
| `ExtentReportManager` | `extent_report_manager.dfy` | the lazily created report, the current test, null-guarded logging, flushing |
| `BasePage` | `base_page.dfy` | exceptions and report lines of an operation, the page constructor, the Open Graph check, wait/click/scroll wrappers, browser windows |
| `CareersPage` | `careers_page.dfy` | URL check, meta tags, teams block, job-item count, "See all teams" |
| `HomePage` | `home_page.dfy` | meta tags, logo, announcement bar, cookie banner |
| `JobsListingPage` | `jobs_listing_page.dfy` | two meta-tag checks, the open-positions URL, `filterByLocation`, the department/location scans, "View Role" in a new tab |

How an operation's behaviour is represented:

- The outcome is a `Run`: either the returned value or the exception raised, plus the
  report lines written, in order, as (channel, level).
- The channel is `Manager` for `ExtentReportManager.logX`, which writes to the manager's
  current test, or `Logger` for the `testLogger` a page captured when it was built.
- Message texts are not part of the model.
- `AssertionError` is a `java.lang.Error`, so `catch (Exception e)` does not catch it. The
  model keeps that distinction (`Thrown.IsException`). It is what lets the AssertionErrors
  of `filterByLocation` escape its handler.

Java behaviour that is modelled explicitly:

- `&&` evaluates left to right, so a null attribute raises `NullPointerException` only
  when the chain reaches it.
- `String.trim` strips every character up to U+0020.
- `contains("")` is true.

The model follows the code where the code and its description differ:

- `hoverAndClickViewRole` does not always close the window it switched to. When the URL
  wait times out or the URL differs, it returns with the windows as they are and focus on
  the second handle. Started from a single window, that is the new tab, left open and
  focused.
- `hoverAndClickViewRole` switches to the second handle in the list, not to the newest one.
  With more than one window before the click, that is an older window: the success path
  closes it and the new tab stays open.
- Started from a single window, if the link opens in place, the success path closes the only
  window and the switch back fails, so the method reports false.
- `verifyOpenPositionsPage` returns true whenever the URL wait succeeds. It computes the
  comparison of the URL read afterwards and discards it.
- `clickSeeAllTeams` waits for more than three items, not for fifteen.

## Model

| member | source | states |
|---|---|---|
| JavaStrings.ContainsIff | src/main/java/com/insider/base/BasePage.java:42 | `contains` holds exactly when the substring occurs at some index |
| JavaStrings.ContainsExtended | src/main/java/com/insider/base/BasePage.java:42 | text added before or after a containing string keeps the substring contained |
| JavaStrings.ContainsSelf | src/main/java/com/insider/base/BasePage.java:42 | every string contains itself |
| JavaStrings.EqualsIgnoreCaseIff | src/main/java/com/insider/pages/JobsListingPage.java:229 | two strings are equal ignoring case exactly when their upper-case forms are equal |
| JavaStrings.TrimStart | src/main/java/com/insider/pages/JobsListingPage.java:263 | the result is a suffix starting with a non-blank character, and everything removed is blank |
| JavaStrings.TrimEnd | src/main/java/com/insider/pages/JobsListingPage.java:263 | the result is a prefix ending with a non-blank character, and everything removed is blank |
| JavaStrings.TrimOfPadded | src/main/java/com/insider/pages/JobsListingPage.java:263 | trimming blanks-core-blanks gives back the core when the core has no blank ends |
| JavaStrings.TrimStartOfPadded | src/main/java/com/insider/pages/JobsListingPage.java:263 | leading blanks in front of a non-blank start are exactly what is stripped |
| JavaStrings.TrimEndOfPadded | src/main/java/com/insider/pages/JobsListingPage.java:285 | trailing blanks after a non-blank end are exactly what is stripped |
| JavaStrings.TrimIdempotent | src/main/java/com/insider/pages/JobsListingPage.java:285 | a trimmed string has no blank ends, and trimming it again changes nothing |
| ExtentReportManager.ExtentTest.constructor | src/main/java/com/insider/utils/ExtentReportManager.java:34 | a new test has the given name and no events |
| ExtentReportManager.ExtentTest.Log | src/main/java/com/insider/utils/ExtentReportManager.java:43 | logging appends exactly one event of the given level |
| ExtentReportManager.ExtentReports.constructor | src/main/java/com/insider/utils/ExtentReportManager.java:24 | a new report has no tests and was never flushed |
| ExtentReportManager.ExtentReports.CreateTest | src/main/java/com/insider/utils/ExtentReportManager.java:34 | a fresh test is appended to the report's tests |
| ExtentReportManager.ExtentReports.Flush | src/main/java/com/insider/utils/ExtentReportManager.java:61 | flushing counts one flush and keeps the tests |
| ExtentReportManager.ReportManager.constructor | src/main/java/com/insider/utils/ExtentReportManager.java:9-10 | at class load there is no report and no current test |
| ExtentReportManager.ReportManager.GetInstance | src/main/java/com/insider/utils/ExtentReportManager.java:12-31 | the report is created only when none exists, and every call returns that same report |
| ExtentReportManager.ReportManager.StartTest | src/main/java/com/insider/utils/ExtentReportManager.java:33-35 | ensures the report exists, then makes a fresh test with that name, created in the report, the current test |
| ExtentReportManager.ReportManager.GetTest | src/main/java/com/insider/utils/ExtentReportManager.java:37-39 | a non-null current test is one the report created |
| ExtentReportManager.ReportManager.Log | src/main/java/com/insider/utils/ExtentReportManager.java:41-57 | no-op without a current test; otherwise exactly one event is appended to the current test only |
| ExtentReportManager.ReportManager.LogInfo | src/main/java/com/insider/utils/ExtentReportManager.java:41-45 | appends one info event to the current test, if any |
| ExtentReportManager.ReportManager.LogPass | src/main/java/com/insider/utils/ExtentReportManager.java:47-51 | appends one pass event to the current test, if any |
| ExtentReportManager.ReportManager.LogFail | src/main/java/com/insider/utils/ExtentReportManager.java:53-57 | appends one fail event to the current test, if any |
| ExtentReportManager.ReportManager.EndTest | src/main/java/com/insider/utils/ExtentReportManager.java:59-63 | flushes only an existing report and leaves the current test as it was |
| ExtentReportManager.RunLifecycle | src/main/java/com/insider/utils/ExtentReportManager.java:12-63 | logging before any test is lost, one report serves two tests, and a line logged after endTest still reaches the last test |
| BasePage.Guarded | src/main/java/com/insider/base/BasePage.java:48-51 | `catch (Exception)`: an Exception becomes the fallback value after one fail line; an Error passes unchanged |
| BasePage.NewPage | src/main/java/com/insider/base/BasePage.java:17-26 | construction raises IllegalStateException exactly when there is no current test; otherwise the page logs to that test and waits 10 seconds |
| BasePage.PageAfterStartTest | src/main/java/com/insider/base/BasePage.java:20 | a page built after startTest("setUp") logs to that test, which the report created just before the current one; a later startTest("test") becomes current without changing the page's logger |
| BasePage.CheckOgTags | src/main/java/com/insider/base/BasePage.java:31-44 | the comparison yields true exactly on the four-field rule; a missing tag raises NoSuchElementException before any line is written |
| BasePage.CompareContents | src/main/java/com/insider/base/BasePage.java:41-44 | the `&&` chain is true exactly when title, url and site name are equal and the description contains the expected text; a null is the only other way out |
| BasePage.VerifyOgTags | src/main/java/com/insider/base/BasePage.java:29-52 | never raises; true exactly on the four-field rule; four info lines and a verdict line on a match; one fail line when a tag is missing |
| BasePage.VerifyMetaTags | src/main/java/com/insider/base/BasePage.java:29-52 | never raises; true exactly on the four-field rule; a missing tag gives false with one fail line |
| BasePage.DescriptionContextIrrelevant | src/main/java/com/insider/base/BasePage.java:42 | text around the expected description does not change a passing verdict |
| BasePage.ExactFieldsMatter | src/main/java/com/insider/base/BasePage.java:41-44 | any other title, url or site name fails the check |
| BasePage.WaitOrRethrow | src/main/java/com/insider/base/BasePage.java:71-87 | a wait returns when its condition is met; otherwise one fail line on the page's logger and the same TimeoutException rethrown |
| BasePage.WaitForElementToBeClickable | src/main/java/com/insider/base/BasePage.java:71-78 | returns when clickable; otherwise logs a failure and rethrows TimeoutException |
| BasePage.WaitForElementToBeVisible | src/main/java/com/insider/base/BasePage.java:80-87 | returns when visible; otherwise logs a failure and rethrows TimeoutException |
| BasePage.ClickElement | src/main/java/com/insider/base/BasePage.java:99-106 | never raises; the value says the whole try block completed (clickable wait, click, and the text read after it); a fail line exactly when it did not, so a click followed by a stale text read is one fail line; a timeout is logged twice |
| BasePage.ScrollToElement | src/main/java/com/insider/base/BasePage.java:60-69 | never raises; one info line on success, one fail line otherwise |
| BasePage.Without | src/main/java/com/insider/pages/JobsListingPage.java:334 | closing a window removes exactly that handle and keeps the others distinct |
| BasePage.WithoutAppended | src/main/java/com/insider/pages/JobsListingPage.java:334-335 | closing the window opened last gives back the windows there were before |
| BasePage.Driver.constructor | src/main/java/com/insider/pages/JobsListingPage.java:316 | a browser starts with one window, focused |
| BasePage.Driver.SwitchTo | src/main/java/com/insider/pages/JobsListingPage.java:318 | switching succeeds exactly for an open handle and changes only the focus |
| BasePage.Driver.Close | src/main/java/com/insider/pages/JobsListingPage.java:334 | closes the focused window without moving the focus; fails, changing nothing, when that window is already closed |
| BasePage.Driver.Open | src/main/java/com/insider/pages/JobsListingPage.java:312 | a link opening a tab appends a new handle and keeps the focus |
| CareersPage.IsCareersPageOpened | src/main/java/com/insider/pages/CareersPage.java:28-36 | true exactly when the URL contains the careers URL at some index; one pass or fail line to match |
| CareersPage.CareersCheckAcceptsSubpages | src/main/java/com/insider/pages/CareersPage.java:29 | every page below the careers URL passes; the home page does not |
| CareersPage.VerifyCareersPageMetaTags | src/main/java/com/insider/pages/CareersPage.java:38-70 | never raises; true exactly on the four-field rule with the careers literals; the last line is pass exactly when it matched |
| CareersPage.IsTeamsBlockPresent | src/main/java/com/insider/pages/CareersPage.java:86-112 | true exactly when the title is visible, exactly three items are listed and the button is displayed; a missing element, timeout or empty list is a fail line and false |
| CareersPage.JobGrid.constructor | src/main/java/com/insider/pages/CareersPage.java:76-83 | the grid holds the given counts and button state |
| CareersPage.GetJobItemCount | src/main/java/com/insider/pages/CareersPage.java:114-130 | returns the item count, or 0 when listing fails; scrolls to the last item only when there is one |
| CareersPage.ClickSeeAllTeams | src/main/java/com/insider/pages/CareersPage.java:133-155 | never raises; the grid expands exactly when the button is found and clickable; the last line is pass exactly when the items can be listed and the grid then lists more than three of them |
| CareersPage.TeamsExpansion | src/test/java/com/insider/tests/InsiderTest.java:111-119 | three items before the click; the expansion passes for any count above three |
| HomePage.VerifyHomePageMetaTags | src/main/java/com/insider/pages/HomePage.java:26-33 | true exactly on the four-field rule with the home-page literals |
| HomePage.HomeMetaTagsScenario | src/main/java/com/insider/pages/HomePage.java:26-33 | the expected home tags pass whatever surrounds the description; any other title fails |
| HomePage.IsLogoCorrect | src/main/java/com/insider/pages/HomePage.java:35-50 | true exactly when src and alt are the expected literals; a fail line exactly when the logo is missing or a reached attribute is null |
| HomePage.IsAnnounceInfoPresent | src/main/java/com/insider/pages/HomePage.java:58-68 | never raises; true exactly when the bar becomes visible; a fail line exactly when it does not |
| HomePage.HandleCookieBanner | src/main/java/com/insider/pages/HomePage.java:76-86 | accepts exactly when the banner is shown and its button clickable; never a fail line; nothing logged without a banner |
| JobsListingPage.VerifyJobsListingPageMetaTags | src/main/java/com/insider/pages/JobsListingPage.java:44-72 | never raises; true exactly on the four-field rule with the quality-assurance literals; a fail line exactly when a lookup fails or a reached attribute is null |
| JobsListingPage.VerifyOpenPositionsPageMetaTags | src/main/java/com/insider/pages/JobsListingPage.java:116-144 | never raises; true exactly on the four-field rule with the open-positions literals; a fail line exactly on a failed lookup or reached null |
| JobsListingPage.NoPagePassesBothChecks | src/main/java/com/insider/pages/JobsListingPage.java:46-121 | no page passes both jobs-page meta checks |
| JobsListingPage.VerifyOpenPositionsPage | src/main/java/com/insider/pages/JobsListingPage.java:146-158 | true exactly when the URL wait succeeds, whatever URL is read afterwards; one info or fail line |
| JobsListingPage.ClicksFrom | src/main/java/com/insider/pages/JobsListingPage.java:207-215 | from attempt n on, the loop stops at the first attempt listing more than one option, or at the tenth |
| JobsListingPage.ArrowClicks | src/main/java/com/insider/pages/JobsListingPage.java:207-215 | between 1 and 10 clicks; every earlier attempt listed at most one option; stopping before the tenth means more than one was listed |
| JobsListingPage.ArrowClicksUnique | src/main/java/com/insider/pages/JobsListingPage.java:215 | the stopping attempt is the only one with those properties |
| JobsListingPage.ClickArrowUntilLoaded | src/main/java/com/insider/pages/JobsListingPage.java:207-215 | the do-while loop makes exactly ArrowClicks clicks and ends with that attempt's options |
| JobsListingPage.FirstMatchFrom | src/main/java/com/insider/pages/JobsListingPage.java:228-229 | the first option from i on that equals the location ignoring case; none exactly when no later option does |
| JobsListingPage.FirstMatch | src/main/java/com/insider/pages/JobsListingPage.java:228-229 | the first option in list order equal to the location ignoring case; none exactly when no option is |
| JobsListingPage.FindOption | src/main/java/com/insider/pages/JobsListingPage.java:228-245 | the early-exit loop stops at FirstMatch |
| JobsListingPage.ConfirmSelection | src/main/java/com/insider/pages/JobsListingPage.java:230-243 | returns exactly when the option is clickable and the title is the location exactly; a read title that differs raises SelectionMismatch |
| JobsListingPage.Rethrown | src/main/java/com/insider/pages/JobsListingPage.java:248-251 | an Exception becomes a new AssertionError whose message names it (no cause chained), after a fail line; an AssertionError passes untouched |
| JobsListingPage.FilterByLocation | src/main/java/com/insider/pages/JobsListingPage.java:196-252 | see the list below the table |
| JobsListingPage.FilterWithMirroredTitle | src/main/java/com/insider/pages/JobsListingPage.java:228-241 | with a title that mirrors the chosen option, it succeeds exactly when the first case-insensitive match is spelled exactly as requested, or nothing matches |
| JobsListingPage.IstanbulInLowerCase | src/main/java/com/insider/pages/JobsListingPage.java:229-236 | "istanbul, turkiye" selects "Istanbul, Turkiye", then the exact title wait fails with an AssertionError |
| JobsListingPage.ScanItems | src/main/java/com/insider/pages/JobsListingPage.java:260-270 | all items match exactly when every trimmed text equals the target; otherwise it reports the first offender, whose earlier items all matched |
| JobsListingPage.ReportScan | src/main/java/com/insider/pages/JobsListingPage.java:260-274 | true exactly when every item matches; one pass or fail line |
| JobsListingPage.VerifyJobsDepartments | src/main/java/com/insider/pages/JobsListingPage.java:254-275 | true exactly when the waits succeed and every trimmed department equals the target (an empty listing passes); one pass or fail line |
| JobsListingPage.VerifyJobsLocations | src/main/java/com/insider/pages/JobsListingPage.java:277-297 | true exactly when the visibility wait succeeds and every trimmed location equals the target; one pass or fail line |
| JobsListingPage.ItemMatchesPadded | src/main/java/com/insider/pages/JobsListingPage.java:263-264 | blanks around an item's text do not matter, but its exact spelling does |
| JobsListingPage.HoverAndClickViewRole | src/main/java/com/insider/pages/JobsListingPage.java:299-343 | see the list below the table |

`JobsListingPage.FilterByLocation` states:

- only AssertionErrors leave it;
- a dropdown or arrow that is not found, or never becomes clickable, clicks nothing. It ends
  in an AssertionError whose message names the NoSuchElementException or the timeout;
- it clicks exactly `ArrowClicks` times and keeps that attempt's options;
- options that never load raise the loop's own AssertionError, with exactly one fail line,
  at the end;
- the option clicked is `FirstMatch`;
- no match logs a fail line and returns normally;
- a clicked option is confirmed exactly when the title is the location, case-sensitive;
- a title read that differs raises SelectionMismatch, but that never happens while the title
  does not change between the wait and the read.

`JobsListingPage.HoverAndClickViewRole` states:

- it never raises;
- a fail line is written exactly when it returns false;
- it succeeds exactly when at least two windows exist after the click, whoever opened
  them, and the URL reaches and equals the href;
- before the click the windows are untouched;
- a URL failure leaves the windows as they are after the click, with focus on the second
  handle. From a single window, that is the new tab, left open and focused;
- success closes the second handle's window and focuses the first handle;
- from one window, a successful follow restores the browser as it was;
- from one window with the link opening in place, a URL that reaches and equals the href
  leads to closing that only window: no window is left, the focus handle is unchanged, and
  the failing switch back makes it return false.

## Left out

- Selenium itself is not modelled: locating elements, `ExpectedConditions` polling,
  JavaScript scrolling and clicking, `Actions` hovering, `PageFactory`. Each enters as the
  observation it yields, for example "found", "became clickable within the wait", a text,
  or a handle.
- Durations are not modelled: the 10-second budgets, `Thread.sleep`, and polling intervals.
  A wait is a boolean, and the retry loop counts attempts.
- The model makes no claim about message texts of report lines, the HTML/Spark reporter
  configuration, or system information. A report is its list of tests and a flush count.
- `BasePage.hoverOverElement` and `getPageTitle`, `HomePage.isNavbarPresent`, `getOgTitle`,
  `clickCompanyMenu` and `clickCareers` are plain element plumbing with no decision logic.
- `CareersPage.getTeamsBlockTitle`, `getJobItems` and `getSeeAllTeamsButton` are plain
  element plumbing with no decision logic.
- `JobsListingPage.isJobsListingPageOpened`, `isJobsListingPageElementsPresent`,
  `clickSeeAllQAJobs` and `verifyOpenPositionsElements` are left out for the same reason.
  They repeat patterns already modelled: a `contains` URL check, visibility checks under
  `catch (Exception)`, and a guarded click.
- The scroll calls inside page operations are not modelled: their own info/fail lines are
  not included in those operations' logs. `BasePage.ScrollToElement` models them on their own.
- `JavaStrings.EqualsIgnoreCase`: does not model case folding beyond ASCII letters, because
  the compared texts are English location names.
- `JobsListingPage.HoverAndClickViewRole`: the hover is assumed to succeed. The handle list
  is in insertion order, with the new tab last. The href is taken to be non-null; a null
  href makes the URL wait time out, which the model covers as `urlReached` false.
- `WebElement.click()` after a successful clickable wait is assumed to return normally, and
  so are the reads of option texts and of the dropdown title. This covers the arrow and the
  option in `filterByLocation` (JobsListingPage.java:210, :232), the option texts (:224,
  :229) and the title read (:237), "View Role" (:312), "See all teams" (CareersPage.java:145)
  and "accept all" (HomePage.java:80). In the source, an intercepted click or a stale
  element raises an Exception into the handlers the model already has. So
  `FilterByLocation`'s click count and option choice, `HoverAndClickViewRole`,
  `ClickSeeAllTeams` and `HandleCookieBanner` hold only for runs where those calls return.
  `ClickElement` alone models a failing click.
- `ConfigReader` (reading a properties file) is not part of this model.
- The JUnit test class and the ChromeDriver set-up are not part of this model. Only its
  expected values are used: 3 and 15 items, and "Istanbul, Turkiye".
