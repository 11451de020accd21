/** What every page object shares: the exceptions that can leave an operation, the two ways
    a page logs (through the report manager's current test, or through the test logger it
    captured when it was built), the constructor's guard, the Open Graph meta-tag check,
    the wait/click/scroll wrappers, and the browser's windows. */
module BasePage {
  import opened JavaStrings
  import opened ExtentReportManager

  /** The exceptions the modelled operations can raise. AssertionError is a
      java.lang.Error; all the others are Exceptions. */
  datatype Thrown =
    | AssertionError(reason: Reason)
    | TimeoutException
    | IllegalStateException
    | NoSuchElementException
    | NullPointerException
    | IndexOutOfBoundsException
    | StaleElementReferenceException
    | NoSuchWindowException
  {
    /** Caught by `catch (Exception e)`. */
    predicate IsException() {
      !AssertionError?
    }
  }

  /** Why an AssertionError was raised. `TestFailed(e)` is filterByLocation's rethrow: a
      new AssertionError whose message names the Exception e (no cause is chained). */
  datatype Reason =
    | OptionsNotLoaded
    | SelectionMismatch
    | TestFailed(cause: Thrown)

  /** How an operation ends: it returns a value or raises. */
  datatype Outcome<T> = Returned(value: T) | Threw(thrown: Thrown)

  /** ExtentReportManager.logX goes to the manager's current test (and is skipped when there
      is none); testLogger.x goes to the test that was current when the page was built. */
  datatype Channel = Manager | Logger

  datatype Entry = Entry(channel: Channel, level: Level)

  /** An operation's outcome together with the report calls it made, in order. */
  datatype Run<T> = Run(outcome: Outcome<T>, logs: seq<Entry>)

  /** `try { inner } catch (Exception e) { <log fail on ch>; return fallback; }`:
      an Exception becomes the fallback value after one failure entry; an Error passes. */
  function Guarded<T>(inner: Run<T>, fallback: T, ch: Channel): (r: Run<T>)
    ensures r.outcome.Threw? ==> !r.outcome.thrown.IsException() && r == inner
    ensures inner.outcome.Returned? ==> r == inner
    ensures inner.outcome.Threw? && inner.outcome.thrown.IsException() ==>
      r == Run(Returned(fallback), inner.logs + [Entry(ch, Fail)])
  {
    if inner.outcome.Threw? && inner.outcome.thrown.IsException() then
      Run(Returned(fallback), inner.logs + [Entry(ch, Fail)])
    else
      inner
  }

  /** Appends `entries` to the log of a run that is still going; a run that raised is left
      as it is. */
  function Then<T>(run: Run<T>, entries: seq<Entry>): Run<T> {
    if run.outcome.Returned? then Run(run.outcome, run.logs + entries) else run
  }

  // ---------------------------------------------------------------------------------------
  // Construction

  /** The wait budget every page gets from the base constructor, in seconds. */
  const DefaultWaitSeconds: nat := 10

  /** The state the base constructor sets up (the driver handle is implicit). */
  datatype Page = Page(waitSeconds: nat, testLogger: ExtentTest)

  /** The base constructor: it takes the manager's current test as the page's logger and
      refuses to build a page when there is none. */
  method NewPage(rm: ReportManager) returns (r: Outcome<Page>)
    requires rm.Valid()
    ensures r.Threw? <==> rm.test == null
    ensures r.Threw? ==> r.thrown == IllegalStateException
    ensures r.Returned? ==> r.value.testLogger == rm.test && r.value.waitSeconds == DefaultWaitSeconds
  {
    var logger := rm.GetTest();
    if logger == null {
      r := Threw(IllegalStateException);
    } else {
      r := Returned(Page(DefaultWaitSeconds, logger));
    }
  }

  /** The test set-up as the suite runs it: once a test has been started, a page can be
      built; a test started afterwards becomes current, but the page keeps logging its
      Logger-channel entries to the earlier one. */
  method PageAfterStartTest(rm: ReportManager) returns (page: Page)
    requires rm.Valid()
    modifies rm, rm.extent
    ensures rm.Valid() && rm.test != null
    ensures page.testLogger != rm.test && rm.test.name == "test"
    ensures page.testLogger.name == "setUp" && page.testLogger.events == []
    ensures |rm.extent.tests| >= 2 && page.testLogger == rm.extent.tests[|rm.extent.tests| - 2]
    ensures rm.test == rm.extent.tests[|rm.extent.tests| - 1]
    ensures page.waitSeconds == DefaultWaitSeconds
  {
    rm.StartTest("setUp");
    var built := NewPage(rm);
    page := built.value;
    rm.StartTest("test");
  }

  // ---------------------------------------------------------------------------------------
  // Open Graph meta tags

  /** One `<meta property="og:...">` element: Missing when findElement finds none (it throws
      NoSuchElementException); otherwise its `content` attribute, None when absent (Java null). */
  datatype Tag = Missing | Present(content: Option<string>)

  datatype Option<T> = None | Some(value: T)

  datatype OgTags = OgTags(title: Tag, description: Tag, url: Tag, siteName: Tag)

  datatype Expected = Expected(title: string, description: string, url: string, siteName: string)

  /** The four-field rule: title, url and site name equal the expected text exactly; the
      description contains the expected text. */
  predicate Matches(tags: OgTags, exp: Expected) {
    && tags.title == Present(Some(exp.title))
    && tags.description.Present? && tags.description.content.Some?
    && Contains(tags.description.content.value, exp.description)
    && tags.url == Present(Some(exp.url))
    && tags.siteName == Present(Some(exp.siteName))
  }

  predicate AllPresent(tags: OgTags) {
    tags.title.Present? && tags.description.Present? && tags.url.Present? && tags.siteName.Present?
  }

  /** The shared body of every meta-tag check: the four lookups, the four "expected/actual"
      info lines, then `title.equals(..) && description.contains(..) && url.equals(..) &&
      siteName.equals(..)` evaluated left to right, where a null content attribute raises
      NullPointerException once it is reached. */
  function CheckOgTags(tags: OgTags, exp: Expected): (r: Run<bool>)
    ensures r.outcome == Returned(true) <==> Matches(tags, exp)
    ensures !AllPresent(tags) <==> r == Run(Threw(NoSuchElementException), [])
    ensures r.outcome.Threw? ==> r.outcome.thrown in {NoSuchElementException, NullPointerException}
  {
    if !AllPresent(tags) then
      Run(Threw(NoSuchElementException), [])
    else
      var shown := [Entry(Manager, Info), Entry(Manager, Info), Entry(Manager, Info), Entry(Manager, Info)];
      Run(CompareContents(tags.title.content, tags.description.content, tags.url.content,
                          tags.siteName.content, exp), shown)
  }

  function CompareContents(title: Option<string>, description: Option<string>, url: Option<string>,
                           siteName: Option<string>, exp: Expected): (r: Outcome<bool>)
    ensures r == Returned(true) <==>
      title == Some(exp.title) && description.Some? && Contains(description.value, exp.description)
      && url == Some(exp.url) && siteName == Some(exp.siteName)
    ensures r.Threw? ==> r.thrown == NullPointerException
  {
    if title.None? then Threw(NullPointerException)
    else if title.value != exp.title then Returned(false)
    else if description.None? then Threw(NullPointerException)
    else if !Contains(description.value, exp.description) then Returned(false)
    else if url.None? then Threw(NullPointerException)
    else if url.value != exp.url then Returned(false)
    else if siteName.None? then Threw(NullPointerException)
    else Returned(siteName.value == exp.siteName)
  }

  /** A meta-tag check that ends with one verdict line (`pass` when the tags match, `fail`
      otherwise), guarded by `catch (Exception e) { logFail; return false; }`. */
  function VerifyOgTags(tags: OgTags, exp: Expected, pass: Level, fail: Level): (r: Run<bool>)
    ensures r.outcome.Returned?
    ensures r.outcome.value <==> Matches(tags, exp)
    ensures Matches(tags, exp) ==>
              r.logs == [Entry(Manager, Info), Entry(Manager, Info), Entry(Manager, Info),
                         Entry(Manager, Info), Entry(Manager, pass)]
    ensures !AllPresent(tags) ==> r.logs == [Entry(Manager, Fail)]
  {
    var c := CheckOgTags(tags, exp);
    var verdict := if c.outcome == Returned(true) then pass else fail;
    Guarded(Then(c, [Entry(Manager, verdict)]), false, Manager)
  }

  /** BasePage.verifyMetaTags: never raises; passes exactly on the four-field rule. */
  function VerifyMetaTags(tags: OgTags, exp: Expected): (r: Run<bool>)
    ensures r.outcome.Returned?
    ensures r.outcome.value <==> Matches(tags, exp)
    ensures !AllPresent(tags) ==> r.logs == [Entry(Manager, Fail)]
    ensures Matches(tags, exp) ==> Entry(Manager, Fail) !in r.logs
  {
    VerifyOgTags(tags, exp, Info, Info)
  }

  /** Text around an expected description does not change a passing verdict. */
  lemma DescriptionContextIrrelevant(tags: OgTags, exp: Expected, before: string, after: string)
    requires Matches(tags, exp)
    ensures Matches(tags.(description := Present(Some(before + tags.description.content.value + after))), exp)
  {
    ContainsExtended(tags.description.content.value, exp.description, before, after);
  }

  /** Changing title, url or site name to anything else fails the check. */
  lemma ExactFieldsMatter(tags: OgTags, exp: Expected, other: string)
    requires Matches(tags, exp)
    ensures other != exp.title ==> !Matches(tags.(title := Present(Some(other))), exp)
    ensures other != exp.url ==> !Matches(tags.(url := Present(Some(other))), exp)
    ensures other != exp.siteName ==> !Matches(tags.(siteName := Present(Some(other))), exp)
  {
  }

  // ---------------------------------------------------------------------------------------
  // Waits, clicks and scrolling

  /** A wait that either sees its condition within the budget or times out; on timeout the
      page's test logger records a failure and the same TimeoutException is rethrown. */
  function WaitOrRethrow(conditionMet: bool): (r: Run<()>)
    ensures r.outcome.Returned? <==> conditionMet
    ensures r.outcome.Threw? ==> r.outcome.thrown == TimeoutException
    ensures r.logs == if conditionMet then [] else [Entry(Logger, Fail)]
  {
    if conditionMet then Run(Returned(()), []) else Run(Threw(TimeoutException), [Entry(Logger, Fail)])
  }

  function WaitForElementToBeClickable(becomesClickable: bool): (r: Run<()>)
    ensures r.outcome.Returned? <==> becomesClickable
    ensures r.outcome.Threw? ==> r.outcome.thrown == TimeoutException
    ensures r.logs == if becomesClickable then [] else [Entry(Logger, Fail)]
  {
    WaitOrRethrow(becomesClickable)
  }

  function WaitForElementToBeVisible(becomesVisible: bool): (r: Run<()>)
    ensures r.outcome.Returned? <==> becomesVisible
    ensures r.outcome.Threw? ==> r.outcome.thrown == TimeoutException
    ensures r.logs == if becomesVisible then [] else [Entry(Logger, Fail)]
  {
    WaitOrRethrow(becomesVisible)
  }

  /** BasePage.clickElement: waits for the element to be clickable, clicks it, then reads
      its text for the info line, all in one try block; every failure is logged on the
      page's test logger and swallowed. `clicks` says whether click() returns normally,
      `textReadable` whether the text read after it does (it raises when the click
      navigated away and the element went stale). The value says whether the whole try
      block completed, not whether the click happened: a click followed by a stale read
      is reported as one failure line. A timeout is logged twice: by the wait and by the
      catch. */
  function ClickElement(becomesClickable: bool, clicks: bool, textReadable: bool): (r: Run<bool>)
    ensures r.outcome.Returned?
    ensures r.outcome.value <==> becomesClickable && clicks && textReadable
    ensures forall e :: e in r.logs ==> e.channel == Logger
    ensures Entry(Logger, Fail) in r.logs <==> !r.outcome.value
    ensures !becomesClickable ==> r.logs == [Entry(Logger, Fail), Entry(Logger, Fail)]
    ensures becomesClickable && !(clicks && textReadable) ==> r.logs == [Entry(Logger, Fail)]
    ensures r.outcome.value ==> r.logs == [Entry(Logger, Info)]
  {
    var waited := WaitForElementToBeClickable(becomesClickable);
    var inner :=
      if waited.outcome.Threw? then Run(Threw(waited.outcome.thrown), waited.logs)
      else if !clicks || !textReadable then Run(Threw(StaleElementReferenceException), waited.logs)
      else Run(Returned(true), waited.logs + [Entry(Logger, Info)]);
    Guarded(inner, false, Logger)
  }

  /** BasePage.scrollToElement: never raises; one info line on success, one failure line
      (through the manager) otherwise. */
  function ScrollToElement(scrolls: bool): (r: Run<()>)
    ensures r.outcome == Returned(())
    ensures r.logs == [Entry(Manager, if scrolls then Info else Fail)]
  {
    var inner := if scrolls then Run(Returned(()), [Entry(Manager, Info)])
                 else Run(Threw(StaleElementReferenceException), []);
    Guarded(inner, (), Manager)
  }

  // ---------------------------------------------------------------------------------------
  // Browser windows

  predicate Distinct(s: seq<string>) {
    forall i, j :: 0 <= i < j < |s| ==> s[i] != s[j]
  }

  /** s with every occurrence of x removed, order kept. */
  function Without(s: seq<string>, x: string): (r: seq<string>)
    ensures forall y :: y in r <==> y in s && y != x
    ensures Distinct(s) ==> Distinct(r)
    decreases |s|
  {
    if s == [] then []
    else if s[0] == x then Without(s[1..], x)
    else
      var rest := Without(s[1..], x);
      assert Distinct(s) ==> Distinct(s[1..]) && s[0] !in s[1..];
      [s[0]] + rest
  }

  /** Closing the window that was opened last gives back the windows there were before. */
  lemma {:induction false} WithoutAppended(s: seq<string>, x: string)
    requires x !in s
    ensures Without(s + [x], x) == s
    decreases |s|
  {
    if s == [] {
      assert [] + [x] == [x];
    } else {
      assert (s + [x])[1..] == s[1..] + [x];
      WithoutAppended(s[1..], x);
    }
  }

  /** The driver's window state: the open window handles in the order getWindowHandles
      reports them, and the handle commands currently go to (it may name a closed window). */
  class Driver {
    var windows: seq<string>
    var current: string

    ghost predicate Valid()
      reads this
    {
      Distinct(windows)
    }

    constructor (handle: string)
      ensures Valid() && windows == [handle] && current == handle
    {
      windows := [handle];
      current := handle;
    }

    /** switchTo().window(h); `ok` is false where Selenium raises NoSuchWindowException. */
    method SwitchTo(handle: string) returns (ok: bool)
      requires Valid()
      modifies this
      ensures Valid() && windows == old(windows)
      ensures ok <==> handle in windows
      ensures current == if ok then handle else old(current)
    {
      ok := handle in windows;
      if ok {
        current := handle;
      }
    }

    /** close(): closes the current window; focus is not moved anywhere. `ok` is false
        where Selenium raises NoSuchWindowException (the focused window is already closed),
        and nothing changes then. */
    method Close() returns (ok: bool)
      requires Valid()
      modifies this
      ensures Valid() && current == old(current)
      ensures ok <==> old(current) in old(windows)
      ensures windows == if ok then Without(old(windows), old(current)) else old(windows)
    {
      ok := current in windows;
      if ok {
        windows := Without(windows, current);
      }
    }

    /** A link that opens a new tab: the handle joins the list, focus stays where it was. */
    method Open(handle: string)
      requires Valid() && handle !in windows
      modifies this
      ensures Valid() && windows == old(windows) + [handle] && current == old(current)
    {
      windows := windows + [handle];
    }
  }
}
