/** The quality-assurance jobs page and the open-positions listing it leads to: two meta-tag
    checks, the URL check, the location filter with its bounded retry loop, the scans that
    check every listed job's department or location, and following "View Role" into a new
    tab and back. */
module JobsListingPage {
  import opened JavaStrings
  import opened ExtentReportManager
  import opened BasePage

  const JobsListingExpected := Expected(
    "Insider quality assurance job opportunities",
    "Do you have an eye for detail? Our Q&A team is committed to testing everything we build. Explore Insider quality assurance job opportunities.",
    "https://useinsider.com/careers/quality-assurance/",
    "Insider")

  const OpenPositionsExpected := Expected(
    "Insider open positions | Insider",
    "Looking for your next career move? Explore all open positions at Insider and see what it's like being a part of culture.",
    "https://useinsider.com/careers/open-positions/",
    "Insider")

  // ---------------------------------------------------------------------------------------
  // Meta tags and the open-positions URL

  /** verifyJobsListingPageMetaTags: the four-field rule with the quality-assurance literals;
      the verdict line is an info line either way. */
  function VerifyJobsListingPageMetaTags(tags: OgTags): (r: Run<bool>)
    ensures r.outcome.Returned?
    ensures r.outcome.value <==> Matches(tags, JobsListingExpected)
    ensures Entry(Manager, Fail) in r.logs <==> !AllPresent(tags) || !AllContentsPresent(tags, JobsListingExpected)
  {
    VerifyOgTags(tags, JobsListingExpected, Info, Info)
  }

  /** verifyOpenPositionsPageMetaTags: the same rule with the open-positions literals. */
  function VerifyOpenPositionsPageMetaTags(tags: OgTags): (r: Run<bool>)
    ensures r.outcome.Returned?
    ensures r.outcome.value <==> Matches(tags, OpenPositionsExpected)
    ensures Entry(Manager, Fail) in r.logs <==> !AllPresent(tags) || !AllContentsPresent(tags, OpenPositionsExpected)
  {
    VerifyOgTags(tags, OpenPositionsExpected, Info, Info)
  }

  /** Every content attribute that the left-to-right comparison reaches is non-null: a failure
      line is written exactly when a lookup fails or a reached attribute is null. */
  predicate AllContentsPresent(tags: OgTags, exp: Expected)
    requires AllPresent(tags)
  {
    && tags.title.content.Some?
    && (tags.title.content.value == exp.title ==> tags.description.content.Some?)
    && ((tags.title.content.value == exp.title && Contains(tags.description.content.value, exp.description))
        ==> tags.url.content.Some?)
    && ((tags.title.content.value == exp.title && Contains(tags.description.content.value, exp.description)
         && tags.url.content == Some(exp.url))
        ==> tags.siteName.content.Some?)
  }

  /** The two jobs pages differ in every field the rule compares exactly, so no page passes
      both checks. */
  lemma NoPagePassesBothChecks(tags: OgTags)
    ensures !(VerifyJobsListingPageMetaTags(tags).outcome.value && VerifyOpenPositionsPageMetaTags(tags).outcome.value)
  {
  }

  const OpenPositionsQaUrl := "https://useinsider.com/careers/open-positions/?department=qualityassurance"

  /** verifyOpenPositionsPage: waits until the URL is the filtered open-positions URL. The
      comparison of the URL read afterwards is computed and discarded, so `landedUrl` has no
      effect: only the wait decides. A timeout is caught as false with a failure line. */
  function VerifyOpenPositionsPage(urlReached: bool, landedUrl: string): (r: Run<bool>)
    ensures r.outcome.Returned?
    ensures r.outcome.value <==> urlReached
    ensures r.logs == [Entry(Manager, if urlReached then Info else Fail)]
  {
    var inner := if urlReached then Run(Returned(true), [Entry(Manager, Info)])
                 else Run(Threw(TimeoutException), []);
    Guarded(inner, false, Manager)
  }

  // ---------------------------------------------------------------------------------------
  // The location filter

  /** The most times the dropdown arrow is clicked. */
  const MaxArrowClicks: nat := 10

  /** What the location filter sees. The dropdown and its arrow are each found (or
      findElement raises) and then become clickable within the wait (or it times out).
      `listed(n)` is the option texts findElements returns after the n-th click on the arrow. `titleShown` is the dropdown's title attribute as
      the attribute wait sees it (the wait succeeds only when it is exactly the requested
      location); `titleRead` is what getAttribute returns right after (None for Java null). */
  datatype Dropdown = Dropdown(
    dropdownFound: bool,
    dropdownReady: bool,
    arrowFound: bool,
    arrowReady: bool,
    listed: nat -> seq<string>,
    optionReady: bool,
    titleShown: Option<string>,
    titleRead: Option<string>)

  /** The dropdown and its arrow were both found and clickable, so the retry loop runs. */
  predicate ArrowReachable(w: Dropdown) {
    w.dropdownFound && w.dropdownReady && w.arrowFound && w.arrowReady
  }

  /** The number of clicks the retry loop makes when it has already made n - 1 without
      seeing more than one option. */
  function ClicksFrom(listed: nat -> seq<string>, n: nat): (k: nat)
    requires 1 <= n <= MaxArrowClicks
    ensures n <= k <= MaxArrowClicks
    ensures forall m :: n <= m < k ==> |listed(m)| <= 1
    ensures k < MaxArrowClicks ==> |listed(k)| > 1
    decreases MaxArrowClicks - n
  {
    if |listed(n)| > 1 || n == MaxArrowClicks then n else ClicksFrom(listed, n + 1)
  }

  /** The number of arrow clicks: at least one, at most ten, and the first attempt whose
      option list has more than one entry, if any attempt up to the tenth has one. */
  function ArrowClicks(listed: nat -> seq<string>): (k: nat)
    ensures 1 <= k <= MaxArrowClicks
    ensures forall m :: 1 <= m < k ==> |listed(m)| <= 1
    ensures k < MaxArrowClicks ==> |listed(k)| > 1
  {
    ClicksFrom(listed, 1)
  }

  /** The characterization above pins the count down: any attempt number with those three
      properties is the one the loop stops at. */
  lemma ArrowClicksUnique(listed: nat -> seq<string>, k: nat)
    requires 1 <= k <= MaxArrowClicks
    requires forall m :: 1 <= m < k ==> |listed(m)| <= 1
    requires k < MaxArrowClicks ==> |listed(k)| > 1
    ensures k == ArrowClicks(listed)
  {
  }

  /** The first option from index i on whose text equals the location ignoring case. */
  function FirstMatchFrom(options: seq<string>, location: string, i: nat): (r: Option<nat>)
    requires i <= |options|
    ensures r.Some? ==> i <= r.value < |options| && EqualsIgnoreCase(options[r.value], location)
    ensures r.Some? ==> forall k :: i <= k < r.value ==> !EqualsIgnoreCase(options[k], location)
    ensures r.None? <==> forall k :: i <= k < |options| ==> !EqualsIgnoreCase(options[k], location)
    decreases |options| - i
  {
    if i == |options| then None
    else if EqualsIgnoreCase(options[i], location) then Some(i)
    else FirstMatchFrom(options, location, i + 1)
  }

  function FirstMatch(options: seq<string>, location: string): (r: Option<nat>)
    ensures r.Some? ==> r.value < |options| && EqualsIgnoreCase(options[r.value], location)
    ensures r.Some? ==> forall k :: 0 <= k < r.value ==> !EqualsIgnoreCase(options[k], location)
    ensures r.None? <==> forall k :: 0 <= k < |options| ==> !EqualsIgnoreCase(options[k], location)
  {
    FirstMatchFrom(options, location, 0)
  }

  /** filterByLocation's handler: an Exception becomes a new AssertionError whose message
      names it (no cause is chained; `TestFailed` records which Exception the message
      reports), after a failure line; an AssertionError raised inside passes through untouched. */
  function Rethrown(inner: Run<()>): (r: Run<()>)
    ensures r.outcome.Threw? ==> r.outcome.thrown.AssertionError?
    ensures inner.outcome.Returned? || inner.outcome.thrown.AssertionError? ==> r == inner
    ensures inner.outcome.Threw? && inner.outcome.thrown.IsException() ==>
      r == Run(Threw(AssertionError(TestFailed(inner.outcome.thrown))), inner.logs + [Entry(Manager, Fail)])
  {
    if inner.outcome.Threw? && inner.outcome.thrown.IsException() then
      Run(Threw(AssertionError(TestFailed(inner.outcome.thrown))), inner.logs + [Entry(Manager, Fail)])
    else
      inner
  }

  /** n info lines. */
  function Infos(n: nat): (s: seq<Entry>)
    ensures |s| == n && forall k :: 0 <= k < n ==> s[k] == Entry(Manager, Info)
  {
    seq(n, _ => Entry(Manager, Info))
  }

  /** The do-while loop: click the arrow and re-read the options, until more than one is
      listed or the tenth click is made. */
  method ClickArrowUntilLoaded(listed: nat -> seq<string>) returns (clicks: nat, options: seq<string>)
    ensures clicks == ArrowClicks(listed) && options == listed(clicks)
  {
    clicks := 0;
    options := [];
    var again := true;
    while again
      invariant clicks <= MaxArrowClicks
      invariant again ==> clicks < MaxArrowClicks && ArrowClicks(listed) == ClicksFrom(listed, clicks + 1)
      invariant !again ==> clicks == ArrowClicks(listed) && options == listed(clicks)
      decreases MaxArrowClicks - clicks
    {
      clicks := clicks + 1;
      options := listed(clicks);
      again := |options| <= 1 && clicks < MaxArrowClicks;
    }
  }

  /** The for-each loop over the options that stops at the first case-insensitive match. */
  method FindOption(options: seq<string>, location: string) returns (selected: Option<nat>)
    ensures selected == FirstMatch(options, location)
  {
    var i := 0;
    while i < |options|
      invariant 0 <= i <= |options|
      invariant FirstMatch(options, location) == FirstMatchFrom(options, location, i)
    {
      if EqualsIgnoreCase(options[i], location) {
        return Some(i);
      }
      i := i + 1;
    }
    return None;
  }

  /** After the option is clicked: its clickable wait, the pass line, the exact-title wait,
      the read of the title, and the comparison with the location (lines before the handler). */
  function ConfirmSelection(w: Dropdown, location: string, logs: seq<Entry>): (r: Run<()>)
    ensures r.outcome.Returned? <==> w.optionReady && w.titleShown == Some(location) && w.titleRead == Some(location)
    ensures r.outcome.Returned? ==> |r.logs| > 0 && r.logs[|r.logs| - 1] == Entry(Manager, Pass)
    ensures r.outcome == Threw(AssertionError(SelectionMismatch)) <==>
      w.optionReady && w.titleShown == Some(location) && w.titleRead.Some? && w.titleRead.value != location
    ensures !(w.optionReady && w.titleShown == Some(location)) ==> r.outcome == Threw(TimeoutException)
    ensures w.optionReady && w.titleShown == Some(location) && w.titleRead.None? ==>
      r.outcome == Threw(NullPointerException)
  {
    if !w.optionReady then Run(Threw(TimeoutException), logs)
    else
      var clicked := logs + [Entry(Manager, Pass)];
      if w.titleShown != Some(location) then Run(Threw(TimeoutException), clicked)
      else if w.titleRead.None? then Run(Threw(NullPointerException), clicked)
      else if w.titleRead.value != location then
        Run(Threw(AssertionError(SelectionMismatch)), clicked + [Entry(Manager, Fail)])
      else Run(Returned(()), clicked + [Entry(Manager, Pass)])
  }

  /** filterByLocation. Besides the run, it returns how many times the arrow was clicked,
      the option list the loop ended with, and the index of the option it clicked. */
  method FilterByLocation(w: Dropdown, location: string)
    returns (r: Run<()>, clicks: nat, options: seq<string>, selected: Option<nat>)
    // Only AssertionErrors ever leave the method.
    ensures r.outcome.Threw? ==> r.outcome.thrown.AssertionError?
    // A dropdown or arrow that never becomes clickable: nothing is clicked.
    ensures !ArrowReachable(w) ==> clicks == 0 && selected.None?
    ensures !w.dropdownFound ==> r.outcome == Threw(AssertionError(TestFailed(NoSuchElementException)))
    ensures w.dropdownFound && !w.dropdownReady ==>
      r.outcome == Threw(AssertionError(TestFailed(TimeoutException)))
    ensures w.dropdownFound && w.dropdownReady && !w.arrowFound ==>
      r.outcome == Threw(AssertionError(TestFailed(NoSuchElementException)))
    ensures w.dropdownFound && w.dropdownReady && w.arrowFound && !w.arrowReady ==>
      r.outcome == Threw(AssertionError(TestFailed(TimeoutException)))
    // The retry loop.
    ensures ArrowReachable(w) ==>
      clicks == ArrowClicks(w.listed) && options == w.listed(clicks)
    // Options that never load: the loop's own AssertionError, logged once.
    ensures ArrowReachable(w) && |options| <= 1 ==>
      selected.None? &&
      r == Run(Threw(AssertionError(OptionsNotLoaded)), [Entry(Manager, Info)] + Infos(clicks) + [Entry(Manager, Fail)])
    // The first case-insensitive match is the one clicked.
    ensures ArrowReachable(w) && |options| > 1 ==> selected == FirstMatch(options, location)
    // No match: a failure line, and the method returns normally.
    ensures ArrowReachable(w) && |options| > 1 && selected.None? ==>
      r.outcome.Returned? && |r.logs| > 0 && r.logs[|r.logs| - 1] == Entry(Manager, Fail)
    // A clicked option is confirmed only by an exact title.
    ensures selected.Some? ==>
      (r.outcome.Returned? <==> w.optionReady && w.titleShown == Some(location) && w.titleRead == Some(location))
    ensures selected.Some? && r.outcome.Returned? ==> |r.logs| > 0 && r.logs[|r.logs| - 1] == Entry(Manager, Pass)
    ensures selected.Some? && w.optionReady && w.titleShown == Some(location) &&
            w.titleRead.Some? && w.titleRead.value != location ==>
      r.outcome == Threw(AssertionError(SelectionMismatch))
    // A clicked option that does not become clickable, or a title that never becomes the
    // location, ends in the wait's timeout; a missing title attribute in a null dereference.
    ensures selected.Some? && !(w.optionReady && w.titleShown == Some(location)) ==>
      r.outcome == Threw(AssertionError(TestFailed(TimeoutException)))
    ensures selected.Some? && w.optionReady && w.titleShown == Some(location) && w.titleRead.None? ==>
      r.outcome == Threw(AssertionError(TestFailed(NullPointerException)))
    // While the title does not change between the wait and the read, the mismatch branch is
    // never taken: a wrong title ends in the wait's timeout instead.
    ensures w.titleRead == w.titleShown ==> r.outcome != Threw(AssertionError(SelectionMismatch))
    ensures r.outcome.Returned? ==> ArrowReachable(w) && |options| > 1
  {
    clicks, options, selected := 0, [], None;
    var inner: Run<()>;
    if !w.dropdownFound {
      inner := Run(Threw(NoSuchElementException), []);
    } else if !w.dropdownReady {
      inner := Run(Threw(TimeoutException), []);
    } else if !w.arrowFound {
      inner := Run(Threw(NoSuchElementException), [Entry(Manager, Info)]);
    } else if !w.arrowReady {
      inner := Run(Threw(TimeoutException), [Entry(Manager, Info)]);
    } else {
      clicks, options := ClickArrowUntilLoaded(w.listed);
      var logs := [Entry(Manager, Info)] + Infos(clicks);
      if |options| <= 1 {
        inner := Run(Threw(AssertionError(OptionsNotLoaded)), logs + [Entry(Manager, Fail)]);
      } else {
        logs := logs + [Entry(Manager, Info)];
        selected := FindOption(options, location);
        if selected.None? {
          inner := Run(Returned(()), logs + [Entry(Manager, Fail)]);
        } else {
          inner := ConfirmSelection(w, location, logs);
        }
      }
    }
    r := Rethrown(inner);
  }

  /** A select2 dropdown whose title becomes the text of the option clicked: the filter
      succeeds exactly when the options load and the first case-insensitive match is spelled
      exactly as requested (or nothing matches, which only logs a failure). */
  method FilterWithMirroredTitle(listed: nat -> seq<string>, location: string)
    returns (r: Run<()>, selected: Option<nat>)
    ensures selected == (var options := listed(ArrowClicks(listed));
                         if |options| > 1 then FirstMatch(options, location) else None)
    ensures
      var options := listed(ArrowClicks(listed));
      r.outcome.Returned? <==>
        |options| > 1 && (selected.None? || options[selected.value] == location)
    // A match that differs in case is clicked, then the exact-title wait times out.
    ensures
      var options := listed(ArrowClicks(listed));
      selected.Some? && options[selected.value] != location ==>
        r.outcome == Threw(AssertionError(TestFailed(TimeoutException)))
  {
    var options := listed(ArrowClicks(listed));
    var m := if |options| > 1 then FirstMatch(options, location) else None;
    var title := if m.Some? then Some(options[m.value]) else None;
    var w := Dropdown(true, true, true, true, listed, true, title, title);
    var clicks, seen;
    r, clicks, seen, selected := FilterByLocation(w, location);
  }

  /** The suite filters by "Istanbul, Turkiye". Requested in lower case, the option is found
      and clicked (the search ignores case), but the exact title check then fails and the
      test stops with an AssertionError. */
  method IstanbulInLowerCase() returns (r: Run<()>, selected: Option<nat>)
    ensures selected == Some(1)
    ensures r.outcome == Threw(AssertionError(TestFailed(TimeoutException)))
  {
    var loaded := ["All", "Istanbul, Turkiye", "Remote"];
    var listed := (n: nat) => if n < 3 then ["All"] else loaded;
    var location := "istanbul, turkiye";
    assert ArrowClicks(listed) == 3 by {
      ArrowClicksUnique(listed, 3);
    }
    assert !EqualsIgnoreCase(loaded[0], location);
    assert EqualsIgnoreCase(loaded[1], location);
    assert FirstMatchFrom(loaded, location, 1) == Some(1);
    assert FirstMatch(loaded, location) == Some(1);
    assert loaded[1] != location by {
      assert loaded[1][0] != location[0];
    }
    r, selected := FilterWithMirroredTitle(listed, location);
  }

  // ---------------------------------------------------------------------------------------
  // Department and location scans

  /** One job item: the text of its department and of its location element, None when the
      item has no such element (findElement raises). */
  datatype JobItem = JobItem(department: Option<string>, location: Option<string>)

  /** The listing the scans see: whether a job item was there before the refresh (the
      staleness wait needs one), whether it went stale within the wait, whether an item is
      visible within the wait, and the items findElements returns after that. */
  datatype Listing = Listing(itemPresent: bool, refreshed: bool, visible: bool, items: seq<JobItem>)

  /** One item passes when its text, trimmed, equals the expected value exactly. */
  predicate ItemMatches(text: Option<string>, expected: string) {
    text.Some? && Trim(text.value) == expected
  }

  /** Where a scan stopped: every item matched, or the first item that did not, either with
      a different text or without the element at all. */
  datatype Scan = AllMatch | Mismatch(index: nat) | FieldMissing(index: nat)

  /** The early-exit loop shared by both scans. */
  method ScanItems(texts: seq<Option<string>>, expected: string) returns (s: Scan)
    ensures s.AllMatch? <==> forall k :: 0 <= k < |texts| ==> ItemMatches(texts[k], expected)
    ensures s.Mismatch? || s.FieldMissing? ==>
      && s.index < |texts|
      && !ItemMatches(texts[s.index], expected)
      && (forall k :: 0 <= k < s.index ==> ItemMatches(texts[k], expected))
      && (s.FieldMissing? <==> texts[s.index].None?)
  {
    var i := 0;
    while i < |texts|
      invariant 0 <= i <= |texts|
      invariant forall k :: 0 <= k < i ==> ItemMatches(texts[k], expected)
    {
      if texts[i].None? {
        return FieldMissing(i);
      }
      if Trim(texts[i].value) != expected {
        return Mismatch(i);
      }
      i := i + 1;
    }
    return AllMatch;
  }

  function Departments(items: seq<JobItem>): (s: seq<Option<string>>)
    ensures |s| == |items| && forall k :: 0 <= k < |items| ==> s[k] == items[k].department
  {
    seq(|items|, k requires 0 <= k < |items| => items[k].department)
  }

  function Locations(items: seq<JobItem>): (s: seq<Option<string>>)
    ensures |s| == |items| && forall k :: 0 <= k < |items| ==> s[k] == items[k].location
  {
    seq(|items|, k requires 0 <= k < |items| => items[k].location)
  }

  /** The verdict of a scan behind its waits, as both methods report it. */
  method ReportScan(texts: seq<Option<string>>, expected: string) returns (r: Run<bool>)
    ensures r.outcome.Returned?
    ensures r.outcome.value <==> forall k :: 0 <= k < |texts| ==> ItemMatches(texts[k], expected)
    ensures r.logs == [Entry(Manager, if r.outcome.value then Pass else Fail)]
  {
    var s := ScanItems(texts, expected);
    if s.FieldMissing? {
      r := Guarded(Run(Threw(NoSuchElementException), []), false, Manager);
    } else {
      r := Run(Returned(s.AllMatch?), [Entry(Manager, if s.AllMatch? then Pass else Fail)]);
    }
  }

  /** verifyJobsDepartments: after the listing refreshes and shows an item, true exactly
      when every item's trimmed department is the given one; an empty listing passes. */
  method VerifyJobsDepartments(l: Listing, department: string) returns (r: Run<bool>)
    ensures r.outcome.Returned?
    ensures r.outcome.value <==>
      l.itemPresent && l.refreshed && l.visible &&
      forall k :: 0 <= k < |l.items| ==> ItemMatches(l.items[k].department, department)
    ensures r.logs == [Entry(Manager, if r.outcome.value then Pass else Fail)]
  {
    if !l.itemPresent {
      r := Guarded(Run(Threw(NoSuchElementException), []), false, Manager);
    } else if !l.refreshed || !l.visible {
      r := Guarded(Run(Threw(TimeoutException), []), false, Manager);
    } else {
      r := ReportScan(Departments(l.items), department);
    }
  }

  /** verifyJobsLocations: the same scan over locations, behind the visibility wait only. */
  method VerifyJobsLocations(l: Listing, location: string) returns (r: Run<bool>)
    ensures r.outcome.Returned?
    ensures r.outcome.value <==>
      l.visible && forall k :: 0 <= k < |l.items| ==> ItemMatches(l.items[k].location, location)
    ensures r.logs == [Entry(Manager, if r.outcome.value then Pass else Fail)]
  {
    if !l.visible {
      r := Guarded(Run(Threw(TimeoutException), []), false, Manager);
    } else {
      r := ReportScan(Locations(l.items), location);
    }
  }

  /** Blanks around an item's text do not matter; the case of its letters does. */
  lemma ItemMatchesPadded(lead: string, text: string, trail: string, expected: string)
    requires forall k :: 0 <= k < |lead| ==> IsTrimmable(lead[k])
    requires forall k :: 0 <= k < |trail| ==> IsTrimmable(trail[k])
    requires IsTrimmed(text)
    ensures ItemMatches(Some(lead + text + trail), expected) <==> text == expected
  {
    TrimOfPadded(lead, text, trail);
  }

  // ---------------------------------------------------------------------------------------
  // Following "View Role"

  /** What hoverAndClickViewRole sees: whether there is a first job item, whether it holds a
      "View Role" button and the button becomes clickable, the button's href, the handle of
      the tab the click opens (None when the link opens in place), whether the URL becomes
      the href within the wait, and the URL read after it. */
  datatype ViewRole = ViewRole(
    hasItem: bool,
    buttonFound: bool,
    buttonReady: bool,
    href: string,
    newTab: Option<string>,
    urlReached: bool,
    landedUrl: string)

  /** The window handles after the click. */
  function TabsAfterClick(windows: seq<string>, newTab: Option<string>): seq<string> {
    if newTab.Some? then windows + [newTab.value] else windows
  }

  /** The window focus after the optional switch to the second handle. */
  function FocusAfterSwitch(tabs: seq<string>, current: string): string {
    if |tabs| > 1 then tabs[1] else current
  }

  /** hoverAndClickViewRole. After the click, focus moves to the second handle in the list
      whenever there are at least two windows, whoever opened them. It succeeds exactly when
      at least two windows exist after the click and the URL reaches the href and equals it;
      the window focused then (the second handle) is closed and focus goes to the first.
      A URL that never arrives or differs returns with the windows left as they are and
      focus on the second handle: started from a single window, that is the new tab, left
      open and focused. Started from a single window with the link opening in place, the
      success path would close that only window and the switch back fails, so the method
      reports false. */
  method HoverAndClickViewRole(d: Driver, v: ViewRole) returns (r: Run<bool>)
    requires d.Valid() && d.current in d.windows
    requires v.newTab.Some? ==> v.newTab.value !in d.windows
    modifies d
    ensures d.Valid()
    ensures r.outcome.Returned?
    ensures Entry(Manager, Fail) in r.logs <==> !r.outcome.value
    ensures
      var tabs := TabsAfterClick(old(d.windows), v.newTab);
      r.outcome.value <==>
        v.hasItem && v.buttonFound && v.buttonReady && v.urlReached && v.landedUrl == v.href && |tabs| > 1
    // Nothing happens to the windows before the click.
    ensures !(v.hasItem && v.buttonFound && v.buttonReady) ==>
      d.windows == old(d.windows) && d.current == old(d.current)
    // The leak: a URL failure returns before closing or refocusing.
    ensures v.hasItem && v.buttonFound && v.buttonReady && !(v.urlReached && v.landedUrl == v.href) ==>
      var tabs := TabsAfterClick(old(d.windows), v.newTab);
      d.windows == tabs && d.current == FocusAfterSwitch(tabs, old(d.current))
    // Success: the second window is closed and the first one focused.
    ensures r.outcome.value ==>
      var tabs := TabsAfterClick(old(d.windows), v.newTab);
      d.windows == Without(tabs, tabs[1]) && d.current == tabs[0]
    // From one window with the link opening in place, the follow closes that only window
    // and the switch back fails.
    ensures v.hasItem && v.buttonFound && v.buttonReady && v.urlReached && v.landedUrl == v.href &&
            |TabsAfterClick(old(d.windows), v.newTab)| == 1 ==>
      d.windows == [] && d.current == old(d.current)
    // From one window, a successful follow leaves the browser as it found it.
    ensures |old(d.windows)| == 1 && r.outcome.value ==>
      d.windows == old(d.windows) && d.current == old(d.current)
  {
    if !v.hasItem {
      r := Guarded(Run(Threw(IndexOutOfBoundsException), []), false, Manager);
      return;
    }
    var logs := [Entry(Manager, Info)];
    if !v.buttonFound {
      r := Guarded(Run(Threw(NoSuchElementException), logs), false, Manager);
      return;
    }
    if !v.buttonReady {
      r := Guarded(Run(Threw(TimeoutException), logs), false, Manager);
      return;
    }
    logs := logs + [Entry(Manager, Info)];
    if v.newTab.Some? {
      d.Open(v.newTab.value);
    }
    logs := logs + [Entry(Manager, Pass)];
    var tabs := d.windows;
    assert tabs == TabsAfterClick(old(d.windows), v.newTab);
    if |tabs| > 1 {
      var switched := d.SwitchTo(tabs[1]);
      logs := logs + [Entry(Manager, Info)];
    }
    if !v.urlReached {
      r := Guarded(Run(Threw(TimeoutException), logs), false, Manager);
      return;
    }
    logs := logs + [Entry(Manager, Info)];
    if v.landedUrl != v.href {
      r := Run(Returned(false), logs + [Entry(Manager, Fail)]);
      return;
    }
    logs := logs + [Entry(Manager, Pass)];
    var closed := d.Close();
    // The focus is on an open window here: the second handle, or the only one.
    assert closed;
    var back := d.SwitchTo(tabs[0]);
    if !back {
      r := Guarded(Run(Threw(NoSuchWindowException), logs), false, Manager);
      return;
    }
    if |old(d.windows)| == 1 {
      WithoutAppended(old(d.windows), v.newTab.value);
    }
    r := Run(Returned(true), logs + [Entry(Manager, Info)]);
  }
}
