/** The careers page: the URL check, its meta tags, the "Find your calling" teams block with
    its three collapsed job items, and the "See all teams" expansion. */
module CareersPage {
  import opened JavaStrings
  import opened ExtentReportManager
  import opened BasePage

  const CareersUrl := "https://useinsider.com/careers/"

  const CareersExpected := Expected(
    "Ready to disrupt? | Insider Careers",
    "Learn about Insider story",
    "https://useinsider.com/careers/",
    "Insider")

  /** The number of job items the collapsed teams block shows. */
  const CollapsedItems: nat := 3

  /** isCareersPageOpened: the current URL contains the careers URL anywhere; one pass or
      one failure line records the verdict. */
  function IsCareersPageOpened(currentUrl: string): (r: Run<bool>)
    ensures r.outcome.Returned?
    ensures r.outcome.value <==> exists i :: OccursAt(currentUrl, CareersUrl, i)
    ensures r.logs == [Entry(Manager, if r.outcome.value then Pass else Fail)]
  {
    ContainsIff(currentUrl, CareersUrl);
    var result := Contains(currentUrl, CareersUrl);
    Run(Returned(result), [Entry(Manager, if result then Pass else Fail)])
  }

  /** Containment, not equality: every page below the careers URL passes the check, while
      the home page does not. */
  lemma CareersCheckAcceptsSubpages(suffix: string)
    ensures IsCareersPageOpened(CareersUrl + suffix).outcome.value
    ensures !IsCareersPageOpened("https://useinsider.com/").outcome.value
  {
  }

  /** verifyCareersPageMetaTags: the four-field rule with the careers literals; its last
      line is a pass exactly when the tags match, and a failure otherwise. */
  function VerifyCareersPageMetaTags(tags: OgTags): (r: Run<bool>)
    ensures r.outcome.Returned?
    ensures r.outcome.value <==> Matches(tags, CareersExpected)
    ensures |r.logs| > 0 && r.logs[|r.logs| - 1] == Entry(Manager, if r.outcome.value then Pass else Fail)
  {
    VerifyOgTags(tags, CareersExpected, Pass, Fail)
  }

  /** What the teams block shows: whether the title and the button are found, whether the
      title becomes visible within the wait, how many job items are listed, and whether the
      button is displayed. */
  datatype TeamsBlock = TeamsBlock(titleFound: bool, titleShown: bool, itemCount: nat,
                                   buttonFound: bool, buttonShown: bool)

  /** isTeamsBlockPresent: true exactly when the title is visible, exactly three items are
      listed and the button is displayed. A missing element, a timeout, or an empty item list
      (reading the first item raises) is caught and reported as one failure line. */
  function IsTeamsBlockPresent(b: TeamsBlock): (r: Run<bool>)
    ensures r.outcome.Returned?
    ensures r.outcome.value <==>
      b.titleFound && b.titleShown && b.itemCount == CollapsedItems && b.buttonFound && b.buttonShown
    ensures Entry(Manager, Fail) in r.logs <==>
      !b.titleFound || !b.buttonFound || !b.titleShown || b.itemCount == 0
  {
    var inner :=
      if !b.titleFound || !b.buttonFound then Run(Threw(NoSuchElementException), [])
      else if !b.titleShown then Run(Threw(TimeoutException), [])
      else if b.itemCount == 0 then Run(Threw(IndexOutOfBoundsException), [Entry(Manager, Info)])
      else Run(Returned(b.itemCount == CollapsedItems && b.buttonShown),
               [Entry(Manager, Info), Entry(Manager, Info), Entry(Manager, Info), Entry(Manager, Info)]);
    Guarded(inner, false, Manager)
  }

  /** The live job grid of the careers page. `itemCount` is what findElements returns now;
      `expandedCount` is how many items the page renders once "See all teams" is clicked
      (a property of the site's content); `listReadable` is false when findElements itself
      fails (a broken session), both in the first count and in the final count wait. */
  class JobGrid {
    var itemCount: nat
    const expandedCount: nat
    const buttonFound: bool
    const buttonClickable: bool
    const listReadable: bool

    constructor (itemCount: nat, expandedCount: nat, buttonFound: bool, buttonClickable: bool,
                 listReadable: bool)
      ensures this.itemCount == itemCount && this.expandedCount == expandedCount
      ensures this.buttonFound == buttonFound && this.buttonClickable == buttonClickable
      ensures this.listReadable == listReadable
    {
      this.itemCount := itemCount;
      this.expandedCount := expandedCount;
      this.buttonFound := buttonFound;
      this.buttonClickable := buttonClickable;
      this.listReadable := listReadable;
    }
  }

  /** getJobItemCount: the number of items listed, or 0 when listing them fails. It scrolls
      to the last item, and only when there is one, so it never indexes an empty list. */
  method GetJobItemCount(g: JobGrid) returns (r: Run<nat>, scrolledTo: Option<nat>)
    ensures r.outcome == Returned(if g.listReadable then g.itemCount else 0)
    ensures scrolledTo.Some? <==> g.listReadable && g.itemCount > 0
    ensures scrolledTo.Some? ==> scrolledTo.value + 1 == g.itemCount
    ensures r.logs == [Entry(Manager, if g.listReadable then Info else Fail)]
  {
    if !g.listReadable {
      r := Guarded(Run(Threw(StaleElementReferenceException), []), 0, Manager);
      scrolledTo := None;
      return;
    }
    var count := g.itemCount;
    scrolledTo := None;
    if count > 0 {
      scrolledTo := Some(count - 1);
    }
    r := Run(Returned(count), [Entry(Manager, Info)]);
  }

  /** clickSeeAllTeams: counts the items, clicks the button, and waits until more than three
      items are listed. It never raises; the grid grows when the click happens, and the
      last line is a pass exactly when the click happened and the grid can be listed and then
      lists more than three items (any number above three, not a particular one). */
  method ClickSeeAllTeams(g: JobGrid) returns (r: Run<()>)
    modifies g
    ensures r.outcome == Returned(())
    ensures g.itemCount == if g.buttonFound && g.buttonClickable then g.expandedCount else old(g.itemCount)
    ensures |r.logs| > 0
    ensures r.logs[|r.logs| - 1] == Entry(Manager, Pass) <==>
      g.buttonFound && g.buttonClickable && g.listReadable && g.expandedCount > CollapsedItems
  {
    if !g.buttonFound {
      r := Guarded(Run(Threw(NoSuchElementException), []), (), Manager);
      return;
    }
    var counted, _ := GetJobItemCount(g);
    var logs := counted.logs + [Entry(Manager, Info)];
    if !g.buttonClickable {
      r := Guarded(Run(Threw(TimeoutException), logs), (), Manager);
      return;
    }
    g.itemCount := g.expandedCount;
    logs := logs + [Entry(Manager, Pass)];
    // The count wait lists the items again; a list that cannot be read fails it too.
    if !g.listReadable || g.itemCount <= CollapsedItems {
      r := Guarded(Run(Threw(TimeoutException), logs), (), Manager);
      return;
    }
    r := Run(Returned(()), logs + [Entry(Manager, Pass)]);
  }

  /** The suite's teams scenario: three items before the click; after it, the expansion is
      reported as passed for any number of items above three, so the suite's own check for
      exactly fifteen is what pins the count. */
  method TeamsExpansion(expanded: nat) returns (before: nat, after: nat, expansionPassed: bool)
    ensures before == CollapsedItems && after == expanded
    ensures expansionPassed <==> expanded > CollapsedItems
  {
    var g := new JobGrid(CollapsedItems, expanded, true, true, true);
    var counted, _ := GetJobItemCount(g);
    before := counted.outcome.value;
    var clicked := ClickSeeAllTeams(g);
    expansionPassed := clicked.logs[|clicked.logs| - 1] == Entry(Manager, Pass);
    var recounted, _ := GetJobItemCount(g);
    after := recounted.outcome.value;
  }
}
