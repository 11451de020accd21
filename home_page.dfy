/** The home page: its meta tags, the logo, the cookie banner and the announcement bar. */
module HomePage {
  import opened JavaStrings
  import opened ExtentReportManager
  import opened BasePage

  const HomeExpected := Expected(
    "#1 Leader in Individualized, Cross-Channel CX — Insider",
    "Insider's CDP connects customer data, predicts behavior with AI, and individualizes experiences across channels",
    "https://useinsider.com/",
    "Insider")

  const LogoSrc := "https://useinsider.com/assets/img/logo-old.png"
  const LogoAlt := "insider_logo"

  /** verifyHomePageMetaTags: the base check with the four home-page literals. */
  function VerifyHomePageMetaTags(tags: OgTags): (r: Run<bool>)
    ensures r.outcome.Returned?
    ensures r.outcome.value <==> Matches(tags, HomeExpected)
  {
    VerifyMetaTags(tags, HomeExpected)
  }

  /** The observed home page of the suite's scenario passes, whatever text surrounds the
      expected description; a different title fails it. */
  lemma HomeMetaTagsScenario(before: string, after: string, otherTitle: string)
    requires otherTitle != HomeExpected.title
    ensures
      var observed := OgTags(Present(Some(HomeExpected.title)),
                             Present(Some(before + HomeExpected.description + after)),
                             Present(Some(HomeExpected.url)), Present(Some(HomeExpected.siteName)));
      && VerifyHomePageMetaTags(observed).outcome.value
      && !VerifyHomePageMetaTags(observed.(title := Present(Some(otherTitle)))).outcome.value
  {
    ContainsSelf(HomeExpected.description);
    ContainsExtended(HomeExpected.description, HomeExpected.description, before, after);
  }

  /** The logo element: NoLogo when findElement finds none; otherwise its src and alt
      attributes, None when absent (Java null). */
  datatype Logo = NoLogo | Logo(src: Option<string>, alt: Option<string>)

  /** isLogoCorrect: true exactly when src and alt equal the expected literals. Exceptions
      (no element; a null attribute that the `&&` chain reaches) are caught as false with a
      failure line; a null alt is not reached when src already differs. */
  function IsLogoCorrect(logo: Logo): (r: Run<bool>)
    ensures r.outcome.Returned?
    ensures r.outcome.value <==> logo == Logo(Some(LogoSrc), Some(LogoAlt))
    ensures Entry(Manager, Fail) in r.logs <==>
      logo.NoLogo? || logo.src.None? || (logo.src == Some(LogoSrc) && logo.alt.None?)
  {
    var inner :=
      if logo.NoLogo? || logo.src.None? then Run(Threw(if logo.NoLogo? then NoSuchElementException else NullPointerException), [])
      else if logo.src.value != LogoSrc then Run(Returned(false), [Entry(Manager, Info)])
      else if logo.alt.None? then Run(Threw(NullPointerException), [])
      else Run(Returned(logo.alt.value == LogoAlt), [Entry(Manager, Info)]);
    Guarded(inner, false, Manager)
  }

  /** isAnnounceInfoPresent: the visibility wait's verdict; a timeout is caught and
      reported as false with a failure line, never raised. */
  function IsAnnounceInfoPresent(becomesVisible: bool): (r: Run<bool>)
    ensures r.outcome.Returned?
    ensures r.outcome.value <==> becomesVisible
    ensures Entry(Manager, Fail) in r.logs <==> !becomesVisible
  {
    var inner := if becomesVisible then Run(Returned(true), [Entry(Manager, Info)])
                 else Run(Threw(TimeoutException), []);
    Guarded(inner, false, Manager)
  }

  /** handleCookieBanner: clicks "accept all" only when the banner title is on the page.
      Never raises and never logs a failure: a failed click is reported as an info line.
      The value says whether the cookies were accepted. */
  function HandleCookieBanner(bannerShown: bool, acceptClickable: bool): (r: Run<bool>)
    ensures r.outcome.Returned?
    ensures r.outcome.value <==> bannerShown && acceptClickable
    ensures forall e :: e in r.logs ==> e.level != Fail
    ensures !bannerShown ==> r.logs == []
  {
    if !bannerShown then Run(Returned(false), [])
    else if acceptClickable then Run(Returned(true), [Entry(Manager, Pass)])
    else Run(Returned(false), [Entry(Manager, Info)])
  }
}
