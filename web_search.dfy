/**
  The portfolio links of the web-search tools (src/agent/tools/web_search.rs):
  four sections of one site, each printed as a URL on the production or the
  local host, and the strict parser that turns such a URL back into its section.
  Whether the process runs in production mode is read from the environment in
  the source; here it is a parameter.
 */
module WebSearch {
  import opened Wrappers

  datatype ProfileUrl = About | Work | Projects | Contact

  const PRODUCTION_HOST := "https://about.calum.run"
  const DEVELOPMENT_HOST := "http://localhost:3000"

  /** The accepted URLs, in the order the parser's error message lists them. */
  const EXPECTED_URLS: seq<string> := [
    "https://about.calum.run/?tab=About",
    "https://about.calum.run/?tab=Work",
    "https://about.calum.run/?tab=Projects",
    "https://about.calum.run/?tab=Contact",
    "http://localhost:3000/?tab=About",
    "http://localhost:3000/?tab=Work",
    "http://localhost:3000/?tab=Projects",
    "http://localhost:3000/?tab=Contact"
  ]

  /** A deserialisation error: the string was none of the expected URLs. */
  datatype VisitError = UnknownVariant(value: string, expected: seq<string>)

  /** `get_portfolio_host`: the public site in production, the local one otherwise. */
  function PortfolioHost(productionMode: bool): (host: string)
    ensures productionMode ==> host == PRODUCTION_HOST
    ensures !productionMode ==> host == DEVELOPMENT_HOST
  {
    if productionMode then PRODUCTION_HOST else DEVELOPMENT_HOST
  }

  function TabName(v: ProfileUrl): string {
    match v
    case About => "About"
    case Work => "Work"
    case Projects => "Projects"
    case Contact => "Contact"
  }

  /** Where a section stands in the parser's list of URLs, counted on one host. */
  function SectionIndex(v: ProfileUrl): (k: nat)
    ensures k < 4
  {
    match v
    case About => 0
    case Work => 1
    case Projects => 2
    case Contact => 3
  }

  /**
    `as_url`: the host, then "/?tab=" and the section's name. It prints exactly
    the URL the parser lists for that section: among the first four on the
    production host, among the last four on the local one.
   */
  function AsUrl(v: ProfileUrl, productionMode: bool): (u: string)
    ensures u == EXPECTED_URLS[SectionIndex(v) + if productionMode then 0 else 4]
  {
    UrlListed(v, productionMode);
    PortfolioHost(productionMode) + "/?tab=" + TabName(v)
  }

  lemma UrlListed(v: ProfileUrl, productionMode: bool)
    ensures PortfolioHost(productionMode) + "/?tab=" + TabName(v)
            == EXPECTED_URLS[SectionIndex(v) + if productionMode then 0 else 4]
  {
    if productionMode {
      ProductionUrlListed(v);
    } else {
      DevelopmentUrlListed(v);
    }
  }

  lemma ProductionUrlListed(v: ProfileUrl)
    ensures PortfolioHost(true) + "/?tab=" + TabName(v) == EXPECTED_URLS[SectionIndex(v)]
  {
    match v
    case About => assert PRODUCTION_HOST + "/?tab=" + "About" == "https://about.calum.run/?tab=About";
    case Work => assert PRODUCTION_HOST + "/?tab=" + "Work" == "https://about.calum.run/?tab=Work";
    case Projects => assert PRODUCTION_HOST + "/?tab=" + "Projects" == "https://about.calum.run/?tab=Projects";
    case Contact => assert PRODUCTION_HOST + "/?tab=" + "Contact" == "https://about.calum.run/?tab=Contact";
  }

  lemma DevelopmentUrlListed(v: ProfileUrl)
    ensures PortfolioHost(false) + "/?tab=" + TabName(v) == EXPECTED_URLS[SectionIndex(v) + 4]
  {
    match v
    case About => assert DEVELOPMENT_HOST + "/?tab=" + "About" == "http://localhost:3000/?tab=About";
    case Work => assert DEVELOPMENT_HOST + "/?tab=" + "Work" == "http://localhost:3000/?tab=Work";
    case Projects => assert DEVELOPMENT_HOST + "/?tab=" + "Projects" == "http://localhost:3000/?tab=Projects";
    case Contact => assert DEVELOPMENT_HOST + "/?tab=" + "Contact" == "http://localhost:3000/?tab=Contact";
  }

  /**
    `visit_str`: each of the eight URLs, matched exactly and case-sensitively,
    names its section; anything else is an unknown variant.
   */
  function VisitStr(value: string): (r: Result<ProfileUrl, VisitError>)
    ensures r.Success? <==> value in EXPECTED_URLS
    ensures r.Failure? ==> r.error == UnknownVariant(value, EXPECTED_URLS)
  {
    if value == "https://about.calum.run/?tab=About" || value == "http://localhost:3000/?tab=About" then
      Success(About)
    else if value == "https://about.calum.run/?tab=Work" || value == "http://localhost:3000/?tab=Work" then
      Success(Work)
    else if value == "https://about.calum.run/?tab=Projects" || value == "http://localhost:3000/?tab=Projects" then
      Success(Projects)
    else if value == "https://about.calum.run/?tab=Contact" || value == "http://localhost:3000/?tab=Contact" then
      Success(Contact)
    else
      Failure(UnknownVariant(value, EXPECTED_URLS))
  }

  /** The sections in the order `ProfileUrlList::call` and the parser's error message list them. */
  const SECTIONS: seq<ProfileUrl> := [About, Work, Projects, Contact]

  /** The production URLs `as_url` prints are the first four accepted ones. */
  lemma ProductionUrls()
    ensures EXPECTED_URLS[..4] == [AsUrl(About, true), AsUrl(Work, true), AsUrl(Projects, true), AsUrl(Contact, true)]
  {
  }

  /** The development URLs `as_url` prints are the last four accepted ones. */
  lemma DevelopmentUrls()
    ensures EXPECTED_URLS[4..] == [AsUrl(About, false), AsUrl(Work, false), AsUrl(Projects, false), AsUrl(Contact, false)]
  {
  }

  /** The eight URLs `as_url` prints, written out; they are the accepted ones, in the same order. */
  lemma UrlTexts()
    ensures EXPECTED_URLS == [AsUrl(About, true), AsUrl(Work, true), AsUrl(Projects, true), AsUrl(Contact, true),
                              AsUrl(About, false), AsUrl(Work, false), AsUrl(Projects, false), AsUrl(Contact, false)]
  {
    ProductionUrls();
    DevelopmentUrls();
    Halves(EXPECTED_URLS, AsUrl(About, true), AsUrl(Work, true), AsUrl(Projects, true), AsUrl(Contact, true),
           AsUrl(About, false), AsUrl(Work, false), AsUrl(Projects, false), AsUrl(Contact, false));
  }

  lemma Halves(s: seq<string>, a: string, b: string, c: string, d: string, e: string, f: string, g: string, h: string)
    requires |s| == 8 && s[..4] == [a, b, c, d] && s[4..] == [e, f, g, h]
    ensures s == [a, b, c, d, e, f, g, h]
  {
    assert s == s[..4] + s[4..];
  }

  /** Accepted URL i is the section at i, counted from 0 again on the development host. */
  lemma UrlAt(i: nat)
    requires i < |EXPECTED_URLS|
    ensures EXPECTED_URLS[i] == AsUrl(SECTIONS[if i < 4 then i else i - 4], i < 4)
  {
    UrlTexts();
  }

  /** The two hosts already differ in their fifth character. */
  lemma HostsDiffer(v: ProfileUrl, w: ProfileUrl)
    ensures AsUrl(v, true) != AsUrl(w, false)
  {
    assert AsUrl(v, true)[4] == PRODUCTION_HOST[4] == 's';
    assert AsUrl(w, false)[4] == DEVELOPMENT_HOST[4] == ':';
  }

  /** Every section's URL, on either host, parses back to that section. */
  lemma VisitAsUrl(v: ProfileUrl, productionMode: bool)
    ensures VisitStr(AsUrl(v, productionMode)) == Success(v)
  {
    UrlTexts();
  }

  /** Every accepted string is the URL of the section it parses to, on one of the two hosts. */
  lemma AcceptedAreUrls(value: string)
    requires VisitStr(value).Success?
    ensures exists productionMode :: AsUrl(VisitStr(value).value, productionMode) == value
  {
    UrlTexts();
    var v := VisitStr(value).value;
    assert value == AsUrl(v, true) || value == AsUrl(v, false);
  }

  /** The parser accepts exactly eight distinct strings. */
  lemma EightAccepted()
    ensures |EXPECTED_URLS| == 8
    ensures forall i, j :: 0 <= i < j < |EXPECTED_URLS| ==> EXPECTED_URLS[i] != EXPECTED_URLS[j]
  {
    forall i, j | 0 <= i < j < |EXPECTED_URLS| ensures EXPECTED_URLS[i] != EXPECTED_URLS[j] {
      var a, b := if i < 4 then i else i - 4, if j < 4 then j else j - 4;
      UrlAt(i);
      UrlAt(j);
      if i < 4 <= j {
        HostsDiffer(SECTIONS[a], SECTIONS[b]);
      } else {
        assert a != b && SECTIONS[a] != SECTIONS[b];
        VisitAsUrl(SECTIONS[a], i < 4);
        VisitAsUrl(SECTIONS[b], j < 4);
      }
    }
  }

  /** Two sections never share a URL, whichever hosts they are printed on. */
  lemma AsUrlInjective(v: ProfileUrl, p: bool, w: ProfileUrl, q: bool)
    requires AsUrl(v, p) == AsUrl(w, q)
    ensures v == w
  {
    VisitAsUrl(v, p);
    VisitAsUrl(w, q);
  }

  /** `ProfileUrlList::call`: the four section URLs, in the order About, Work, Projects, Contact. */
  function ProfileUrlList(productionMode: bool): (urls: seq<string>)
    ensures |urls| == 4
    ensures forall i :: 0 <= i < 4 ==> VisitStr(urls[i]) == Success([About, Work, Projects, Contact][i])
    ensures urls == if productionMode then EXPECTED_URLS[..4] else EXPECTED_URLS[4..]
  {
    SectionUrlsParse(productionMode);
    SectionUrlsListed(productionMode);
    SectionUrls(productionMode)
  }

  /** The URLs of the four sections, in order, on one host. */
  function SectionUrls(productionMode: bool): seq<string> {
    [AsUrl(About, productionMode), AsUrl(Work, productionMode), AsUrl(Projects, productionMode),
     AsUrl(Contact, productionMode)]
  }

  lemma SectionUrlsParse(productionMode: bool)
    ensures forall i :: 0 <= i < 4 ==> VisitStr(SectionUrls(productionMode)[i]) == Success([About, Work, Projects, Contact][i])
  {
    VisitAsUrl(About, productionMode);
    VisitAsUrl(Work, productionMode);
    VisitAsUrl(Projects, productionMode);
    VisitAsUrl(Contact, productionMode);
  }

  lemma SectionUrlsListed(productionMode: bool)
    ensures SectionUrls(productionMode) == if productionMode then EXPECTED_URLS[..4] else EXPECTED_URLS[4..]
  {
    if productionMode {
      ProductionUrls();
    } else {
      DevelopmentUrls();
    }
  }
}
