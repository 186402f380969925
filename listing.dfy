/** The listing side of the Indeed crawler: the search URL, the choice of the
    card container, and the reading of each job card into a listing record
    (`get_job_listings` over plain HTTP and `get_job_listings_selenium` over a
    rendered page).

    A parsed page is described by what the CSS queries of the crawler answer
    on it: `matches[sel]` is `soup.select(sel)` (a selector absent from the map
    matches nothing), and each card records `card.select_one(sel)` for the
    selectors that find an element. A comma-separated selector list is one
    query, answered by the first element in document order that matches any of
    its parts, so it is one key. */
module Listing {
  import opened Wrappers
  import opened Text
  import opened PostedDate
  import opened Sequences

  /** An element found by a query: its text content and its attributes. */
  datatype Element = Element(text: string, attrs: map<string, string>)

  /** A job card, or one whose reading raises; such a card is reported and
      skipped. */
  datatype Card = Card(first: map<string, Element>) | Malformed

  /** A parsed search-result page, with the clock reading taken while its
      cards were read. */
  datatype ListingPage = ListingPage(matches: map<string, seq<Card>>, clock: string)

  /** What the detail page adds to a listing. */
  datatype JobDetails = JobDetails(description: string, requirements: seq<string>)

  /** One scraped job. `details` is absent until the detail page has been
      merged into the record. */
  datatype JobListing = JobListing(
    title: string,
    company: string,
    location: string,
    url: string,
    snippet: string,
    postedDate: string,
    daysAgo: Option<nat>,
    source: string,
    keywords: seq<string>,
    searchLocation: string,
    scrapedDate: string,
    jobId: Option<string>,
    details: Option<JobDetails>)

  /** The two readers: the plain-HTTP one and the browser-rendered one, which
      knows more selectors. */
  datatype Layout = Plain | Rendered

  const NotAvailable: string := "N/A"
  const SourceName: string := "Indeed"
  const SearchBase: string := "https://www.indeed.com/jobs"
  const ViewJobPrefix: string := "https://www.indeed.com/viewjob?jk="

  /** Container selectors of the rendered reader, in the order they are tried;
      the plain reader only knows the first. */
  const ContainerSelectors: seq<string> := [
    "div.job_seen_beacon",
    "div.tapItem",
    "div.jobsearch-ResultsList > div.cardOutline",
    "div[data-testid=\"job-card\"]"
  ]

  const PlainTitleSelector: string := "h2.jobTitle span[title]"
  const RenderedTitleSelector: string := "h2.jobTitle span[title], a.jcs-JobTitle span[title]"
  const RenderedTitleTextSelector: string := "h2.jobTitle, a.jcs-JobTitle"
  const PlainCompanySelector: string := "span.companyName"
  const RenderedCompanySelector: string := "span.companyName, div.company_location .companyName"
  const LocationSelector: string := "div.companyLocation"
  const LinkSelector: string := "h2.jobTitle a"
  const SnippetSelector: string := "div.job-snippet"
  const DateSelector: string := "span.date"

  /** `soup.select(sel)`. */
  function Matches(page: ListingPage, sel: string): seq<Card>
  {
    if sel in page.matches then page.matches[sel] else []
  }

  /** The stripped text of the element a query finds, or the sentinel. */
  function TextOr(first: map<string, Element>, sel: string): string
  {
    if sel in first then PyStrip(first[sel].text) else NotAvailable
  }

  /** An attribute of the element a query finds, or the sentinel. The title
      queries select on the attribute (`span[title]`), so an element they find
      carries it; an element without it is treated as not found. */
  function AttrOr(first: map<string, Element>, sel: string, attr: string): string
  {
    if sel in first && attr in first[sel].attrs then first[sel].attrs[attr] else NotAvailable
  }

  /** `data-jk` of the title link: None when there is no link or the link has
      no such attribute. */
  function JobIdOf(first: map<string, Element>): Option<string>
  {
    if LinkSelector in first && "data-jk" in first[LinkSelector].attrs
    then Some(first[LinkSelector].attrs["data-jk"])
    else None
  }

  /** A job id is usable when it is present and non-empty (Python truthiness). */
  predicate Truthy(id: Option<string>)
  {
    id.Some? && id.value != ""
  }

  /** The detail-page link built from the job id, or the sentinel. */
  function ViewUrl(id: Option<string>): string
  {
    if Truthy(id) then ViewJobPrefix + id.value else NotAvailable
  }

  /** A link is built exactly when the id is usable, and the id can be read
      back from the link. */
  lemma ViewUrlInverse(id: Option<string>)
    ensures ViewUrl(id) != NotAvailable <==> Truthy(id)
    ensures Truthy(id) ==> StartsWith(ViewUrl(id), ViewJobPrefix)
                           && ViewUrl(id)[|ViewJobPrefix|..] == id.value
  {
    if Truthy(id) {
      assert |ViewUrl(id)| > |NotAvailable|;
      assert ViewUrl(id)[..|ViewJobPrefix|] == ViewJobPrefix;
    }
  }

  function CompanySelector(layout: Layout): string
  {
    match layout
    case Plain => PlainCompanySelector
    case Rendered => RenderedCompanySelector
  }

  /** The title: the `title` attribute of the title span; the rendered reader
      falls back to the stripped text of the title heading or link when that
      gives the sentinel. */
  function TitleOf(layout: Layout, first: map<string, Element>): string
  {
    match layout
    case Plain => AttrOr(first, PlainTitleSelector, "title")
    case Rendered =>
      var t := AttrOr(first, RenderedTitleSelector, "title");
      if t == NotAvailable then TextOr(first, RenderedTitleTextSelector) else t
  }

  /** The record built from one readable card. */
  function ListingOf(layout: Layout, first: map<string, Element>, keyword: string,
                     searchLocation: string, clock: string): JobListing
  {
    var id := JobIdOf(first);
    var posted := TextOr(first, DateSelector);
    JobListing(
      title := TitleOf(layout, first),
      company := TextOr(first, CompanySelector(layout)),
      location := TextOr(first, LocationSelector),
      url := ViewUrl(id),
      snippet := TextOr(first, SnippetSelector),
      postedDate := posted,
      daysAgo := ParsePostedDate(posted),
      source := SourceName,
      keywords := [keyword],
      searchLocation := searchLocation,
      scrapedDate := clock,
      jobId := id,
      details := None)
  }

  /** Text with no whitespace at either end. */
  predicate Stripped(f: string)
  {
    f == [] || (!IsPySpace(f[0]) && !IsPySpace(f[|f| - 1]))
  }

  /** What every record read from a card satisfies: tagged with its query and
      source, link present exactly when the id is usable, day count derived
      from the date text, text fields stripped, no details yet. */
  predicate WellFormed(j: JobListing, keyword: string, searchLocation: string)
  {
    && j.source == SourceName
    && j.keywords == [keyword]
    && j.searchLocation == searchLocation
    && (Truthy(j.jobId) ==> j.url == ViewJobPrefix + j.jobId.value)
    && (!Truthy(j.jobId) <==> j.url == NotAvailable)
    && j.daysAgo == ParsePostedDate(j.postedDate)
    && (j.postedDate == NotAvailable ==> j.daysAgo == None)
    && Stripped(j.company) && Stripped(j.location) && Stripped(j.snippet) && Stripped(j.postedDate)
    && j.details.None?
  }

  lemma TextOrStripped(first: map<string, Element>, sel: string)
    ensures Stripped(TextOr(first, sel))
    ensures sel !in first ==> TextOr(first, sel) == NotAvailable
  {
  }

  lemma ListingWellFormed(layout: Layout, first: map<string, Element>, keyword: string,
                          searchLocation: string, clock: string)
    ensures WellFormed(ListingOf(layout, first, keyword, searchLocation, clock), keyword, searchLocation)
  {
    var j := ListingOf(layout, first, keyword, searchLocation, clock);
    ViewUrlInverse(j.jobId);
    TextOrStripped(first, CompanySelector(layout));
    TextOrStripped(first, LocationSelector);
    TextOrStripped(first, SnippetSelector);
    TextOrStripped(first, DateSelector);
    if j.postedDate == NotAvailable {
      SentinelIsUnknown(j.postedDate);
    }
  }

  /** A card without any of the queried elements still gives a record, made
      of sentinels. */
  lemma EmptyCardIsSentinels(layout: Layout, keyword: string, searchLocation: string, clock: string)
    ensures var j := ListingOf(layout, map[], keyword, searchLocation, clock);
            j.title == NotAvailable && j.company == NotAvailable && j.location == NotAvailable
            && j.url == NotAvailable && j.snippet == NotAvailable && j.postedDate == NotAvailable
            && j.daysAgo == None && j.jobId == None
  {
    SentinelIsUnknown(NotAvailable);
  }

  /** The rendered reader's title fallback: the attribute wins when present
      (and is not itself the sentinel), the heading text is used otherwise. */
  lemma RenderedTitleFallback(first: map<string, Element>)
    ensures var t := AttrOr(first, RenderedTitleSelector, "title");
            t != NotAvailable ==> TitleOf(Rendered, first) == t
    ensures AttrOr(first, RenderedTitleSelector, "title") == NotAvailable ==>
              TitleOf(Rendered, first) == TextOr(first, RenderedTitleTextSelector)
    ensures RenderedTitleSelector !in first && RenderedTitleTextSelector in first ==>
              TitleOf(Rendered, first) == PyStrip(first[RenderedTitleTextSelector].text)
  {
  }

  /** The records of a sequence of cards, in card order, skipping the cards
      whose reading raises. */
  function Listings(layout: Layout, cards: seq<Card>, keyword: string,
                    searchLocation: string, clock: string): seq<JobListing>
  {
    if cards == [] then []
    else
      Listings(layout, cards[..|cards| - 1], keyword, searchLocation, clock)
      + match cards[|cards| - 1]
        case Malformed => []
        case Card(first) => [ListingOf(layout, first, keyword, searchLocation, clock)]
  }

  predicate Readable(c: Card) { c.Card? }

  /** One record per readable card. */
  lemma {:induction false} ListingsCount(layout: Layout, cards: seq<Card>, keyword: string,
                                         searchLocation: string, clock: string)
    ensures |Listings(layout, cards, keyword, searchLocation, clock)| == Count(cards, Readable)
  {
    if cards != [] {
      ListingsCount(layout, cards[..|cards| - 1], keyword, searchLocation, clock);
    }
  }

  lemma {:induction false} ListingsWellFormed(layout: Layout, cards: seq<Card>, keyword: string,
                                              searchLocation: string, clock: string)
    ensures forall j | j in Listings(layout, cards, keyword, searchLocation, clock) ::
              WellFormed(j, keyword, searchLocation)
  {
    if cards != [] {
      ListingsWellFormed(layout, cards[..|cards| - 1], keyword, searchLocation, clock);
      if cards[|cards| - 1].Card? {
        ListingWellFormed(layout, cards[|cards| - 1].first, keyword, searchLocation, clock);
      }
    }
  }

  lemma {:induction false} ListingsAppend(layout: Layout, a: seq<Card>, b: seq<Card>, keyword: string,
                                          searchLocation: string, clock: string)
    ensures Listings(layout, a + b, keyword, searchLocation, clock)
            == Listings(layout, a, keyword, searchLocation, clock)
               + Listings(layout, b, keyword, searchLocation, clock)
    decreases |b|
  {
    if b == [] {
      assert a + b == a;
    } else {
      assert (a + b)[..|a + b| - 1] == a + b[..|b| - 1];
      ListingsAppend(layout, a, b[..|b| - 1], keyword, searchLocation, clock);
    }
  }

  /** A card that raises costs only itself: the cards around it are read as
      if it were not there. */
  lemma MalformedCardSkipped(layout: Layout, a: seq<Card>, b: seq<Card>, keyword: string,
                             searchLocation: string, clock: string)
    ensures Listings(layout, a + [Malformed] + b, keyword, searchLocation, clock)
            == Listings(layout, a + b, keyword, searchLocation, clock)
  {
    ListingsAppend(layout, a + [Malformed], b, keyword, searchLocation, clock);
    ListingsAppend(layout, a, [Malformed], keyword, searchLocation, clock);
    ListingsAppend(layout, a, b, keyword, searchLocation, clock);
    assert Listings(layout, [Malformed], keyword, searchLocation, clock) == [];
  }

  /** The card loop of both readers. */
  method ReadCards(layout: Layout, cards: seq<Card>, keyword: string,
                   searchLocation: string, clock: string) returns (jobs: seq<JobListing>)
    ensures jobs == Listings(layout, cards, keyword, searchLocation, clock)
  {
    jobs := [];
    for i := 0 to |cards|
      invariant jobs == Listings(layout, cards[..i], keyword, searchLocation, clock)
    {
      assert cards[..i + 1][..i] == cards[..i];
      match cards[i]
      case Malformed =>
      case Card(first) =>
        var job := ListingOf(layout, first, keyword, searchLocation, clock);
        jobs := jobs + [job];
    }
    assert cards[..|cards|] == cards;
  }

  /** The cards of the first container selector that matches anything, or
      none. */
  function FirstCards(page: ListingPage, sels: seq<string>): seq<Card>
  {
    if sels == [] then []
    else if Matches(page, sels[0]) != [] then Matches(page, sels[0])
    else FirstCards(page, sels[1..])
  }

  /** No cards exactly when no selector matches. */
  lemma {:induction false} FirstCardsNone(page: ListingPage, sels: seq<string>)
    ensures FirstCards(page, sels) == [] <==> forall k | 0 <= k < |sels| :: Matches(page, sels[k]) == []
  {
    if sels != [] {
      FirstCardsNone(page, sels[1..]);
      if Matches(page, sels[0]) == [] {
        forall k | 1 <= k < |sels| ensures sels[k] == sels[1..][k - 1] { }
      }
    }
  }

  /** Otherwise the cards of the earliest selector that matches. */
  lemma {:induction false} FirstCardsEarliest(page: ListingPage, sels: seq<string>, k: nat)
    requires k < |sels| && Matches(page, sels[k]) != []
    requires forall m | 0 <= m < k :: Matches(page, sels[m]) == []
    ensures FirstCards(page, sels) == Matches(page, sels[k])
  {
    if k > 0 {
      FirstCardsEarliest(page, sels[1..], k - 1);
    }
  }

  /** The selector loop of the rendered reader: stops at the first selector
      that finds cards. */
  method SelectCards(page: ListingPage) returns (cards: seq<Card>)
    ensures cards == FirstCards(page, ContainerSelectors)
  {
    cards := [];
    var i := 0;
    while i < |ContainerSelectors|
      invariant 0 <= i <= |ContainerSelectors|
      invariant forall m | 0 <= m < i :: Matches(page, ContainerSelectors[m]) == []
      invariant cards == []
    {
      var found := Matches(page, ContainerSelectors[i]);
      if found != [] {
        cards := found;
        FirstCardsEarliest(page, ContainerSelectors, i);
        return;
      }
      i := i + 1;
    }
    FirstCardsNone(page, ContainerSelectors);
  }

  /** `s.replace(' ', '+')`. */
  function PlusForSpace(s: string): (r: string)
    ensures |r| == |s| && ' ' !in r
    ensures forall i | 0 <= i < |s| :: r[i] == (if s[i] == ' ' then '+' else s[i])
  {
    seq(|s|, i requires 0 <= i < |s| => if s[i] == ' ' then '+' else s[i])
  }

  /** How a server reads `+` in a query component. */
  function SpaceForPlus(s: string): (r: string)
    ensures |r| == |s|
    ensures forall i | 0 <= i < |s| :: r[i] == (if s[i] == '+' then ' ' else s[i])
  {
    seq(|s|, i requires 0 <= i < |s| => if s[i] == '+' then ' ' else s[i])
  }

  /** The replacement loses nothing for text without a literal `+`, which
      holds of every keyword and location the crawler searches. */
  lemma PlusForSpaceRoundTrip(s: string)
    requires '+' !in s
    ensures SpaceForPlus(PlusForSpace(s)) == s
  {
  }

  /** Python's rendering of an int. */
  function IntString(n: int): string
  {
    if n < 0 then "-" + DecimalString(-n) else DecimalString(n)
  }

  /** The rendered reader's search URL: ten results per page, the recency
      filter always present. */
  function RenderedSearchUrl(keyword: string, location: string, page: nat, daysAgo: int): string
  {
    SearchBase + "?q=" + PlusForSpace(keyword) + "&l=" + PlusForSpace(location)
    + "&start=" + DecimalString(page * 10) + "&fromage=" + IntString(daysAgo)
  }

  /** The plain reader's query parameters, in insertion order; the recency
      filter only when `days_ago` is truthy (given and non-zero). Their
      percent-encoding into the URL is not part of this model. */
  function PlainQuery(keyword: string, location: string, page: nat, daysAgo: Option<int>): seq<(string, string)>
  {
    [("q", keyword), ("l", location), ("start", DecimalString(page * 10))]
    + if daysAgo.Some? && daysAgo.value != 0 then [("fromage", IntString(daysAgo.value))] else []
  }

  lemma PlainQueryShape(keyword: string, location: string, page: nat, daysAgo: Option<int>)
    ensures var q := PlainQuery(keyword, location, page, daysAgo);
            && q[..3] == [("q", keyword), ("l", location), ("start", q[2].1)]
            && DecimalValue(q[2].1) == 10 * page
            && (|q| == 4 <==> daysAgo.Some? && daysAgo.value != 0)
            && |q| in {3, 4}
            && (|q| == 4 ==> q[3].0 == "fromage")
  {
  }

  /** `get_job_listings_selenium` once the browser has loaded the page: None
      when loading fails (nothing catches it), else the cards of the first
      container selector that finds any. */
  function RenderedListings(pages: map<string, ListingPage>, keyword: string, location: string,
                            page: nat, daysAgo: int): Option<seq<JobListing>>
  {
    var url := RenderedSearchUrl(keyword, location, page, daysAgo);
    if url !in pages then None
    else
      var doc := pages[url];
      Some(Listings(Rendered, FirstCards(doc, ContainerSelectors), keyword, location, doc.clock))
  }

  method FetchRenderedListings(pages: map<string, ListingPage>, keyword: string, location: string,
                               page: nat, daysAgo: int) returns (r: Option<seq<JobListing>>)
    ensures r == RenderedListings(pages, keyword, location, page, daysAgo)
  {
    var url := RenderedSearchUrl(keyword, location, page, daysAgo);
    if url !in pages {
      return None;
    }
    var doc := pages[url];
    var cards := SelectCards(doc);
    if cards == [] {
      return Some([]);
    }
    var jobs := ReadCards(Rendered, cards, keyword, location, doc.clock);
    return Some(jobs);
  }

  /** `get_job_listings`: a failed request gives no listings rather than an
      error; only the first container selector is tried. */
  function PlainListings(pages: map<seq<(string, string)>, ListingPage>, keyword: string,
                         location: string, page: nat, daysAgo: Option<int>): seq<JobListing>
  {
    var query := PlainQuery(keyword, location, page, daysAgo);
    if query !in pages then []
    else
      var doc := pages[query];
      Listings(Plain, Matches(doc, ContainerSelectors[0]), keyword, location, doc.clock)
  }

  method FetchPlainListings(pages: map<seq<(string, string)>, ListingPage>, keyword: string,
                            location: string, page: nat, daysAgo: Option<int>) returns (jobs: seq<JobListing>)
    ensures jobs == PlainListings(pages, keyword, location, page, daysAgo)
  {
    var query := PlainQuery(keyword, location, page, daysAgo);
    if query !in pages {
      return [];
    }
    var doc := pages[query];
    var cards := Matches(doc, ContainerSelectors[0]);
    jobs := ReadCards(Plain, cards, keyword, location, doc.clock);
  }

  /** Both readers: a page that loads gives one well-formed record per
      readable card of the chosen container; the rendered reader reports a
      failed load, the plain one turns it into an empty result. */
  lemma RenderedListingsSpec(pages: map<string, ListingPage>, keyword: string, location: string,
                             page: nat, daysAgo: int)
    ensures var r := RenderedListings(pages, keyword, location, page, daysAgo);
            && (r.None? <==> RenderedSearchUrl(keyword, location, page, daysAgo) !in pages)
            && (r.Some? ==> |r.value| == Count(FirstCards(pages[RenderedSearchUrl(keyword, location, page, daysAgo)], ContainerSelectors), Readable))
            && (r.Some? ==> forall j | j in r.value :: WellFormed(j, keyword, location))
  {
    var url := RenderedSearchUrl(keyword, location, page, daysAgo);
    if url in pages {
      var doc := pages[url];
      ListingsCount(Rendered, FirstCards(doc, ContainerSelectors), keyword, location, doc.clock);
      ListingsWellFormed(Rendered, FirstCards(doc, ContainerSelectors), keyword, location, doc.clock);
    }
  }

  lemma PlainListingsSpec(pages: map<seq<(string, string)>, ListingPage>, keyword: string,
                          location: string, page: nat, daysAgo: Option<int>)
    ensures var jobs := PlainListings(pages, keyword, location, page, daysAgo);
            && (PlainQuery(keyword, location, page, daysAgo) !in pages ==> jobs == [])
            && (forall j | j in jobs :: WellFormed(j, keyword, location))
  {
    var query := PlainQuery(keyword, location, page, daysAgo);
    if query in pages {
      var doc := pages[query];
      ListingsWellFormed(Plain, Matches(doc, ContainerSelectors[0]), keyword, location, doc.clock);
    }
  }
}
