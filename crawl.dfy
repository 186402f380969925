/** `main` of the Indeed crawler: every keyword, in every location, three
    result pages each, keyword outermost and page innermost; each listing of
    a page is enriched from its detail page when it has a link, then saved.

    The web is a parameter: the rendered search pages by URL and the parsed
    detail pages by URL; a URL missing from either map is a load that fails.
    A failed search-page load is not caught anywhere, so it ends the crawl. */
module Crawl {
  import opened Wrappers
  import opened Text
  import opened Listing
  import opened Details
  import opened JobStore

  const SearchKeywords: seq<string> := [
    "Software Engineer", "Full Stack Developer", "Frontend Developer", "Backend Developer",
    "DevOps Engineer", "Data Engineer", "Machine Learning Engineer", "AI Engineer",
    "Mobile Developer", "iOS Developer", "Android Developer", "React Developer",
    "Node.js Developer", "Python Developer", "Java Developer"
  ]

  const Locations: seq<string> := [
    "Remote", "San Francisco, CA", "New York, NY", "Seattle, WA",
    "Austin, TX", "Boston, MA", "Chicago, IL"
  ]

  const PagesPerSearch: nat := 3

  /** The recency filter of every search: postings of the last week. */
  const RecencyDays: int := 7

  datatype Web = Web(listings: map<string, ListingPage>, details: map<string, DetailPage>)

  datatype Query = Query(keyword: string, location: string, page: nat)

  // ----- The order of the searches -----

  /** Pages 0 to n-1 of one search. */
  function Pages(keyword: string, location: string, n: nat): seq<Query>
  {
    if n == 0 then [] else Pages(keyword, location, n - 1) + [Query(keyword, location, n - 1)]
  }

  /** One keyword in each location in turn. */
  function LocationQueries(keyword: string, ls: seq<string>, n: nat): seq<Query>
  {
    if ls == [] then []
    else LocationQueries(keyword, ls[..|ls| - 1], n) + Pages(keyword, ls[|ls| - 1], n)
  }

  /** Every keyword in turn. */
  function Plan(ks: seq<string>, ls: seq<string>, n: nat): seq<Query>
  {
    if ks == [] then []
    else Plan(ks[..|ks| - 1], ls, n) + LocationQueries(ks[|ks| - 1], ls, n)
  }

  function FullPlan(): seq<Query>
  {
    Plan(SearchKeywords, Locations, PagesPerSearch)
  }

  lemma {:induction false} PagesAt(keyword: string, location: string, n: nat)
    ensures |Pages(keyword, location, n)| == n
    ensures forall p | 0 <= p < n :: Pages(keyword, location, n)[p] == Query(keyword, location, p)
  {
    if n > 0 {
      PagesAt(keyword, location, n - 1);
    }
  }

  lemma {:induction false} LocationQueriesAt(keyword: string, ls: seq<string>, n: nat, j: nat, p: nat)
    requires j < |ls| && p < n
    ensures |LocationQueries(keyword, ls, n)| == |ls| * n
    ensures j * n + p < |ls| * n
    ensures LocationQueries(keyword, ls, n)[j * n + p] == Query(keyword, ls[j], p)
  {
    var init := ls[..|ls| - 1];
    PagesAt(keyword, ls[|ls| - 1], n);
    LocationQueriesSize(keyword, init, n);
    assert |ls| * n == |init| * n + n;
    if j < |init| {
      LocationQueriesAt(keyword, init, n, j, p);
      assert init[j] == ls[j];
      BlockIndex(j, |init|, n, p);
    } else {
      assert j * n == |init| * n;
    }
  }

  lemma {:induction false} LocationQueriesSize(keyword: string, ls: seq<string>, n: nat)
    ensures |LocationQueries(keyword, ls, n)| == |ls| * n
  {
    if ls != [] {
      LocationQueriesSize(keyword, ls[..|ls| - 1], n);
      PagesAt(keyword, ls[|ls| - 1], n);
      assert |ls| * n == (|ls| - 1) * n + n;
    }
  }

  lemma {:induction false} PlanSize(ks: seq<string>, ls: seq<string>, n: nat)
    ensures |Plan(ks, ls, n)| == |ks| * (|ls| * n)
  {
    if ks != [] {
      PlanSize(ks[..|ks| - 1], ls, n);
      LocationQueriesSize(ks[|ks| - 1], ls, n);
      assert |ks| * (|ls| * n) == (|ks| - 1) * (|ls| * n) + |ls| * n;
    }
  }

  lemma BlockIndex(i: nat, t: nat, b: nat, r: nat)
    requires i < t && r < b
    ensures i * b + r < t * b
  {
    assert t * b == (i + 1) * b + (t - i - 1) * b;
  }

  /** The plan is the location queries of each keyword, one block after the
      other. */
  lemma {:induction false} PlanBlock(ks: seq<string>, ls: seq<string>, n: nat, i: nat, r: nat, x: nat)
    requires i < |ks| && r < |ls| * n && x == i * (|ls| * n) + r
    ensures |LocationQueries(ks[i], ls, n)| == |ls| * n
    ensures x < |Plan(ks, ls, n)|
    ensures Plan(ks, ls, n)[x] == LocationQueries(ks[i], ls, n)[r]
  {
    var init := ks[..|ks| - 1];
    var block := |ls| * n;
    PlanSize(ks, ls, n);
    PlanSize(init, ls, n);
    LocationQueriesSize(ks[|ks| - 1], ls, n);
    LocationQueriesSize(ks[i], ls, n);
    BlockIndex(i, |ks|, block, r);
    if i < |init| {
      PlanBlock(init, ls, n, i, r, x);
      assert init[i] == ks[i];
      BlockIndex(i, |init|, block, r);
    }
  }

  /** Search number (i * |ls| + j) * n + p is page p of keyword i in location
      j: keyword outermost, page innermost. */
  lemma PlanAt(ks: seq<string>, ls: seq<string>, n: nat, i: nat, j: nat, p: nat)
    requires i < |ks| && j < |ls| && p < n
    ensures |Plan(ks, ls, n)| == |ks| * |ls| * n
    ensures (i * |ls| + j) * n + p < |Plan(ks, ls, n)|
    ensures Plan(ks, ls, n)[(i * |ls| + j) * n + p] == Query(ks[i], ls[j], p)
  {
    var x := (i * |ls| + j) * n + p;
    var r := j * n + p;
    PlanSize(ks, ls, n);
    Regroup(|ks|, |ls|, n, i, j, p, x, r);
    LocationQueriesAt(ks[i], ls, n, j, p);
    PlanBlock(ks, ls, n, i, r, x);
  }

  lemma Regroup(k: nat, l: nat, n: nat, i: nat, j: nat, p: nat, x: nat, r: nat)
    requires x == (i * l + j) * n + p && r == j * n + p
    ensures k * l * n == k * (l * n)
    ensures x == i * (l * n) + r
  {
    assert (i * l + j) * n == i * l * n + j * n;
  }

  /** The crawler makes 315 searches: 15 keywords, 7 locations, 3 pages. */
  lemma FullPlanSize()
    ensures |FullPlan()| == 315
  {
    PlanSize(SearchKeywords, Locations, PagesPerSearch);
  }

  // ----- What one search does -----

  /** A listing with a link gets the detail fields of its page. */
  function Enriched(web: Web, job: JobListing): JobListing
  {
    if job.url != NotAvailable then job.(details := Some(DetailsOf(web.details, job.url))) else job
  }

  /** The collection after saving the listings of a page in order. */
  function SaveAll(web: Web, records: Records, jobs: seq<JobListing>): Records
  {
    if jobs == [] then records
    else Upsert(SaveAll(web, records, jobs[..|jobs| - 1]), Enriched(web, jobs[|jobs| - 1]))
  }

  /** The detail pages loaded for the listings of a page, in order. */
  function DetailUrls(jobs: seq<JobListing>): seq<string>
  {
    if jobs == [] then []
    else DetailUrls(jobs[..|jobs| - 1])
         + if jobs[|jobs| - 1].url != NotAvailable then [jobs[|jobs| - 1].url] else []
  }

  /** The collection, the number saved per search so far, the detail pages
      loaded so far, and whether a failed load has ended the crawl. */
  datatype CrawlState = CrawlState(records: Records, savedCounts: seq<nat>,
                                   detailLoads: seq<string>, aborted: bool)

  function Step(web: Web, st: CrawlState, q: Query): CrawlState
  {
    if st.aborted then st
    else
      match RenderedListings(web.listings, q.keyword, q.location, q.page, RecencyDays)
      case None => st.(aborted := true)
      case Some(jobs) =>
        CrawlState(SaveAll(web, st.records, jobs), st.savedCounts + [|jobs|],
                   st.detailLoads + DetailUrls(jobs), false)
  }

  function Run(web: Web, st: CrawlState, qs: seq<Query>): CrawlState
  {
    if qs == [] then st else Step(web, Run(web, st, qs[..|qs| - 1]), qs[|qs| - 1])
  }

  // ----- Properties of the crawl -----

  lemma PagesSnoc(before: seq<Query>, keyword: string, location: string, p: nat)
    ensures before + Pages(keyword, location, p + 1) == before + Pages(keyword, location, p) + [Query(keyword, location, p)]
  {
  }

  lemma RunSnoc(web: Web, st: CrawlState, qs: seq<Query>, q: Query)
    ensures Run(web, st, qs + [q]) == Step(web, Run(web, st, qs), q)
  {
    assert (qs + [q])[..|qs|] == qs;
  }

  lemma {:induction false} RunAppend(web: Web, st: CrawlState, a: seq<Query>, b: seq<Query>)
    ensures Run(web, st, a + b) == Run(web, Run(web, st, a), b)
    decreases |b|
  {
    if b == [] {
      assert a + b == a;
    } else {
      assert (a + b)[..|a + b| - 1] == a + b[..|b| - 1];
      RunAppend(web, st, a, b[..|b| - 1]);
    }
  }

  /** Once a load has failed, nothing further happens. */
  lemma {:induction false} AbortedStays(web: Web, st: CrawlState, qs: seq<Query>)
    requires st.aborted
    ensures Run(web, st, qs) == st
  {
    if qs != [] {
      AbortedStays(web, st, qs[..|qs| - 1]);
    }
  }

  /** Each search that loads saves all of its listings, and the crawl stops at
      the first search whose page fails to load. */
  lemma {:induction false} CrawlProgress(web: Web, st: CrawlState, qs: seq<Query>)
    requires !st.aborted && st.savedCounts == []
    ensures var end := Run(web, st, qs);
            && |end.savedCounts| <= |qs|
            && (end.aborted <==> |end.savedCounts| < |qs|)
            && (end.aborted ==> RenderedListings(web.listings, qs[|end.savedCounts|].keyword,
                  qs[|end.savedCounts|].location, qs[|end.savedCounts|].page, RecencyDays).None?)
            && forall k | 0 <= k < |end.savedCounts| ::
                 var r := RenderedListings(web.listings, qs[k].keyword, qs[k].location, qs[k].page, RecencyDays);
                 r.Some? && end.savedCounts[k] == |r.value|
  {
    CountsBound(web, st, qs);
    CountsMatch(web, st, qs);
    StopReason(web, st, qs);
  }

  lemma {:induction false} CountsBound(web: Web, st: CrawlState, qs: seq<Query>)
    requires !st.aborted && st.savedCounts == []
    ensures var end := Run(web, st, qs);
            && |end.savedCounts| <= |qs|
            && (end.aborted <==> |end.savedCounts| < |qs|)
  {
    if qs != [] {
      CountsBound(web, st, qs[..|qs| - 1]);
    }
  }

  lemma {:induction false} CountsMatch(web: Web, st: CrawlState, qs: seq<Query>)
    requires !st.aborted && st.savedCounts == []
    ensures |Run(web, st, qs).savedCounts| <= |qs|
    ensures var end := Run(web, st, qs);
            forall k | 0 <= k < |end.savedCounts| ::
              var r := RenderedListings(web.listings, qs[k].keyword, qs[k].location, qs[k].page, RecencyDays);
              r.Some? && end.savedCounts[k] == |r.value|
  {
    CountsBound(web, st, qs);
    if qs != [] {
      var init, q := qs[..|qs| - 1], qs[|qs| - 1];
      CountsMatch(web, st, init);
      var mid := Run(web, st, init);
      var end := Run(web, st, qs);
      assert end == Step(web, mid, q);
      StepCounts(web, mid, q);
      forall k | 0 <= k < |end.savedCounts|
        ensures var r := RenderedListings(web.listings, qs[k].keyword, qs[k].location, qs[k].page, RecencyDays);
                r.Some? && end.savedCounts[k] == |r.value|
      {
        if k < |mid.savedCounts| {
          assert qs[k] == init[k] && end.savedCounts[k] == mid.savedCounts[k];
        } else {
          assert qs[k] == q;
        }
      }
    }
  }

  /** One search adds the number of listings of its page to the counts, or
      nothing when the crawl has stopped or the page fails to load. */
  lemma StepCounts(web: Web, st: CrawlState, q: Query)
    ensures var r := RenderedListings(web.listings, q.keyword, q.location, q.page, RecencyDays);
            Step(web, st, q).savedCounts
            == if st.aborted || r.None? then st.savedCounts else st.savedCounts + [|r.value|]
  {
  }

  lemma {:induction false} StopReason(web: Web, st: CrawlState, qs: seq<Query>)
    requires !st.aborted && st.savedCounts == []
    ensures var end := Run(web, st, qs);
            |end.savedCounts| < |qs| ==>
              RenderedListings(web.listings, qs[|end.savedCounts|].keyword,
                qs[|end.savedCounts|].location, qs[|end.savedCounts|].page, RecencyDays).None?
  {
    if qs != [] {
      var init := qs[..|qs| - 1];
      CountsBound(web, st, init);
      StopReason(web, st, init);
      var mid := Run(web, st, init);
      if mid.aborted {
        assert qs[|mid.savedCounts|] == init[|mid.savedCounts|];
      }
    }
  }

  /** Every detail page the crawl loads is a job link. */
  lemma {:induction false} DetailLoadsAreJobLinks(web: Web, st: CrawlState, qs: seq<Query>)
    requires forall u | u in st.detailLoads :: StartsWith(u, ViewJobPrefix)
    ensures forall u | u in Run(web, st, qs).detailLoads :: StartsWith(u, ViewJobPrefix)
  {
    if qs != [] {
      var mid := Run(web, st, qs[..|qs| - 1]);
      var q := qs[|qs| - 1];
      DetailLoadsAreJobLinks(web, st, qs[..|qs| - 1]);
      RenderedListingsSpec(web.listings, q.keyword, q.location, q.page, RecencyDays);
      var r := RenderedListings(web.listings, q.keyword, q.location, q.page, RecencyDays);
      if !mid.aborted && r.Some? {
        DetailUrlsAreLinks(r.value, q.keyword, q.location);
      }
    }
  }

  lemma {:induction false} DetailUrlsAreLinks(jobs: seq<JobListing>, keyword: string, location: string)
    requires forall j | j in jobs :: WellFormed(j, keyword, location)
    ensures forall u | u in DetailUrls(jobs) :: StartsWith(u, ViewJobPrefix)
  {
    if jobs != [] {
      var last := jobs[|jobs| - 1];
      DetailUrlsAreLinks(jobs[..|jobs| - 1], keyword, location);
      if last.url != NotAvailable {
        assert last in jobs;
        ViewUrlInverse(last.jobId);
        assert last.url == ViewUrl(last.jobId);
      }
    }
  }

  /** The ids of a sequence of listings. */
  function Ids(jobs: seq<JobListing>): set<Option<string>>
  {
    if jobs == [] then {} else Ids(jobs[..|jobs| - 1]) + {jobs[|jobs| - 1].jobId}
  }

  /** After a page, the collection holds the ids it held and the ids of the
      page's listings, no others; listings without an id share one key. */
  lemma {:induction false} SaveAllKeys(web: Web, records: Records, jobs: seq<JobListing>)
    ensures SaveAll(web, records, jobs).Keys == records.Keys + Ids(jobs)
  {
    if jobs != [] {
      var init := jobs[..|jobs| - 1];
      var job := Enriched(web, jobs[|jobs| - 1]);
      SaveAllKeys(web, records, init);
      UpsertKeys(SaveAll(web, records, init), job);
    }
  }

  lemma {:induction false} SaveAllKeyed(web: Web, records: Records, jobs: seq<JobListing>)
    requires Keyed(records)
    ensures Keyed(SaveAll(web, records, jobs))
  {
    if jobs != [] {
      SaveAllKeyed(web, records, jobs[..|jobs| - 1]);
      UpsertSpec(SaveAll(web, records, jobs[..|jobs| - 1]), Enriched(web, jobs[|jobs| - 1]));
    }
  }

  lemma {:induction false} RunKeepsKeyed(web: Web, st: CrawlState, qs: seq<Query>)
    requires Keyed(st.records)
    ensures Keyed(Run(web, st, qs).records)
    ensures st.records.Keys <= Run(web, st, qs).records.Keys
  {
    if qs != [] {
      var mid := Run(web, st, qs[..|qs| - 1]);
      var q := qs[|qs| - 1];
      RunKeepsKeyed(web, st, qs[..|qs| - 1]);
      var r := RenderedListings(web.listings, q.keyword, q.location, q.page, RecencyDays);
      if !mid.aborted && r.Some? {
        SaveAllKeys(web, mid.records, r.value);
        SaveAllKeyed(web, mid.records, r.value);
      }
    }
  }

  // ----- The prefix argument behind an early stop -----

  predicate IsPrefix(a: seq<Query>, b: seq<Query>)
  {
    |a| <= |b| && b[..|a|] == a
  }

  lemma PrefixExtend(a: seq<Query>, b: seq<Query>, c: seq<Query>)
    requires IsPrefix(a, b)
    ensures IsPrefix(a, b + c)
  {
    assert (b + c)[..|a|] == b[..|a|];
  }

  lemma PrefixAppend(a: seq<Query>, x: seq<Query>, y: seq<Query>)
    requires IsPrefix(x, y)
    ensures IsPrefix(a + x, a + y)
  {
    assert (a + y)[..|a + x|] == a + y[..|x|];
  }

  lemma {:induction false} PagesGrow(keyword: string, location: string, m: nat, n: nat)
    requires m <= n
    ensures IsPrefix(Pages(keyword, location, m), Pages(keyword, location, n))
  {
    if m < n {
      PagesGrow(keyword, location, m, n - 1);
      PrefixExtend(Pages(keyword, location, m), Pages(keyword, location, n - 1), [Query(keyword, location, n - 1)]);
    }
  }

  lemma {:induction false} LocationQueriesGrow(keyword: string, ls: seq<string>, n: nat, j: nat)
    requires j <= |ls|
    ensures IsPrefix(LocationQueries(keyword, ls[..j], n), LocationQueries(keyword, ls, n))
  {
    if j < |ls| {
      var init := ls[..|ls| - 1];
      assert init[..j] == ls[..j];
      LocationQueriesGrow(keyword, init, n, j);
      PrefixExtend(LocationQueries(keyword, ls[..j], n), LocationQueries(keyword, init, n), Pages(keyword, ls[|ls| - 1], n));
    } else {
      assert ls[..j] == ls;
    }
  }

  lemma {:induction false} PlanGrow(ks: seq<string>, ls: seq<string>, n: nat, i: nat)
    requires i <= |ks|
    ensures IsPrefix(Plan(ks[..i], ls, n), Plan(ks, ls, n))
  {
    if i < |ks| {
      var init := ks[..|ks| - 1];
      assert init[..i] == ks[..i];
      PlanGrow(init, ls, n, i);
      PrefixExtend(Plan(ks[..i], ls, n), Plan(init, ls, n), LocationQueries(ks[|ks| - 1], ls, n));
    } else {
      assert ks[..i] == ks;
    }
  }

  /** The searches done before page p of keyword i in location j. */
  function Done(ks: seq<string>, ls: seq<string>, n: nat, i: nat, j: nat, p: nat): seq<Query>
    requires i < |ks| && j < |ls|
  {
    Plan(ks[..i], ls, n) + LocationQueries(ks[i], ls[..j], n) + Pages(ks[i], ls[j], p)
  }

  lemma PrefixTrans(a: seq<Query>, b: seq<Query>, c: seq<Query>)
    requires IsPrefix(a, b) && IsPrefix(b, c)
    ensures IsPrefix(a, c)
  {
    assert c[..|a|] == c[..|b|][..|a|];
  }

  lemma WithinLocations(keyword: string, ls: seq<string>, n: nat, j: nat, p: nat)
    requires j < |ls| && p <= n
    ensures IsPrefix(LocationQueries(keyword, ls[..j], n) + Pages(keyword, ls[j], p),
                     LocationQueries(keyword, ls, n))
  {
    var here := LocationQueries(keyword, ls[..j], n);
    PagesGrow(keyword, ls[j], p, n);
    PrefixAppend(here, Pages(keyword, ls[j], p), Pages(keyword, ls[j], n));
    assert LocationQueries(keyword, ls[..j + 1], n) == here + Pages(keyword, ls[j], n) by {
      assert ls[..j + 1][..j] == ls[..j];
    }
    LocationQueriesGrow(keyword, ls, n, j + 1);
    PrefixTrans(here + Pages(keyword, ls[j], p), here + Pages(keyword, ls[j], n), LocationQueries(keyword, ls, n));
  }

  /** What has been done at any point of the loops is a prefix of the plan. */
  lemma DoneIsPrefix(ks: seq<string>, ls: seq<string>, n: nat, i: nat, j: nat, p: nat)
    requires i < |ks| && j < |ls| && p <= n
    ensures IsPrefix(Done(ks, ls, n, i, j, p), Plan(ks, ls, n))
  {
    var before := Plan(ks[..i], ls, n);
    var mid := LocationQueries(ks[i], ls[..j], n) + Pages(ks[i], ls[j], p);
    WithinLocations(ks[i], ls, n, j, p);
    PrefixAppend(before, mid, LocationQueries(ks[i], ls, n));
    assert Plan(ks[..i + 1], ls, n) == before + LocationQueries(ks[i], ls, n) by {
      assert ks[..i + 1][..i] == ks[..i];
    }
    PlanGrow(ks, ls, n, i + 1);
    PrefixTrans(before + mid, Plan(ks[..i + 1], ls, n), Plan(ks, ls, n));
    assert Done(ks, ls, n, i, j, p) == before + mid;
  }

  lemma LocationQueriesSnoc(keyword: string, ls: seq<string>, n: nat, j: nat)
    requires j < |ls|
    ensures LocationQueries(keyword, ls[..j + 1], n) == LocationQueries(keyword, ls[..j], n) + Pages(keyword, ls[j], n)
  {
    assert ls[..j + 1][..j] == ls[..j];
  }

  lemma DoneWithLocation(ks: seq<string>, ls: seq<string>, n: nat, i: nat, j: nat)
    requires i < |ks| && j < |ls|
    ensures Done(ks, ls, n, i, j, n) == Plan(ks[..i], ls, n) + LocationQueries(ks[i], ls[..j + 1], n)
  {
    LocationQueriesSnoc(ks[i], ls, n, j);
  }

  lemma PlanSnoc(ks: seq<string>, ls: seq<string>, n: nat, i: nat)
    requires i < |ks|
    ensures Plan(ks[..i + 1], ls, n) == Plan(ks[..i], ls, n) + LocationQueries(ks[i], ls, n)
  {
    assert ks[..i + 1][..i] == ks[..i];
  }

  /** A failed load ends the crawl where it happened. */
  lemma StopEndsPlan(web: Web, st: CrawlState, done: seq<Query>, plan: seq<Query>)
    requires IsPrefix(done, plan) && Run(web, st, done).aborted
    ensures Run(web, st, plan) == Run(web, st, done)
  {
    assert plan == done + plan[|done|..];
    RunAppend(web, st, done, plan[|done|..]);
    AbortedStays(web, Run(web, st, done), plan[|done|..]);
  }

  // ----- The crawler -----

  /** The listing loop of `main` for one page: each listing with a link is
      merged with its detail page, then saved; returns how many were saved
      and the detail pages loaded. */
  method SavePage(store: JobCollection, web: Web, jobs: seq<JobListing>)
    returns (savedCount: nat, ghost loads: seq<string>)
    requires store.Valid()
    modifies store
    ensures store.Valid()
    ensures store.records == SaveAll(web, old(store.records), jobs)
    ensures loads == DetailUrls(jobs) && savedCount == |jobs|
  {
    savedCount, loads := 0, [];
    ghost var before := store.records;
    for m := 0 to |jobs|
      invariant store.Valid()
      invariant store.records == SaveAll(web, before, jobs[..m])
      invariant loads == DetailUrls(jobs[..m])
      invariant savedCount == m
    {
      assert jobs[..m + 1][..m] == jobs[..m];
      var job := jobs[m];
      if job.url != NotAvailable {
        var details := GetJobDetails(web.details, job.url);
        loads := loads + [job.url];
        job := job.(details := Some(details));
      }
      store.Save(job);
      savedCount := savedCount + 1;
    }
    assert jobs[..|jobs|] == jobs;
  }

  /** One search of `main`: load the page, then save its listings; None
      when the page fails to load. The ghost parameters carry the crawl so
      far, to state the effect as one step of the crawl. */
  method SearchPage(store: JobCollection, web: Web, q: Query,
                    ghost counts: seq<nat>, ghost loadsSoFar: seq<string>)
    returns (saved: Option<nat>, ghost loads: seq<string>)
    requires store.Valid()
    modifies store
    ensures store.Valid()
    ensures Step(web, CrawlState(old(store.records), counts, loadsSoFar, false), q)
            == if saved.None? then CrawlState(store.records, counts, loadsSoFar, true)
               else CrawlState(store.records, counts + [saved.value], loadsSoFar + loads, false)
  {
    var r := FetchRenderedListings(web.listings, q.keyword, q.location, q.page, RecencyDays);
    if r.None? {
      return None, [];
    }
    var savedCount;
    savedCount, loads := SavePage(store, web, r.value);
    saved := Some(savedCount);
  }

  /** The page loop of `main` for one keyword in one location: searches
      pages 0 to n-1 in turn after the searches `before`; stops at the
      first page that fails to load, which `stopPage` names. */
  method SearchPages(store: JobCollection, web: Web, keyword: string, location: string, n: nat,
                     ghost st0: CrawlState, ghost before: seq<Query>,
                     counts0: seq<nat>, ghost loads0: seq<string>)
    returns (savedCounts: seq<nat>, stopped: bool, ghost detailLoads: seq<string>, ghost stopPage: nat)
    requires store.Valid()
    requires Run(web, st0, before) == CrawlState(store.records, counts0, loads0, false)
    modifies store
    ensures store.Valid()
    ensures !stopped ==> Run(web, st0, before + Pages(keyword, location, n))
                         == CrawlState(store.records, savedCounts, detailLoads, false)
    ensures stopped ==> stopPage < n && Run(web, st0, before + Pages(keyword, location, stopPage + 1))
                                        == CrawlState(store.records, savedCounts, detailLoads, true)
  {
    ghost var done := before;
    savedCounts, detailLoads, stopPage := counts0, loads0, 0;
    assert Pages(keyword, location, 0) == [];
    assert before + [] == before;
    for p := 0 to n
      invariant store.Valid()
      invariant done == before + Pages(keyword, location, p)
      invariant Run(web, st0, done) == CrawlState(store.records, savedCounts, detailLoads, false)
    {
      var q := Query(keyword, location, p);
      RunSnoc(web, st0, done, q);
      PagesSnoc(before, keyword, location, p);
      var saved, loads := SearchPage(store, web, q, savedCounts, detailLoads);
      if saved.None? {
        stopped, stopPage := true, p;
        return;
      }
      savedCounts, detailLoads := savedCounts + [saved.value], detailLoads + loads;
      done := done + [q];
    }
    stopped := false;
  }

  /** The three loops of `main` over the given keywords, locations and page
      count: returns the number saved per search and whether every search
      page loaded; `detailLoads` is the detail pages loaded, in order. */
  method CrawlPlan(store: JobCollection, web: Web, ks: seq<string>, ls: seq<string>, n: nat)
    returns (savedCounts: seq<nat>, completed: bool, ghost detailLoads: seq<string>)
    requires store.Valid()
    modifies store
    ensures store.Valid()
    ensures Run(web, CrawlState(old(store.records), [], [], false), Plan(ks, ls, n))
            == CrawlState(store.records, savedCounts, detailLoads, !completed)
  {
    ghost var st0 := CrawlState(store.records, [], [], false);
    ghost var done: seq<Query> := [];
    savedCounts, detailLoads := [], [];
    for i := 0 to |ks|
      invariant store.Valid()
      invariant done == Plan(ks[..i], ls, n)
      invariant Run(web, st0, done) == CrawlState(store.records, savedCounts, detailLoads, false)
    {
      assert LocationQueries(ks[i], ls[..0], n) == [];
      for j := 0 to |ls|
        invariant store.Valid()
        invariant done == Plan(ks[..i], ls, n) + LocationQueries(ks[i], ls[..j], n)
        invariant Run(web, st0, done) == CrawlState(store.records, savedCounts, detailLoads, false)
      {
        var stopped;
        ghost var stopPage;
        savedCounts, stopped, detailLoads, stopPage :=
          SearchPages(store, web, ks[i], ls[j], n, st0, done, savedCounts, detailLoads);
        if stopped {
          assert done + Pages(ks[i], ls[j], stopPage + 1) == Done(ks, ls, n, i, j, stopPage + 1);
          DoneIsPrefix(ks, ls, n, i, j, stopPage + 1);
          StopEndsPlan(web, st0, Done(ks, ls, n, i, j, stopPage + 1), Plan(ks, ls, n));
          completed := false;
          return;
        }
        assert done + Pages(ks[i], ls[j], n) == Done(ks, ls, n, i, j, n);
        DoneWithLocation(ks, ls, n, i, j);
        done := Done(ks, ls, n, i, j, n);
      }
      PlanSnoc(ks, ls, n, i);
      assert ls[..|ls|] == ls;
    }
    assert ks[..|ks|] == ks;
    completed := true;
  }

  /** `main`: every configured keyword, location and page. */
  method CrawlAll(store: JobCollection, web: Web) returns (savedCounts: seq<nat>, completed: bool,
                                                            ghost detailLoads: seq<string>)
    requires store.Valid()
    modifies store
    ensures store.Valid()
    ensures Run(web, CrawlState(old(store.records), [], [], false), FullPlan())
            == CrawlState(store.records, savedCounts, detailLoads, !completed)
  {
    savedCounts, completed, detailLoads := CrawlPlan(store, web, SearchKeywords, Locations, PagesPerSearch);
  }
}
