/** `get_job_details` of the Indeed crawler: the full description and the
    bullet points of a job's detail page. */
module Details {
  import opened Text
  import opened Sequences
  import opened Listing

  /** A parsed detail page: `one[sel]` is `soup.select_one(sel)` when it finds
      an element, `all[sel]` is `soup.select(sel)` (absent: nothing). */
  datatype DetailPage = DetailPage(one: map<string, Element>, all: map<string, seq<Element>>)

  const DescriptionSelector: string := "div#jobDescriptionText"
  const RequirementSelector: string := "div#jobDescriptionText ul li"
  const FailedToFetch: string := "Failed to fetch"

  /** A bullet point counts as a requirement when its stripped text is longer
      than ten characters. */
  predicate IsRequirement(t: string) { |t| > 10 }

  function StrippedTexts(items: seq<Element>): (r: seq<string>)
    ensures |r| == |items| && forall i | 0 <= i < |items| :: r[i] == PyStrip(items[i].text)
  {
    seq(|items|, i requires 0 <= i < |items| => PyStrip(items[i].text))
  }

  /** The stripped bullet texts that are long enough, in page order. */
  function Requirements(items: seq<Element>): seq<string>
  {
    if items == [] then []
    else
      var t := PyStrip(items[|items| - 1].text);
      Requirements(items[..|items| - 1]) + if IsRequirement(t) then [t] else []
  }

  /** The requirement filter keeps exactly the long stripped texts, in order:
      a subsequence of them (here), all long, as many as there are (below). */
  lemma {:induction false} RequirementsInOrder(items: seq<Element>)
    ensures IsSubsequence(Requirements(items), StrippedTexts(items))
  {
    if items != [] {
      var init := items[..|items| - 1];
      var t := PyStrip(items[|items| - 1].text);
      var r := Requirements(init);
      var st := StrippedTexts(init);
      RequirementsInOrder(init);
      assert StrippedTexts(items) == st + [t] by {
        forall i | 0 <= i < |items| ensures StrippedTexts(items)[i] == (st + [t])[i] {
          if i < |init| { assert items[i] == init[i]; }
        }
      }
      assert Requirements(items) == if IsRequirement(t) then r + [t] else r;
      SubsequenceExtend(r, st, t, IsRequirement(t));
    }
  }

  lemma {:induction false} RequirementsLong(items: seq<Element>)
    ensures forall t | t in Requirements(items) :: IsRequirement(t)
  {
    if items != [] {
      RequirementsLong(items[..|items| - 1]);
    }
  }

  lemma {:induction false} RequirementsCount(items: seq<Element>)
    ensures |Requirements(items)| == Count(StrippedTexts(items), IsRequirement)
  {
    if items != [] {
      var init := items[..|items| - 1];
      RequirementsCount(init);
      assert StrippedTexts(items)[..|items| - 1] == StrippedTexts(init);
    }
  }

  /** What the detail page adds: on a page that loads, the stripped
      description (or the sentinel when it has none) and the requirements; on
      a failed load, the failure text and no requirements. */
  function DetailsOf(pages: map<string, DetailPage>, url: string): JobDetails
  {
    if url !in pages then JobDetails(FailedToFetch, [])
    else
      var doc := pages[url];
      JobDetails(
        TextOr(doc.one, DescriptionSelector),
        Requirements(if RequirementSelector in doc.all then doc.all[RequirementSelector] else []))
  }

  method GetJobDetails(pages: map<string, DetailPage>, url: string) returns (d: JobDetails)
    ensures d == DetailsOf(pages, url)
  {
    if url !in pages {
      return JobDetails(FailedToFetch, []);
    }
    var doc := pages[url];
    var description := TextOr(doc.one, DescriptionSelector);
    var items := if RequirementSelector in doc.all then doc.all[RequirementSelector] else [];
    var requirements := [];
    for i := 0 to |items|
      invariant requirements == Requirements(items[..i])
    {
      assert items[..i + 1][..i] == items[..i];
      var t := PyStrip(items[i].text);
      if IsRequirement(t) {
        requirements := requirements + [t];
      }
    }
    assert items[..|items|] == items;
    return JobDetails(description, requirements);
  }

  /** The outcomes: a failed load, a page without a description, a page with
      one; every requirement is long enough and stripped. */
  lemma DetailsSpec(pages: map<string, DetailPage>, url: string)
    ensures url !in pages ==> DetailsOf(pages, url) == JobDetails(FailedToFetch, [])
    ensures url in pages && DescriptionSelector !in pages[url].one ==>
              DetailsOf(pages, url).description == NotAvailable
    ensures url in pages && DescriptionSelector in pages[url].one ==>
              DetailsOf(pages, url).description == PyStrip(pages[url].one[DescriptionSelector].text)
    ensures forall t | t in DetailsOf(pages, url).requirements :: IsRequirement(t) && Stripped(t)
  {
    if url in pages {
      var doc := pages[url];
      var items := if RequirementSelector in doc.all then doc.all[RequirementSelector] else [];
      RequirementsLong(items);
      forall t | t in Requirements(items) ensures Stripped(t) {
        RequirementStripped(items, t);
      }
    }
  }

  lemma {:induction false} RequirementStripped(items: seq<Element>, t: string)
    requires t in Requirements(items)
    ensures Stripped(t)
  {
    var init := items[..|items| - 1];
    if t !in Requirements(init) {
      assert t == PyStrip(items[|items| - 1].text);
    } else {
      RequirementStripped(init, t);
    }
  }
}
