# Job-board crawler, job-text cleaning, subscription quotas and AI-reply parsing

This project models in Dafny the core logic of a job-search assistant. The
assistant has a Python crawler for Indeed job listings and a Node.js backend.
The backend cleans pasted job descriptions, meters paid AI features per day
and parses the replies of an AI interviewer. The modelled parts are:

- **The Indeed crawler** (`crawler/indeed_spider.py`):
  - parsing of the "posted …" text into a day count (module `PostedDate`);
  - the two listing readers, plain HTTP and browser-rendered (`Listing`): the search URL, the choice of card container, one record per job card, and a card that raises skipped on its own;
  - the detail-page reader (`Details`);
  - the upsert into the `jobs` collection (`JobStore`, a class over a map keyed by `job_id`);
  - `main` (`Crawl`): 15 keywords × 7 locations × 3 pages, enriching and saving every listing of a page.
- **`preprocessJobText`** (`backend/services/jobParser.js`, module `JobText`): the line filter that drops ratings, application prompts, empty lines, rules and the whole "profile insights" section up to the next section header.
- **The `Subscription` document** (`backend/models/Subscription.js`, module `Quota`): the schema defaults, and the four usage methods. These are the daily reset, remaining GPT-4o uses, permission per action and usage recording. The class's fields are updated in place.
- **The AI-service helpers** (`backend/services/aiService.js`):
  - `extractQuestion` (module `Question`);
  - `extractEvaluation` (module `Assessment`): score, recommendation, strengths, improvements and the skill-score map;
  - `truncateContent` (module `Truncate`), which caps a job or résumé JSON document field by field.

Regular expressions are modelled as the engine runs them (leftmost match, lazy capture up to a lookahead, every global match in order). Several quirks of the source are kept in the model and proved as lemmas, for example:

- "不推荐录用" is classified as a recommendation.
- A second save overwrites the keyword list instead of merging it.
- Every record without an id lands on one document.
- A full-width `？` does not end a question.

The web, the database, the clock, `JSON.parse` and `JSON.stringify` are parameters: maps from URL to page, a map of records, a time argument, and two function arguments.

## Model

| member | source | states |
|---|---|---|
| PostedDate.SearchDaysNone | crawler/indeed_spider.py:76-79 | the `\d+\s+day` search finds nothing exactly when the pattern matches at no position |
| PostedDate.SearchDaysLeftmost | crawler/indeed_spider.py:76-78 | the search returns the digits of the leftmost position where the pattern matches |
| PostedDate.MatchExtendsLeft | crawler/indeed_spider.py:76 | a match preceded by a digit also matches one place earlier and ends at the same digit run, so the leftmost match captures the whole number |
| PostedDate.DaysAgoRoundTrip | crawler/indeed_spider.py:68-79 | the text "N days ago", with N written in decimal, parses back to N for every N |
| PostedDate.JustPostedIsZero | crawler/indeed_spider.py:70-71 | "just posted" in any casing parses to 0 |
| PostedDate.TodayIsZero | crawler/indeed_spider.py:70-71 | "posted today" in any casing parses to 0 |
| PostedDate.YesterdayIsOne | crawler/indeed_spider.py:70-73 | "yesterday" in any casing parses to 1, since neither zero keyword occurs in it |
| PostedDate.CapitalDaysIsUnknown | crawler/indeed_spider.py:76-79 | "5 Days ago" parses to nothing: the regex is case-sensitive while the keyword tests are not |
| PostedDate.SentinelIsUnknown | crawler/indeed_spider.py:68-79 | the "N/A" sentinel and the empty text parse to nothing |
| PostedDate.ThirtyPlusIsUnknown | crawler/indeed_spider.py:76-79 | "30+ days ago" parses to nothing, because the `+` separates the digits from the space |
| PostedDate.FallsToSearch | crawler/indeed_spider.py:70-78 | text whose lower case has none of the keywords' letters goes straight to the regex search |
| PostedDate.NoDigitNoMatch | crawler/indeed_spider.py:76-79 | text without a digit gives no day count |
| Listing.ViewUrlInverse | crawler/indeed_spider.py:124-126 | the link is the sentinel exactly when the job id is missing or empty; otherwise it is the viewjob URL of the id |
| Listing.TextOrStripped | crawler/indeed_spider.py:116-134 | every text field is stripped, and a missing element gives "N/A" |
| Listing.ListingWellFormed | crawler/indeed_spider.py:112-153 | a record read from a card is tagged with its keyword, location and source; its link agrees with its id, its day count comes from its date text, its text fields are stripped and it has no details yet |
| Listing.EmptyCardIsSentinels | crawler/indeed_spider.py:112-153 | a card with none of the queried elements still yields a record made of sentinels, with no id and no day count |
| Listing.RenderedTitleFallback | crawler/indeed_spider.py:275-281 | the rendered reader uses the title attribute unless it is absent or "N/A"; then it uses the heading text, stripped |
| Listing.ListingsCount | crawler/indeed_spider.py:109-159 | exactly one record per readable card |
| Listing.ListingsWellFormed | crawler/indeed_spider.py:109-159 | every record of a page is well-formed |
| Listing.ListingsAppend | crawler/indeed_spider.py:109-159 | reading cards distributes over concatenation, so records keep card order |
| Listing.MalformedCardSkipped | crawler/indeed_spider.py:157-159 | a card whose reading raises costs only itself |
| Listing.ReadCards | crawler/indeed_spider.py:271-330 | the card loop returns exactly the records the card-reading function gives |
| Listing.FirstCardsNone | crawler/indeed_spider.py:259-269 | no cards are chosen exactly when every container selector matches nothing |
| Listing.FirstCardsEarliest | crawler/indeed_spider.py:259-265 | the cards chosen are those of the earliest selector that matches any |
| Listing.SelectCards | crawler/indeed_spider.py:252-265 | the selector loop with `break` returns the cards of the first matching selector |
| Listing.PlusForSpace | crawler/indeed_spider.py:236 | `replace(' ', '+')` keeps the length, leaves no space and changes only the spaces |
| Listing.SpaceForPlus | crawler/indeed_spider.py:236 | the inverse substitution, character by character |
| Listing.PlusForSpaceRoundTrip | crawler/indeed_spider.py:236 | a keyword or location without `+` is recovered from its URL form |
| Listing.PlainQueryShape | crawler/indeed_spider.py:86-94 | the query is q, l, start=10·page, with `fromage` appended exactly when `days_ago` is given and non-zero |
| Listing.FetchRenderedListings | crawler/indeed_spider.py:222-336 | the rendered reader returns what the function `RenderedListings` gives, including an empty list when no selector matches |
| Listing.FetchPlainListings | crawler/indeed_spider.py:81-165 | the plain reader returns what the function `PlainListings` gives, including an empty list on a failed request |
| Listing.RenderedListingsSpec | crawler/indeed_spider.py:222-336 | the rendered reader fails exactly when its URL does not load; otherwise it gives one well-formed record per readable card of the chosen container |
| Listing.PlainListingsSpec | crawler/indeed_spider.py:81-165 | the plain reader turns a failed request into no records; every record it gives is well-formed |
| Details.StrippedTexts | crawler/indeed_spider.py:184 | one stripped text per list item, in order |
| Details.RequirementsInOrder | crawler/indeed_spider.py:181-186 | the requirements are a subsequence of the item texts, in page order |
| Details.RequirementsLong | crawler/indeed_spider.py:185 | every requirement is longer than ten characters |
| Details.RequirementsCount | crawler/indeed_spider.py:181-186 | the filter keeps every item text longer than ten characters: their number equals the count of such texts |
| Details.GetJobDetails | crawler/indeed_spider.py:167-198 | the loop over the list items computes the specified details |
| Details.DetailsSpec | crawler/indeed_spider.py:167-198 | a failed load gives "Failed to fetch" and no requirements; a missing description gives "N/A", otherwise the stripped description; every requirement is long enough and stripped |
| Details.RequirementStripped | crawler/indeed_spider.py:184-186 | every requirement is stripped |
| JobStore.SetFields | crawler/indeed_spider.py:207-212 | `$set` replaces every field the new record carries and keeps the stored details when the new record has none |
| JobStore.UpsertSpec | crawler/indeed_spider.py:200-217 | saving keeps every record under its own id and adds at most the saved id; it leaves every other record alone and puts the saved fields under that id |
| JobStore.UpsertKeys | crawler/indeed_spider.py:205-216 | after a save the ids are the old ones plus the saved one |
| JobStore.UpsertSize | crawler/indeed_spider.py:205-216 | a save grows the collection by one exactly when the id is new |
| JobStore.KeywordsOverwritten | crawler/indeed_spider.py:207-212 | a second save of the same id replaces the keyword list |
| JobStore.KeywordsNotMerged | crawler/indeed_spider.py:207-212 | a job found under two keywords keeps only the last one |
| JobStore.UpsertIdempotent | crawler/indeed_spider.py:200-217 | saving the same record twice is saving it once |
| JobStore.RescrapeTouchesOnlyTimestamp | crawler/indeed_spider.py:207-212 | re-saving an unchanged job changes only its scrape time |
| JobStore.MissingIdsCollapse | crawler/indeed_spider.py:205-216 | records without an id all land on one document, which holds the later one's fields |
| JobStore.JobCollection.constructor | crawler/indeed_spider.py:200-220 | a new collection is empty |
| JobStore.JobCollection.FindOne | crawler/indeed_spider.py:205 | a record is found exactly when its id is stored, and it is the one stored |
| JobStore.JobCollection.Save | crawler/indeed_spider.py:200-217 | the collection after the save is the upsert of the old one |
| Crawl.PagesAt | crawler/indeed_spider.py:351 | one search is pages 0 to n-1, in order |
| Crawl.PlanSize | crawler/indeed_spider.py:346-351 | the plan has keywords × locations × pages searches |
| Crawl.PlanAt | crawler/indeed_spider.py:346-351 | search number (i·L + j)·n + p is keyword i in location j on page p: keyword outermost, page innermost |
| Crawl.FullPlanSize | crawler/indeed_spider.py:28-55 | the crawler makes 315 searches |
| Crawl.CrawlProgress | crawler/indeed_spider.py:346-370 | every search that loads saves all of its listings; the crawl stops exactly at the first search whose page fails to load |
| Crawl.StepCounts | crawler/indeed_spider.py:352-365 | one search adds its page's listing count, or nothing when its page fails or the crawl has stopped |
| Crawl.AbortedStays | crawler/indeed_spider.py:352 | once a page load has failed, nothing further happens |
| Crawl.StopEndsPlan | crawler/indeed_spider.py:346-352 | a failed load part-way through ends the whole plan in the state it reached |
| Crawl.DetailLoadsAreJobLinks | crawler/indeed_spider.py:356-361 | every detail page the crawl loads is a viewjob link |
| Crawl.SaveAllKeys | crawler/indeed_spider.py:356-365 | after a page is saved, the ids are the old ones plus the ids of its listings |
| Crawl.RunKeepsKeyed | crawler/indeed_spider.py:346-365 | the crawl keeps every record under its own id and never loses an id |
| Crawl.DoneIsPrefix | crawler/indeed_spider.py:346-351 | the searches done up to any point of the triple loop are a prefix of the plan |
| Crawl.SavePage | crawler/indeed_spider.py:355-365 | the listing loop saves every listing, enriched from its detail page when it has a link; it counts them all and loads exactly their links |
| Crawl.SearchPage | crawler/indeed_spider.py:352-365 | one page of one search performs the specified step, stopping the crawl when the page fails to load |
| Crawl.SearchPages | crawler/indeed_spider.py:351-365 | the page loop performs pages 0 to n-1, or up to and including the page whose load fails |
| Crawl.CrawlPlan | crawler/indeed_spider.py:346-370 | the triple loop ends in the state of running the whole plan, including an early stop |
| Crawl.CrawlAll | crawler/indeed_spider.py:338-375 | `main` runs the fixed plan of keywords, locations and three pages with a seven-day recency filter |
| JobText.Lines | backend/services/jobParser.js:9 | `split('\n')` always yields at least one line |
| JobText.JoinLines | backend/services/jobParser.js:9-59 | joining the split lines gives back the text |
| JobText.LinesJoin | backend/services/jobParser.js:9-59 | splitting joined newline-free lines gives back the lines |
| JobText.FilterKeeps | backend/services/jobParser.js:15-57 | the filter only drops lines: it keeps a subsequence of its input |
| JobText.FilterKeepsKeepable | backend/services/jobParser.js:15-57 | every line kept is non-blank and is no rating, prompt, insights header or rule |
| JobText.FilterAppend | backend/services/jobParser.js:15-57 | filtering is one pass: filtering a + b is filtering b from where a left off |
| JobText.FilterKeepable | backend/services/jobParser.js:51-56 | keepable lines, outside a skipped section, are all kept |
| JobText.CleanedLines | backend/services/jobParser.js:5-60 | the result's lines are input lines, in input order, each keepable |
| JobText.CleanedIdempotent | backend/services/jobParser.js:5-60 | cleaning a cleaned text changes nothing |
| JobText.SectionHeaderKeepable | backend/services/jobParser.js:41-48 | a section header is never itself dropped |
| JobText.SkippedLines | backend/services/jobParser.js:31-48 | inside a skipped section, every line that is not a header is dropped |
| JobText.InsightsSectionDropped | backend/services/jobParser.js:31-48 | a profile-insights header drops itself and everything up to the next section header; that header is kept |
| JobText.PreprocessJobText | backend/services/jobParser.js:5-60 | the loop computes the specified cleaning, an empty text included |
| Quota.DefaultFeatures | backend/models/Subscription.js:40-54 | GPT-4o is on by default exactly for the paid tiers and o1 exactly for enterprise; o1 implies GPT-4o |
| Quota.ResetSpec | backend/models/Subscription.js:77-91 | on a new calendar day the counters reset to zero; otherwise nothing changes; the reset is idempotent |
| Quota.RemainingSpec | backend/models/Subscription.js:94-105 | remaining uses are 1 minus the day's count for the two GPT-4o actions and 0 for any other action, and can go negative |
| Quota.InactiveDeniesAll | backend/models/Subscription.js:110-117 | an inactive or expired subscription allows nothing and leaves the counters alone |
| Quota.ActivePermissions | backend/models/Subscription.js:120-139 | Gemini, GPT-4o chat, analysis and cover letters are always allowed; o1 only with its feature; unknown actions never |
| Quota.AllowedIffRemaining | backend/models/Subscription.js:120-136 | a GPT-4o résumé analysis or cover letter is allowed exactly when uses remain after the daily reset |
| Quota.RecordedSpec | backend/models/Subscription.js:143-156 | recording adds exactly one to the action's counter (either name of it) and nothing else; an unknown action only resets |
| Quota.RecordedThenRefused | backend/models/Subscription.js:108-156 | after a recorded résumé analysis, another is refused for the rest of that day |
| Quota.NewDayAllowsAgain | backend/models/Subscription.js:77-136 | on a new day the first GPT-4o use is allowed again, with fresh counters |
| Quota.Subscription.constructor | backend/models/Subscription.js:3-74 | schema defaults: active, no end date, Gemini on, GPT-4o and o1 by tier, zero counters |
| Quota.Subscription.CheckAndResetDailyUsage | backend/models/Subscription.js:77-91 | reports whether a new day began and leaves the reset counters |
| Quota.Subscription.GetRemainingUsage | backend/models/Subscription.js:94-105 | resets first, then reports the remaining uses |
| Quota.Subscription.CanPerformAction | backend/models/Subscription.js:108-140 | the answer and the counters left behind are those of the permission rules |
| Quota.Subscription.RecordUsage | backend/models/Subscription.js:143-156 | the counters become those of the recording rule |
| Question.QuestionMatches | backend/services/aiService.js:132 | every match lies inside the reply |
| Question.MatchesSound | backend/services/aiService.js:132 | every match is a run of non-terminators closed by `?`, starting at a boundary |
| Question.MatchesComplete | backend/services/aiService.js:132 | every such run starting at a boundary is a match |
| Question.LastIsRightmost | backend/services/aiService.js:132-136 | the last match ends furthest right |
| Question.ExtractQuestionSpec | backend/services/aiService.js:130-145 | with a question in the reply, the result is the rightmost one, trimmed; without one, it is the last sentence |
| Question.RightmostQuestion | backend/services/aiService.js:132-136 | the last match is the rightmost question run and gives the result |
| Question.NoQuestionRun | backend/services/aiService.js:132-138 | no match means no question run anywhere |
| Question.QuestionEndsWithMark | backend/services/aiService.js:133-136 | a found question, trimmed, ends with `?` |
| Question.SegmentsConcat | backend/services/aiService.js:139 | the split pieces put together are the reply without its terminators |
| Question.LastSentenceSpec | backend/services/aiService.js:139-144 | the fallback is the last non-blank piece, trimmed and free of terminators, or the fixed message when every piece is blank |
| Question.FullWidthMarkIsNotQuestion | backend/services/aiService.js:132-142 | a full-width `？` does not end a question |
| Question.OnlyTerminators | backend/services/aiService.js:139-144 | a reply of terminators only gives the fixed message |
| Assessment.ScoreAt | backend/services/aiService.js:164 | a score match is the label, a colon and digits |
| Assessment.FirstScoreLeftmost | backend/services/aiService.js:164-167 | the score comes from the leftmost match, or is absent when nothing matches |
| Assessment.ScoreRoundTrip | backend/services/aiService.js:164-167 | a score written after the label, in any colon and spacing, is read back |
| Assessment.RecommendationPrecedence | backend/services/aiService.js:170-176 | "不推荐录用" is read as a recommendation; a cautious one is read as cautious or recommended; any verdict needs "推荐" |
| Assessment.HeaderAt | backend/services/aiService.js:179-198 | a header match ends in a colon |
| Assessment.CaptureEnd | backend/services/aiService.js:179-198 | the lazy capture stops at the first stop word, or runs to the end |
| Assessment.Pieces | backend/services/aiService.js:182-193 | the split yields at least one piece |
| Assessment.ItemsSpec | backend/services/aiService.js:182-186 | every item is non-empty, trimmed and free of dashes |
| Assessment.ItemsOfBullets | backend/services/aiService.js:182-186 | items written as dash bullets are read back unchanged |
| Assessment.StrengthsRoundTrip | backend/services/aiService.js:179-187 | a strengths section of dash bullets is read back as the same items |
| Assessment.SectionNone | backend/services/aiService.js:179-198 | a reply without a colon has no section |
| Assessment.MatchFrom | backend/services/aiService.js:201 | every skill match has the pattern's shape |
| Assessment.SkillMatches | backend/services/aiService.js:201 | every global match of the skill pattern is well shaped |
| Assessment.SkillEntryOfMatch | backend/services/aiService.js:203-221 | every match splits at its colon and yields its skill text, trimmed, and its digits, unless it names the overall score or is `__proto__` (whose assignment creates no key) |
| Assessment.ScoreMapLast | backend/services/aiService.js:201-223 | a skill is in the map exactly when an entry names it, with the score of the last such entry |
| Assessment.SkillScoresSpec | backend/services/aiService.js:201-223 | the map never holds the overall score nor `__proto__`; a skill is in it exactly when some match yields it, with the score of its last match |
| Assessment.ExtractEvaluation | backend/services/aiService.js:152-229 | the method computes the specified evaluation |
| Assessment.AddSkillScores | backend/services/aiService.js:203-223 | the `forEach` builds exactly the specified skill map |
| Assessment.NoColonNoVerdict | backend/services/aiService.js:152-229 | a reply without colons and without "推荐" gives the defaults |
| Truncate.Set | backend/services/aiService.js:253-265 | assigning a field keeps every key in place |
| Truncate.GetSet | backend/services/aiService.js:253-265 | reading an assigned field gives the new value; other fields are unchanged |
| Truncate.GetDelete | backend/services/aiService.js:268-331 | a deleted field is gone; other fields are unchanged |
| Truncate.Update | backend/services/aiService.js:253-265 | a field update throws exactly when a cut meets an array, or an object with a numeric `length`, longer than the cap |
| Truncate.CappedSpec | backend/services/aiService.js:253-265 | a capped string keeps its first `limit` characters and adds "..."; a short one is unchanged; capping is idempotent |
| Truncate.UpdateKey | backend/services/aiService.js:253-265 | an updated field holds the step's result |
| Truncate.UpdateOther | backend/services/aiService.js:253-265 | an update leaves the other fields alone |
| Truncate.JobDescriptionCapped | backend/services/aiService.js:253-255 | a job description string is capped at 300 characters |
| Truncate.JobRequirementsCapped | backend/services/aiService.js:258-260 | a requirements array keeps its first five entries |
| Truncate.JobBenefitsCapped | backend/services/aiService.js:263-265 | a benefits string is capped at 150 characters |
| Truncate.JobOthersKept | backend/services/aiService.js:248-265 | every other field, and a capped field of another type, is unchanged |
| Truncate.JobCaps | backend/services/aiService.js:248-271 | the job branch applies the caps; it drops both optional fields exactly when the capped object serialises longer than the limit, and otherwise returns the capped object |
| Truncate.JobThrows | backend/services/aiService.js:248-265 | the job branch throws exactly when the description or the benefits is an array, or an object with a numeric `length`, longer than its cap |
| Truncate.TrimEntries | backend/services/aiService.js:284-299 | trimming entries keeps their number |
| Truncate.TrimEntriesSpec | backend/services/aiService.js:284-324 | every entry is trimmed in place, and the loop throws exactly when an entry does |
| Truncate.TrimEntrySpec | backend/services/aiService.js:288-323 | `null` throws, as does a description that is an overlong array or object with a numeric `length`; an object's string description is capped and, for work experience, its achievements cut to three |
| Truncate.UpdateEachKey | backend/services/aiService.js:284-324 | the array field keeps its first n entries, each trimmed |
| Truncate.UpdateEachOther | backend/services/aiService.js:284-324 | other fields are unchanged |
| Truncate.ResumeWorkCapped | backend/services/aiService.js:284-299 | at most three work-experience entries remain, each trimmed |
| Truncate.ResumeEducationFirst | backend/services/aiService.js:302-308 | education becomes a one-element array of its first entry |
| Truncate.ResumeSkillsCapped | backend/services/aiService.js:311-314 | at most ten skills remain |
| Truncate.ResumeProjectsCapped | backend/services/aiService.js:317-324 | at most two projects remain, each trimmed |
| Truncate.ResumeDroppedAndKept | backend/services/aiService.js:272-332 | the five low-priority fields are gone; every field neither capped nor dropped is unchanged |
| Truncate.ResumeThrows | backend/services/aiService.js:272-332 | the résumé branch throws exactly when a kept work-experience entry or project does |
| Truncate.Trimmed | backend/services/aiService.js:245-333 | other content types pass through; only `null` or an object can throw; a non-object is unchanged; an object stays an object |
| Truncate.TrimEach | backend/services/aiService.js:286-297 | the `forEach` over entries computes the specified trimming |
| Truncate.CapField | backend/services/aiService.js:284-324 | the in-place slice and `forEach` compute the specified field update |
| Truncate.ResumeInPlace | backend/services/aiService.js:272-332 | the sequence of in-place updates and deletes computes the specified résumé trimming |
| Truncate.TruncateContent | backend/services/aiService.js:241-338 | short content is returned as is; unparsable or throwing content gives undefined; otherwise the trimmed document is re-serialised |

## Left out

- Network, browser and database I/O are not modelled. Pages are maps from URL (or query) to a parsed page, and a missing key is a failed load. The collection is a map keyed by `job_id`. The HTML parser and CSS engine are represented only by the answers of the selectors the crawler uses.
- Exceptions inside `save_to_mongodb` (caught and printed) are not modelled: the store never fails.
- `time.sleep`, `random.uniform`, the browser driver's lifecycle, the page-title check and every `print` are left out. None affects a result.
- The clock is a parameter: `datetime.now().isoformat()` is the page's clock reading, and `Date.now()` is the `now` argument in milliseconds.
- `urlencode`'s percent-encoding of the plain reader's query is not modelled. The query is kept as its ordered parameter list.
- Python's `str.lower`, `strip` and `\d`/`\s` are modelled over ASCII (plus the whitespace characters Python strips). JavaScript's `trim` and `\s` use the ECMAScript whitespace set, but Unicode case folding is not modelled.
- Quota.DayOf: `toDateString()` compares calendar days in the server's local time zone. The model uses UTC days (milliseconds / 86 400 000).
- Quota.Subscription: the Mongoose schema validation is not modelled. That includes required fields, enum checks, and the payment id being required except on the free tier. The predicate `PaymentIdValid` states that rule but nothing enforces it. Persistence (`save`) is not modelled either.
- Assessment.ExtractEvaluation: its `catch` branch is not modelled, because nothing inside the modelled `try` can throw. `parseInt` is exact on the digits, with no loss of precision beyond 2^53.
- Truncate: `JSON.parse` and `JSON.stringify` are parameters. Lengths are counted in characters, not UTF-16 code units, and numbers are not modelled as doubles. An object's numeric `length` property is compared with the cap as the source does, and an object that passes the test throws. For an object with duplicate keys, reads see the first occurrence.
- Truncate.Update: the source compares an object's `length` after JavaScript's number conversion. A `length` that is a numeric string or a one-element array of a number above the cap (`{"length":"400"}`) passes the test and throws in the source. The model keeps such an object unchanged. The same gap applies to Truncate.JobThrows and Truncate.TrimEntrySpec.
- Truncate.TruncateContent: the in-place mutation of the parsed object is modelled on values. The parsed tree is fresh and unshared, so no aliasing is lost.
- A failed browser load is not caught: `get_job_listings_selenium` has only `try`/`finally` around it (crawler/indeed_spider.py:232-336), so the exception ends `main`. Crawl.CrawlPlan therefore stops the whole crawl at the first failed search page.
- The link is built when `job_id` is truthy (present and non-empty), as the code does, not merely when it is present.
- These are not part of this model: `parseJobDescription` in the job parser, the other AI-service functions (`generateInitialContext`, `generateAIResponse`, `robustAIRequest`, `extractJsonFromText`) and the unused `criticalFields` lists in `truncateContent`. The defaults of `truncateContent`'s parameters (6000, "generic") are not modelled; the callers pass both.
