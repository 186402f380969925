/** `save_to_mongodb` of the Indeed crawler: the jobs collection as a map from
    `job_id` to the stored record, updated by "find by id, then `$set` or
    insert". A record whose id is None is stored under the key None, so all
    such records land on one document. */
module JobStore {
  import opened Wrappers
  import opened Listing

  type Records = map<Option<string>, JobListing>

  /** Every stored record sits under its own id. */
  predicate Keyed(records: Records)
  {
    forall k | k in records :: records[k].jobId == k
  }

  /** `$set` with the whole new record: every field the new record carries
      replaces the stored one; the detail fields, which a record only carries
      once its detail page was merged in, are kept from the stored document
      when the new record lacks them. */
  function SetFields(stored: JobListing, job: JobListing): (r: JobListing)
    ensures r.(details := None) == job.(details := None)
    ensures job.details.Some? ==> r.details == job.details
    ensures job.details.None? ==> r.details == stored.details
  {
    job.(details := if job.details.Some? then job.details else stored.details)
  }

  /** The collection after saving `job`. */
  function Upsert(records: Records, job: JobListing): Records
  {
    if job.jobId in records then records[job.jobId := SetFields(records[job.jobId], job)]
    else records[job.jobId := job]
  }

  /** Saving keeps every record under its id, adds at most the saved id, and
      leaves every other record alone; the record under the saved id now
      carries the saved fields. */
  lemma UpsertSpec(records: Records, job: JobListing)
    requires Keyed(records)
    ensures var after := Upsert(records, job);
            && Keyed(after)
            && after.Keys == records.Keys + {job.jobId}
            && |after| == |records| + (if job.jobId in records then 0 else 1)
            && (forall k | k in records && k != job.jobId :: after[k] == records[k])
            && after[job.jobId].(details := None) == job.(details := None)
  {
    UpsertKeyed(records, job);
    UpsertKeys(records, job);
    UpsertSize(records, job);
    UpsertOthers(records, job);
  }

  lemma UpsertKeyed(records: Records, job: JobListing)
    requires Keyed(records)
    ensures Keyed(Upsert(records, job))
  {
    var id := job.jobId;
    if id in records {
      assert SetFields(records[id], job).jobId == id;
    }
  }

  lemma UpsertSize(records: Records, job: JobListing)
    ensures |Upsert(records, job)| == |records| + (if job.jobId in records then 0 else 1)
  {
    var id := job.jobId;
    if id in records {
      assert Upsert(records, job).Keys == records.Keys;
    }
  }

  lemma UpsertOthers(records: Records, job: JobListing)
    ensures forall k | k in records && k != job.jobId :: Upsert(records, job)[k] == records[k]
    ensures Upsert(records, job)[job.jobId].(details := None) == job.(details := None)
  {
  }

  lemma UpsertKeys(records: Records, job: JobListing)
    ensures Upsert(records, job).Keys == records.Keys + {job.jobId}
  {
  }

  /** A second save of the same id overwrites the keyword list instead of
      merging it: a job found under two search keywords keeps only the last. */
  lemma KeywordsOverwritten(records: Records, first: JobListing, second: JobListing)
    requires first.jobId == second.jobId
    ensures Upsert(Upsert(records, first), second)[second.jobId].keywords == second.keywords
  {
  }

  lemma KeywordsNotMerged(records: Records, first: JobListing, k1: string, k2: string)
    requires k1 != k2
    ensures var second := first.(keywords := [k2]);
            Upsert(Upsert(records, first.(keywords := [k1])), second)[first.jobId].keywords == [k2]
            && k1 !in Upsert(Upsert(records, first.(keywords := [k1])), second)[first.jobId].keywords
  {
  }

  /** Saving the same record twice is saving it once. */
  lemma UpsertIdempotent(records: Records, job: JobListing)
    ensures Upsert(Upsert(records, job), job) == Upsert(records, job)
  {
  }

  /** Re-scraping an unchanged job changes only its timestamp. */
  lemma RescrapeTouchesOnlyTimestamp(records: Records, job: JobListing, clock: string)
    ensures var once := Upsert(records, job);
            Upsert(once, job.(scrapedDate := clock))
            == once[job.jobId := once[job.jobId].(scrapedDate := clock)]
  {
  }

  /** Every record without an id lands on the same document: two of them
      leave one record, the later one's fields. */
  lemma MissingIdsCollapse(records: Records, a: JobListing, b: JobListing)
    requires Keyed(records) && a.jobId == None && b.jobId == None
    ensures var after := Upsert(Upsert(records, a), b);
            && after.Keys == records.Keys + {None}
            && after[None].(details := None) == b.(details := None)
  {
  }

  /** The collection the crawler writes to. */
  class JobCollection {
    var records: Records

    ghost predicate Valid()
      reads this
    {
      Keyed(records)
    }

    constructor ()
      ensures Valid() && records == map[]
    {
      records := map[];
    }

    /** `find_one({'job_id': id})`. */
    function FindOne(id: Option<string>): (r: Option<JobListing>)
      reads this
      requires Valid()
      ensures r.Some? <==> id in records
      ensures r.Some? ==> r.value.jobId == id && r.value == records[id]
    {
      if id in records then Some(records[id]) else None
    }

    method Save(job: JobListing)
      requires Valid()
      modifies this
      ensures Valid()
      ensures records == Upsert(old(records), job)
    {
      var existing := FindOne(job.jobId);
      if existing.Some? {
        records := records[job.jobId := SetFields(existing.value, job)];
      } else {
        records := records[job.jobId := job];
      }
    }
  }
}
