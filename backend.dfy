/**
 * The API server's job table: the module-level `jobs_storage` list and
 * `job_counter`, and the handlers that read and change them. Each handler
 * returns a response value (the JSON body and status it sends); HTTP, Flask
 * routing and JSON encoding are not modelled.
 */
module Backend {
  import opened Wrappers
  import opened Strings
  import Decimal
  import Seqs
  import opened Jobs
  import RunScraper

  /** The query string of `GET /jobs`: `request.args.get(name)` for each name, `None` when absent. */
  datatype Query = Query(
    title: Option<string>,
    company: Option<string>,
    location: Option<string>,
    jobType: Option<string>,
    tags: Option<string>,
    sort: Option<string>)

  function FilterOf(q: Query): Filter {
    Filter(q.title, q.company, q.location, q.jobType, q.tags)
  }

  /** Ordering by the `posting_date` string, oldest first. */
  predicate PostedNoLater(a: Job, b: Job) {
    StrLe(a.postingDate, b.postingDate)
  }

  /** Ordering by the `posting_date` string, newest first (`reverse=True`). */
  predicate PostedNoEarlier(a: Job, b: Job) {
    StrLe(b.postingDate, a.postingDate)
  }

  /** `sort` (default `posting_date_desc`): ascending only for `posting_date_asc`, descending otherwise. */
  function Order(sort: Option<string>): (Job, Job) -> bool {
    if sort == Some("posting_date_asc") then PostedNoLater else PostedNoEarlier
  }

  lemma OrderIsTotalPreorder(sort: Option<string>)
    ensures Seqs.Total(Order(sort)) && Seqs.Transitive(Order(sort))
  {
    var le := Order(sort);
    forall a: Job, b: Job ensures le(a, b) || le(b, a) {
      StrLeTotal(a.postingDate, b.postingDate);
    }
    forall a: Job, b: Job, c: Job | le(a, b) && le(b, c) ensures le(a, c) {
      if sort == Some("posting_date_asc") {
        StrLeTransitive(a.postingDate, b.postingDate, c.postingDate);
      } else {
        StrLeTransitive(c.postingDate, b.postingDate, a.postingDate);
      }
    }
  }

  /** A create or update body: each key of the JSON object, `None` when it is absent. */
  datatype JobInput = JobInput(
    title: Option<string>,
    company: Option<string>,
    location: Option<string>,
    jobType: Option<string>,
    tags: Option<seq<string>>,
    description: Option<string>)

  /** The first of `title`, `company`, `location` (in that order) that is absent or empty. */
  function FirstMissing(data: JobInput): (field: Option<string>)
    ensures field.None? <==> Truthy(data.title) && Truthy(data.company) && Truthy(data.location)
    ensures field.Some? ==> field.value in ["title", "company", "location"]
  {
    if !Truthy(data.title) then Some("title")
    else if !Truthy(data.company) then Some("company")
    else if !Truthy(data.location) then Some("location")
    else None
  }

  const DefaultJobType := "Full-time"

  /** The record `create_job` stores for valid input: the next id, the given fields, defaults for the rest. */
  function NewJob(data: JobInput, counter: nat, now: string): (j: Job)
    requires FirstMissing(data).None?
    ensures j.id == Decimal.NatToString(counter) && j.postingDate == now
    ensures j.title == data.title.value && j.company == data.company.value && j.location == data.location.value
    ensures j.jobType == data.jobType.GetOr(DefaultJobType)
    ensures j.tags == data.tags.GetOr([]) && j.description == data.description.GetOr("")
  {
    Job(Decimal.NatToString(counter), data.title.value, data.company.value, data.location.value,
        data.jobType.GetOr(DefaultJobType), data.tags.GetOr([]), now, data.description.GetOr(""))
  }

  /** `update_job`'s in-place update: keys present in the body overwrite, absent keys keep their value. */
  function Patched(j: Job, data: JobInput): (r: Job)
    ensures r.id == j.id && r.postingDate == j.postingDate
    ensures data.title.Some? ==> r.title == data.title.value
    ensures data.title.None? ==> r.title == j.title
    ensures data.company.Some? ==> r.company == data.company.value
    ensures data.company.None? ==> r.company == j.company
    ensures data.location.Some? ==> r.location == data.location.value
    ensures data.location.None? ==> r.location == j.location
    ensures data.jobType.Some? ==> r.jobType == data.jobType.value
    ensures data.jobType.None? ==> r.jobType == j.jobType
    ensures data.tags.Some? ==> r.tags == data.tags.value
    ensures data.tags.None? ==> r.tags == j.tags
    ensures data.description.Some? ==> r.description == data.description.value
    ensures data.description.None? ==> r.description == j.description
    ensures data == JobInput(None, None, None, None, None, None) ==> r == j
  {
    j.(title := data.title.GetOr(j.title),
       company := data.company.GetOr(j.company),
       location := data.location.GetOr(j.location),
       jobType := data.jobType.GetOr(j.jobType),
       tags := data.tags.GetOr(j.tags),
       description := data.description.GetOr(j.description))
  }

  /** Sending the same update twice has the effect of sending it once. */
  lemma PatchedIdempotent(j: Job, data: JobInput)
    ensures Patched(Patched(j, data), data) == Patched(j, data)
  {
  }

  /** What a handler answers, with the HTTP status `Status` gives it. */
  datatype Response =
    | Found(job: Job)           // 200, the job
    | Created(job: Job)         // 201, the new job
    | Deleted                   // 204, empty body
    | NotFound                  // 404, "Job not found"
    | Missing(field: string)    // 400, "<field> is required"

  function Status(r: Response): nat {
    match r
    case Found(_) => 200
    case Created(_) => 201
    case Deleted => 204
    case NotFound => 404
    case Missing(_) => 400
  }

  function ErrorText(r: Response): Option<string> {
    match r
    case NotFound => Some("Job not found")
    case Missing(field) => Some(field + " is required")
    case _ => None
  }

  /** Scraped jobs as the table stores them: job `i` gets the id `str(counter + i)`. */
  function Renumbered(scraped: seq<Job>, counter: nat): (r: seq<Job>)
    ensures |r| == |scraped|
    ensures forall i :: 0 <= i < |r| ==> r[i] == scraped[i].(id := Decimal.NatToString(counter + i))
  {
    seq(|scraped|, i requires 0 <= i < |scraped| => scraped[i].(id := Decimal.NatToString(counter + i)))
  }

  /**
   * `json.loads(result.stdout)`: it accepts exactly one JSON document. A
   * progress line is text that begins with a capital letter, which cannot
   * begin a JSON value, so any progress line makes it fail, as do an empty
   * output and a second document.
   */
  function Loads(stdout: seq<RunScraper.Line>): (r: Option<RunScraper.Envelope>)
    ensures r.Some? <==> |stdout| == 1 && stdout[0].EnvelopeJson?
  {
    if |stdout| == 1 && stdout[0].EnvelopeJson? then Some(stdout[0].envelope) else None
  }

  /** Why `POST /scrape-jobs` answered 500. */
  datatype ScrapeError =
    | Timeout                          // the 300-second limit expired
    | ProcessFailed(stderr: string)    // non-zero exit: "Scraper failed: <stderr>"
    | NotJson                          // `json.loads` raised
    | Reported(error: Option<string>)  // the envelope said `success: false`; `None`: it had no `error` key

  datatype ScrapeResponse = ScrapeAdded(jobs: seq<Job>) | ScrapeFailed(error: ScrapeError)

  /** The `message` of a successful scrape response; `jobs_added` is the number of jobs. */
  function AddedMessage(added: seq<Job>): string {
    "Successfully scraped " + Decimal.NatToString(|added|) + " jobs"
  }

  /**
   * The branch of `scrape_jobs` after the subprocess: the new table, the new
   * counter and the response, for the table `jobs` with counter `counter`.
   */
  function ScrapeRouteSpec(jobs: seq<Job>, counter: nat, result: RunScraper.Process): (seq<Job>, nat, ScrapeResponse)
  {
    match result
    case TimedOut => (jobs, counter, ScrapeFailed(Timeout))
    case Completed(code, stdout, stderr) =>
      if code != 0 then (jobs, counter, ScrapeFailed(ProcessFailed(stderr)))
      else
        match Loads(stdout)
        case None => (jobs, counter, ScrapeFailed(NotJson))
        case Some(env) =>
          if env.success then
            var added := Renumbered(env.jobs, counter);
            (jobs + added, counter + |env.jobs|, ScrapeAdded(added))
          else (jobs, counter, ScrapeFailed(Reported(env.error)))
  }

  /** A failed scrape, for whatever reason, leaves the table and the counter as they were. */
  lemma FailedScrapeChangesNothing(jobs: seq<Job>, counter: nat, result: RunScraper.Process)
    requires ScrapeRouteSpec(jobs, counter, result).2.ScrapeFailed?
    ensures ScrapeRouteSpec(jobs, counter, result).0 == jobs && ScrapeRouteSpec(jobs, counter, result).1 == counter
  {
  }

  /** The path of the scraper script, as `os.path.join` builds it next to the server. */
  const ScraperPath := "../scraper/run_scraper.py"

  /** The arguments the script sees: `max_jobs` from the request body (default 20), as decimal text. */
  function ScraperArgv(maxJobs: Option<int>): seq<string> {
    [ScraperPath, Decimal.IntToString(maxJobs.GetOr(20))]
  }

  /** The number the server asks for is the number the script uses. */
  lemma ScraperArgvRoundTrip(maxJobs: Option<int>)
    ensures RunScraper.MaxJobsArg(ScraperArgv(maxJobs)) == maxJobs.GetOr(20)
  {
    RunScraper.MaxJobsArgSpec(ScraperPath, maxJobs.GetOr(20), [], "");
    assert [ScraperPath, Decimal.IntToString(maxJobs.GetOr(20))] + [] == ScraperArgv(maxJobs);
  }

  /** An id `create_job` or a scrape has handed out before the counter reached `counter`. */
  ghost predicate Issued(id: string, counter: nat) {
    exists n: nat :: n < counter && id == Decimal.NatToString(n)
  }

  /** The next id is none of the ids already handed out. */
  lemma NextIdIsFresh(jobs: seq<Job>, counter: nat)
    requires forall i :: 0 <= i < |jobs| ==> Issued(jobs[i].id, counter)
    ensures forall i :: 0 <= i < |jobs| ==> jobs[i].id != Decimal.NatToString(counter)
  {
    forall i | 0 <= i < |jobs| ensures jobs[i].id != Decimal.NatToString(counter) {
      var n: nat :| n < counter && jobs[i].id == Decimal.NatToString(n);
      if jobs[i].id == Decimal.NatToString(counter) {
        Decimal.NatToStringInjective(n, counter);
      }
    }
  }

  /** `initial_jobs`, loaded into the table when the server starts. */
  const InitialJobs: seq<Job> := [
    Job("1", "Senior React Developer", "TechCorp Solutions", "Lahore", "Full-time",
        ["React", "TypeScript", "Node.js"], "2024-01-15T10:00:00Z",
        "We are looking for an experienced React developer to join our team."),
    Job("2", "UI/UX Designer", "Design Studio", "Remote", "Part-time",
        ["Figma", "Adobe XD", "Prototyping"], "2024-01-14T09:30:00Z",
        "Create beautiful and intuitive user interfaces for web and mobile applications.")
  ]

  class JobStore {
    /** `jobs_storage` */
    var jobs: seq<Job>
    /** `job_counter`: the number the next stored job's id is made from */
    var counter: nat

    /** Ids are distinct, and each is the decimal text of a number the counter has passed. */
    ghost predicate Valid()
      reads this
    {
      && DistinctIds(jobs)
      && (forall i :: 0 <= i < |jobs| ==> Issued(jobs[i].id, counter))
    }

    /** The module's start-up: the two initial jobs, and the counter one past them. */
    constructor ()
      ensures Valid()
      ensures jobs == InitialJobs && counter == |InitialJobs| + 1 == 3
    {
      jobs := InitialJobs;
      counter := |InitialJobs| + 1;
      assert Decimal.NatToString(1) == "1" && Decimal.NatToString(2) == "2";
      assert Issued(InitialJobs[0].id, 3) && Issued(InitialJobs[1].id, 3);
    }

    /**
     * `GET /jobs`: the stored jobs that pass the filters, sorted by posting
     * date; jobs with the same date keep their stored order, as `list.sort`
     * is stable. The table is only read.
     */
    function GetJobs(q: Query): (r: seq<Job>)
      reads this
      ensures multiset(r) == multiset(FilterJobs(jobs, FilterOf(q)))
      ensures Seqs.SortedBy(r, Order(q.sort))
      ensures forall y :: Seqs.Keep(r, Seqs.Tied(Order(q.sort), y)) == Seqs.Keep(FilterJobs(jobs, FilterOf(q)), Seqs.Tied(Order(q.sort), y))
    {
      OrderIsTotalPreorder(q.sort);
      var passed := FilterJobs(jobs, FilterOf(q));
      forall y ensures Seqs.Keep(Seqs.SortBy(passed, Order(q.sort)), Seqs.Tied(Order(q.sort), y)) == Seqs.Keep(passed, Seqs.Tied(Order(q.sort), y)) {
        Seqs.SortByStable(passed, Order(q.sort), y);
      }
      Seqs.SortBy(passed, Order(q.sort))
    }

    /** `GET /jobs/<id>`: the first stored job with that id, or 404. */
    function GetJob(id: string): (r: Response)
      reads this
      ensures r.Found? || r == NotFound
      ensures r.Found? <==> exists i :: 0 <= i < |jobs| && jobs[i].id == id
      ensures r.Found? ==> r.job in jobs && r.job.id == id
      ensures r.Found? ==> FindById(jobs, id).Some? && r.job == jobs[FindById(jobs, id).value]
    {
      match FindById(jobs, id)
      case None => NotFound
      case Some(k) => Found(jobs[k])
    }

    /**
     * `POST /jobs`: with `title`, `company` and `location` all given, store a
     * new job under the next id and advance the counter; otherwise answer 400
     * for the first one missing and change nothing.
     */
    method CreateJob(data: JobInput, now: string) returns (resp: Response)
      requires Valid()
      modifies this
      ensures Valid()
      ensures FirstMissing(data).Some? ==>
                resp == Missing(FirstMissing(data).value) && jobs == old(jobs) && counter == old(counter)
      ensures FirstMissing(data).None? ==>
                resp == Created(NewJob(data, old(counter), now)) &&
                jobs == old(jobs) + [resp.job] && counter == old(counter) + 1
    {
      var missing := FirstMissing(data);
      if missing.Some? {
        return Missing(missing.value);
      }
      var job := NewJob(data, counter, now);
      NextIdIsFresh(jobs, counter);
      jobs := jobs + [job];
      counter := counter + 1;
      resp := Created(job);
      forall i | 0 <= i < |jobs| ensures Issued(jobs[i].id, counter) {
        if i < |jobs| - 1 {
          var n: nat :| n < counter - 1 && jobs[i].id == Decimal.NatToString(n);
          assert n < counter && jobs[i].id == Decimal.NatToString(n);
        } else {
          assert counter - 1 < counter && jobs[i].id == Decimal.NatToString(counter - 1);
        }
      }
    }

    /**
     * `PUT /jobs/<id>`: patch the first job with that id in place and answer
     * with it; an unknown id is 404 and changes nothing.
     */
    method UpdateJob(id: string, data: JobInput) returns (resp: Response)
      requires Valid()
      modifies this
      ensures Valid() && counter == old(counter)
      ensures FindById(old(jobs), id).None? ==> resp == NotFound && jobs == old(jobs)
      ensures FindById(old(jobs), id).Some? ==>
                var k := FindById(old(jobs), id).value;
                jobs == old(jobs)[k := Patched(old(jobs)[k], data)] && resp == Found(jobs[k])
    {
      var found := FindById(jobs, id);
      if found.None? {
        return NotFound;
      }
      var k := found.value;
      jobs := jobs[k := Patched(jobs[k], data)];
      resp := Found(jobs[k]);
      assert forall i :: 0 <= i < |jobs| ==> jobs[i].id == old(jobs)[i].id;
    }

    /**
     * `DELETE /jobs/<id>`: drop every job with that id, keeping the others in
     * order; an unknown id is 404 and changes nothing.
     */
    method DeleteJob(id: string) returns (resp: Response)
      requires Valid()
      modifies this
      ensures Valid() && counter == old(counter)
      ensures FindById(old(jobs), id).None? ==> resp == NotFound && jobs == old(jobs)
      ensures FindById(old(jobs), id).Some? ==>
                resp == Deleted && jobs == WithoutId(old(jobs), id) && |jobs| == |old(jobs)| - 1
    {
      if FindById(jobs, id).None? {
        return NotFound;
      }
      WithoutPresentId(jobs, id);
      ghost var before := jobs;
      jobs := WithoutId(jobs, id);
      resp := Deleted;
      forall i, j | 0 <= i < j < |jobs| ensures jobs[i].id != jobs[j].id {
        WithoutIdOrder(before, id, i, j);
      }
      forall i | 0 <= i < |jobs| ensures Issued(jobs[i].id, counter) {
        assert jobs[i] in before;
      }
    }

    /** The loop over the scraped jobs: each gets the next id and is appended, in order. */
    method AddScraped(scraped: seq<Job>) returns (added: seq<Job>)
      requires Valid()
      modifies this
      ensures Valid()
      ensures added == Renumbered(scraped, old(counter))
      ensures jobs == old(jobs) + added && counter == old(counter) + |scraped|
    {
      added := [];
      var i := 0;
      while i < |scraped|
        invariant 0 <= i <= |scraped|
        invariant added == Renumbered(scraped, old(counter))[..i]
        invariant jobs == old(jobs) + added && counter == old(counter) + i
        invariant Valid()
      {
        var job := scraped[i].(id := Decimal.NatToString(counter));
        NextIdIsFresh(jobs, counter);
        ghost var before := jobs;
        jobs := jobs + [job];
        added := added + [job];
        counter := counter + 1;
        forall k | 0 <= k < |jobs| ensures Issued(jobs[k].id, counter) {
          if k < |before| {
            assert jobs[k] == before[k];
            var n: nat :| n < counter - 1 && jobs[k].id == Decimal.NatToString(n);
            assert n < counter && jobs[k].id == Decimal.NatToString(n);
          } else {
            assert counter - 1 < counter && jobs[k].id == Decimal.NatToString(counter - 1);
          }
        }
        i := i + 1;
      }
    }

    /** `POST /scrape-jobs`, from the finished (or timed-out) scraper process on. */
    method ScrapeJobs(result: RunScraper.Process) returns (resp: ScrapeResponse)
      requires Valid()
      modifies this
      ensures Valid()
      ensures (jobs, counter, resp) == ScrapeRouteSpec(old(jobs), old(counter), result)
    {
      match result
      case TimedOut =>
        resp := ScrapeFailed(Timeout);
      case Completed(code, stdout, stderr) =>
        if code != 0 {
          resp := ScrapeFailed(ProcessFailed(stderr));
        } else {
          var output := Loads(stdout);
          if output.None? {
            resp := ScrapeFailed(NotJson);
          } else if output.value.success {
            var added := AddScraped(output.value.jobs);
            resp := ScrapeAdded(added);
          } else {
            resp := ScrapeFailed(Reported(output.value.error));
          }
        }
    }
  }

  /** `GET /jobs` returns exactly the stored jobs that pass the filters in force, each as often as it is stored. */
  lemma GetJobsMembers(store: JobStore, q: Query, x: Job)
    ensures multiset(store.GetJobs(q))[x] == if Admits(FilterOf(q), x) then multiset(store.jobs)[x] else 0
    ensures x in store.GetJobs(q) <==> x in store.jobs && Admits(FilterOf(q), x)
  {
    FilterJobsCount(store.jobs, FilterOf(q), x);
  }

  /** A job stored under the next id is the one `GET /jobs/<id>` finds for that id. */
  lemma CreatedJobIsFound(jobs: seq<Job>, counter: nat, job: Job)
    requires forall i :: 0 <= i < |jobs| ==> Issued(jobs[i].id, counter)
    requires job.id == Decimal.NatToString(counter)
    ensures FindById(jobs + [job], job.id) == Some(|jobs|)
  {
    NextIdIsFresh(jobs, counter);
    var all := jobs + [job];
    assert all[|jobs|].id == job.id;
    assert forall i :: 0 <= i < |jobs| ==> all[i].id != job.id by {
      forall i | 0 <= i < |jobs| ensures all[i].id != job.id {
        assert all[i] == jobs[i];
      }
    }
  }

  /** After `DELETE /jobs/<id>` no job with that id is left. */
  lemma DeletedIsGone(jobs: seq<Job>, id: string)
    ensures FindById(WithoutId(jobs, id), id).None?
  {
    var rest := WithoutId(jobs, id);
    forall i | 0 <= i < |rest| ensures rest[i].id != id {
      assert rest[i] in rest;
    }
  }

  /** Removing an id keeps the survivors in their relative order, so distinct ids stay distinct. */
  lemma {:induction false} WithoutIdOrder(jobs: seq<Job>, id: string, i: nat, j: nat)
    requires DistinctIds(jobs)
    requires i < j < |WithoutId(jobs, id)|
    ensures WithoutId(jobs, id)[i].id != WithoutId(jobs, id)[j].id
  {
    assert jobs == [jobs[0]] + jobs[1..];
    WithoutIdAppend([jobs[0]], jobs[1..], id);
    var rest := WithoutId(jobs[1..], id);
    if jobs[0].id == id {
      assert WithoutId([jobs[0]], id) == [];
      WithoutIdOrder(jobs[1..], id, i, j);
    } else {
      assert WithoutId([jobs[0]], id) == [jobs[0]];
      assert WithoutId(jobs, id) == [jobs[0]] + rest;
      if i == 0 {
        assert WithoutId(jobs, id)[j] in jobs[1..];
      } else {
        WithoutIdOrder(jobs[1..], id, i - 1, j - 1);
      }
    }
  }
}
