/**
 * The list logic of the client's top component `App.jsx`: the filtered and
 * sorted view of the jobs, and the list transitions of the handlers when the
 * API server cannot be reached (delete, edit and create in local state, and
 * the simulated scrape). Posting dates are compared as the timestamps
 * `new Date(date).getTime()` gives; that parse is the parameter `time`.
 */
module App {
  import opened Wrappers
  import Decimal
  import Strings
  import Seqs
  import opened JsObject
  import opened Jobs
  import opened JobFilters
  import JobForm
  import opened Api

  /** The filter object at start-up and after "Clear All": newest first, nothing else. */
  const ClearedFilters: Filters := [(Sort, Some(NewestFirst))]

  /** `handleClearFilters` */
  function ClearFilters(): (f: Filters)
    ensures f == [(Sort, Some("posting_date_desc"))]
    ensures !HasActiveFilters(f)
  {
    ClearedFilters
  }

  /** Sorting oldest first is a filter in force, so "Clear All" shows. */
  lemma OldestFirstIsActive()
    ensures HasActiveFilters([(Sort, Some("posting_date_asc"))])
  {
    assert ActiveValue(Some("posting_date_asc"));
  }

  /** The five list filters as the filter object holds them. */
  function ClientFilter(filters: Filters): Filter {
    Filter(Get(filters, Title), Get(filters, Company), Get(filters, Location), Get(filters, JobType), Get(filters, Tags))
  }

  const OldestFirst := "posting_date_asc"

  /** The comparator of the sort: ascending timestamps for `posting_date_asc`, descending otherwise. */
  function ClientOrder(sort: Option<string>, time: string -> int): (Job, Job) -> bool {
    if sort == Some(OldestFirst) then
      (a: Job, b: Job) => time(a.postingDate) <= time(b.postingDate)
    else
      (a: Job, b: Job) => time(b.postingDate) <= time(a.postingDate)
  }

  lemma ClientOrderIsTotalPreorder(sort: Option<string>, time: string -> int)
    ensures Seqs.Total(ClientOrder(sort, time)) && Seqs.Transitive(ClientOrder(sort, time))
  {
    var le := ClientOrder(sort, time);
    if sort == Some(OldestFirst) {
      assert forall a: Job, b: Job :: le(a, b) <==> time(a.postingDate) <= time(b.postingDate);
    } else {
      assert forall a: Job, b: Job :: le(a, b) <==> time(b.postingDate) <= time(a.postingDate);
    }
  }

  /**
   * `applyFilters`: the jobs that pass every filter in force, each as often as
   * it is listed, ordered by posting time; jobs with the same time keep their
   * listed order, as `Array.prototype.sort` is stable. It reads `jobs` and
   * returns a new list; the list it was given is not touched.
   */
  function ApplyFilters(jobs: seq<Job>, filters: Filters, time: string -> int): (shown: seq<Job>)
    ensures multiset(shown) == multiset(FilterJobs(jobs, ClientFilter(filters)))
    ensures Seqs.SortedBy(shown, ClientOrder(Get(filters, Sort), time))
    ensures forall y :: Seqs.Keep(shown, Seqs.Tied(ClientOrder(Get(filters, Sort), time), y)) ==
                        Seqs.Keep(FilterJobs(jobs, ClientFilter(filters)), Seqs.Tied(ClientOrder(Get(filters, Sort), time), y))
  {
    var order := ClientOrder(Get(filters, Sort), time);
    var passed := FilterJobs(jobs, ClientFilter(filters));
    ClientOrderIsTotalPreorder(Get(filters, Sort), time);
    forall y ensures Seqs.Keep(Seqs.SortBy(passed, order), Seqs.Tied(order, y)) == Seqs.Keep(passed, Seqs.Tied(order, y)) {
      Seqs.SortByStable(passed, order, y);
    }
    Seqs.SortBy(passed, order)
  }

  /** The shown jobs are exactly the listed jobs that pass the filters, so they are a sub-multiset of the list. */
  lemma ApplyFiltersMembers(jobs: seq<Job>, filters: Filters, time: string -> int, x: Job)
    ensures multiset(ApplyFilters(jobs, filters, time))[x] ==
              if Admits(ClientFilter(filters), x) then multiset(jobs)[x] else 0
    ensures multiset(ApplyFilters(jobs, filters, time)) <= multiset(jobs)
  {
    forall y {
      FilterJobsCount(jobs, ClientFilter(filters), y);
    }
  }

  /** `jobs.filter((job) => job.id !== id)`, the local delete. */
  function DeleteLocally(jobs: seq<Job>, id: string): (r: seq<Job>)
    ensures forall x :: multiset(r)[x] == if x.id == id then 0 else multiset(jobs)[x]
  {
    forall x {
      WithoutIdCount(jobs, id, x);
    }
    WithoutId(jobs, id)
  }

  /** `{ ...editingJob, ...formData, tags: <parsed> }`: the form's fields over the job being edited. */
  function EditedJob(editing: Job, form: JobForm.FormData): (j: Job)
    ensures j.id == editing.id && j.postingDate == editing.postingDate
    ensures j.title == form.title && j.company == form.company && j.location == form.location
    ensures j.jobType == form.jobType && j.description == form.description
    ensures j.tags == ParseTags(form.tags)
  {
    editing.(title := form.title, company := form.company, location := form.location,
             jobType := form.jobType, tags := ParseTags(form.tags), description := form.description)
  }

  /** The local update: every job with the edited job's id is replaced; the length and all ids stay. */
  function UpdateLocally(jobs: seq<Job>, editing: Job, form: JobForm.FormData): (r: seq<Job>)
    ensures |r| == |jobs|
    ensures forall i :: 0 <= i < |jobs| ==> r[i].id == jobs[i].id
    ensures forall i :: 0 <= i < |jobs| ==>
              r[i] == if jobs[i].id == editing.id then EditedJob(editing, form) else jobs[i]
  {
    seq(|jobs|, i requires 0 <= i < |jobs| => if jobs[i].id == editing.id then EditedJob(editing, form) else jobs[i])
  }

  /**
   * Opening a job for editing and saving without touching a field leaves the
   * list as it was, when its tags are clean and its id is unique in the list.
   */
  lemma EditWithoutChanges(jobs: seq<Job>, k: nat)
    requires DistinctIds(jobs) && k < |jobs|
    requires forall t :: 0 <= t < |jobs[k].tags| ==> CleanTag(jobs[k].tags[t])
    ensures UpdateLocally(jobs, jobs[k], JobForm.Prefill(Some(jobs[k])).0) == jobs
  {
    var j := jobs[k];
    var form := JobForm.Prefill(Some(j)).0;
    TagsRoundTrip(j.tags);
    assert form.tags == JobForm.JoinTags(j.tags);
    assert EditedJob(j, form) == j;
    var r := UpdateLocally(jobs, j, form);
    forall i | 0 <= i < |jobs| ensures r[i] == jobs[i] {
      if jobs[i].id == j.id {
        assert i == k;
      }
    }
  }

  /** The record the local create makes: id from the clock, the form's fields, parsed tags, posting date `iso`. */
  function LocalJob(form: JobForm.FormData, now: nat, iso: string): (j: Job)
    ensures j.id == Decimal.NatToString(now) && j.postingDate == iso
    ensures j.title == form.title && j.company == form.company && j.location == form.location
    ensures j.jobType == form.jobType && j.description == form.description
    ensures j.tags == ParseTags(form.tags)
  {
    Job(Decimal.NatToString(now), form.title, form.company, form.location, form.jobType,
        ParseTags(form.tags), iso, form.description)
  }

  /** `[newJob, ...jobs]`: the local create puts the new record first and keeps the rest in order. */
  function CreateLocally(jobs: seq<Job>, form: JobForm.FormData, now: nat, iso: string): (r: seq<Job>)
    ensures |r| == |jobs| + 1 && r[0] == LocalJob(form, now, iso) && r[1..] == jobs
  {
    [LocalJob(form, now, iso)] + jobs
  }

  /** The fixed part of a simulated scraped record. */
  datatype Fixture = Fixture(title: string, company: string, location: string, tags: seq<string>, description: string)

  const ScrapedNote := " This job was scraped from ActuaryList.com."

  /** The three records of `mockScrapedJobs`, without the clock-dependent id and date. */
  const MockFixtures: seq<Fixture> := [
    Fixture("Senior Actuarial Analyst", "MetLife Insurance", "New York, NY",
            ["Actuarial", "Insurance", "Risk Management", "Statistics"],
            "Senior actuarial analyst position focusing on life insurance products and risk assessment." + ScrapedNote),
    Fixture("Actuarial Consultant", "Deloitte Consulting", "Chicago, IL",
            ["Actuarial", "Consulting", "Healthcare", "Analytics"],
            "Actuarial consultant role working with healthcare clients on pricing and reserving." + ScrapedNote),
    Fixture("Entry Level Actuary", "Prudential Financial", "Newark, NJ",
            ["Actuarial", "Entry Level", "Life Insurance", "Modeling"],
            "Entry level actuarial position with opportunities for professional development and exam support." + ScrapedNote)
  ]

  /** The id of the `n`-th simulated record: `scraped_<Date.now()>_<n>`. */
  function MockId(now: nat, n: nat): string {
    "scraped_" + Decimal.NatToString(now) + "_" + Decimal.NatToString(n)
  }

  /** A clock reading: `Date.now()` and `new Date().toISOString()`. */
  datatype Reading = Reading(now: nat, iso: string)

  /**
   * `mockScrapedJobs`: the fixtures as full-time records, numbered from 1.
   * Each record reads the clock itself; `clock(i)` is what it read for record `i`.
   */
  function MockScrapedJobs(clock: nat -> Reading): (r: seq<Job>)
    ensures |r| == |MockFixtures|
    ensures forall i :: 0 <= i < |r| ==>
              r[i] == Job(MockId(clock(i).now, i + 1), MockFixtures[i].title, MockFixtures[i].company, MockFixtures[i].location,
                          "Full-time", MockFixtures[i].tags, clock(i).iso, MockFixtures[i].description)
  {
    seq(|MockFixtures|, i requires 0 <= i < |MockFixtures| =>
      Job(MockId(clock(i).now, i + 1), MockFixtures[i].title, MockFixtures[i].company, MockFixtures[i].location,
          "Full-time", MockFixtures[i].tags, clock(i).iso, MockFixtures[i].description))
  }

  /** The simulated records carry pairwise distinct ids, whatever the clock read. */
  lemma MockIdsDistinct(clock: nat -> Reading)
    ensures DistinctIds(MockScrapedJobs(clock))
  {
    var r := MockScrapedJobs(clock);
    forall i, j | 0 <= i < j < |r| ensures r[i].id != r[j].id {
      MockIdsDiffer(clock(i).now, i + 1, clock(j).now, j + 1);
    }
  }

  /** Two numbers give two ids, whatever the two clock readings. */
  lemma MockIdsDiffer(now1: nat, m: nat, now2: nat, n: nat)
    requires m != n
    ensures MockId(now1, m) != MockId(now2, n)
  {
    var dm, dn := Decimal.NatToString(m), Decimal.NatToString(n);
    assert '_' !in dm by { assert Decimal.AllDigits(dm); }
    assert '_' !in dn by { assert Decimal.AllDigits(dn); }
    Strings.AfterLastUnderscoreOf("scraped_" + Decimal.NatToString(now1), dm);
    Strings.AfterLastUnderscoreOf("scraped_" + Decimal.NatToString(now2), dn);
    if MockId(now1, m) == MockId(now2, n) {
      Decimal.NatToStringInjective(m, n);
    }
  }

  /** `[...mockScrapedJobs, ...jobs]`: the simulated scrape puts its three records first and keeps the rest in order. */
  function MockScrape(jobs: seq<Job>, clock: nat -> Reading): (r: seq<Job>)
    ensures |r| == |jobs| + 3 && r[..3] == MockScrapedJobs(clock) && r[3..] == jobs
  {
    MockScrapedJobs(clock) + jobs
  }
}
