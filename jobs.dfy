/**
 * The job record every component exchanges (the dictionaries of the API
 * server, the objects of the browser client, the scraper's output), and the
 * filter rules both the server's `GET /jobs` and the client's `applyFilters`
 * apply to it.
 */
module Jobs {
  import opened Wrappers
  import Strings
  import Seqs

  datatype Job = Job(
    id: string,
    title: string,
    company: string,
    location: string,
    jobType: string,
    tags: seq<string>,
    postingDate: string,
    description: string)

  /** The selectable job types (`JOB_TYPES` of the form and the filter bar). */
  const JobTypes: seq<string> := ["Full-time", "Part-time", "Internship", "Contract"]

  /** Case-insensitive substring test: `needle.lower() in hay.lower()`. */
  predicate ContainsIgnoreCase(hay: string, needle: string) {
    Strings.Contains(Strings.Lower(hay), Strings.Lower(needle))
  }

  predicate TitleMatches(j: Job, q: string) { ContainsIgnoreCase(j.title, q) }
  predicate CompanyMatches(j: Job, q: string) { ContainsIgnoreCase(j.company, q) }
  predicate LocationMatches(j: Job, q: string) { j.location == q }
  predicate JobTypeMatches(j: Job, q: string) { j.jobType == q }

  /** Some tag of the job contains the query, ignoring case. */
  predicate TagMatches(j: Job, q: string) {
    exists i :: 0 <= i < |j.tags| && ContainsIgnoreCase(j.tags[i], q)
  }

  ghost predicate DistinctIds(jobs: seq<Job>) {
    forall i, j :: 0 <= i < j < |jobs| ==> jobs[i].id != jobs[j].id
  }

  /** `next((job for job in jobs if job['id'] == id), None)`: the position of the first job with that id. */
  function FindById(jobs: seq<Job>, id: string): (r: Option<nat>)
    ensures r.None? <==> forall i :: 0 <= i < |jobs| ==> jobs[i].id != id
    ensures r.Some? ==>
              r.value < |jobs| && jobs[r.value].id == id && forall i :: 0 <= i < r.value ==> jobs[i].id != id
  {
    if jobs == [] then None
    else if jobs[0].id == id then Some(0)
    else
      match FindById(jobs[1..], id)
      case None => None
      case Some(k) => Some(k + 1)
  }

  /** Every job whose id is not `id`, in the original order. */
  function WithoutId(jobs: seq<Job>, id: string): (r: seq<Job>)
  {
    Seqs.Keep(jobs, (j: Job) => j.id != id)
  }

  /** Removing one id removes exactly the jobs that carry it and keeps every copy of each other job. */
  lemma WithoutIdCount(jobs: seq<Job>, id: string, x: Job)
    ensures multiset(WithoutId(jobs, id))[x] == if x.id == id then 0 else multiset(jobs)[x]
    ensures x in WithoutId(jobs, id) <==> x in jobs && x.id != id
  {
    Seqs.KeepCount(jobs, (j: Job) => j.id != id, x);
  }

  /** Removal works piecewise, so the remaining jobs stay in their order. */
  lemma WithoutIdAppend(a: seq<Job>, b: seq<Job>, id: string)
    ensures WithoutId(a + b, id) == WithoutId(a, id) + WithoutId(b, id)
  {
    Seqs.KeepAppend(a, b, (j: Job) => j.id != id);
  }

  /** With distinct ids, removing an id that is present removes exactly one job. */
  lemma {:induction false} WithoutPresentId(jobs: seq<Job>, id: string)
    requires DistinctIds(jobs)
    requires FindById(jobs, id).Some?
    ensures |WithoutId(jobs, id)| == |jobs| - 1
  {
    var k := FindById(jobs, id).value;
    assert jobs == jobs[..k] + [jobs[k]] + jobs[k + 1..];
    WithoutIdAppend(jobs[..k] + [jobs[k]], jobs[k + 1..], id);
    WithoutIdAppend(jobs[..k], [jobs[k]], id);
    Seqs.KeepAll(jobs[..k], (j: Job) => j.id != id);
    Seqs.KeepAll(jobs[k + 1..], (j: Job) => j.id != id);
    assert WithoutId([jobs[k]], id) == [];
  }

  /**
   * The five list filters, with the value each one was given (a filter that is
   * absent or `""` is not in force). The API server and the browser client
   * apply them alike, in this order.
   */
  datatype Filter = Filter(
    title: Option<string>,
    company: Option<string>,
    location: Option<string>,
    jobType: Option<string>,
    tags: Option<string>)

  /** The job passes every filter in force. */
  predicate Admits(f: Filter, j: Job) {
    && (Truthy(f.title) ==> TitleMatches(j, f.title.value))
    && (Truthy(f.company) ==> CompanyMatches(j, f.company.value))
    && (Truthy(f.location) ==> LocationMatches(j, f.location.value))
    && (Truthy(f.jobType) ==> JobTypeMatches(j, f.jobType.value))
    && (Truthy(f.tags) ==> TagMatches(j, f.tags.value))
  }

  /** One filtering step: keep the jobs that satisfy `p`, when the filter value `v` is in force. */
  function Narrow(jobs: seq<Job>, v: Option<string>, p: (Job, string) -> bool): seq<Job>
  {
    if Truthy(v) then Seqs.Keep(jobs, (j: Job) => p(j, v.value)) else jobs
  }

  function FilterJobs(jobs: seq<Job>, f: Filter): seq<Job>
  {
    var byTitle := Narrow(jobs, f.title, TitleMatches);
    var byCompany := Narrow(byTitle, f.company, CompanyMatches);
    var byLocation := Narrow(byCompany, f.location, LocationMatches);
    var byType := Narrow(byLocation, f.jobType, JobTypeMatches);
    Narrow(byType, f.tags, TagMatches)
  }

  lemma NarrowCount(jobs: seq<Job>, v: Option<string>, p: (Job, string) -> bool, x: Job)
    ensures multiset(Narrow(jobs, v, p))[x] == if !Truthy(v) || p(x, v.value) then multiset(jobs)[x] else 0
  {
    if Truthy(v) {
      Seqs.KeepCount(jobs, (j: Job) => p(j, v.value), x);
    }
  }

  /**
   * Filtering keeps every copy of a job that passes all filters in force and
   * no copy of any other job: the result is the sub-multiset of the passing jobs.
   */
  lemma FilterJobsCount(jobs: seq<Job>, f: Filter, x: Job)
    ensures multiset(FilterJobs(jobs, f))[x] == if Admits(f, x) then multiset(jobs)[x] else 0
    ensures x in FilterJobs(jobs, f) <==> x in jobs && Admits(f, x)
  {
    var byTitle := Narrow(jobs, f.title, TitleMatches);
    var byCompany := Narrow(byTitle, f.company, CompanyMatches);
    var byLocation := Narrow(byCompany, f.location, LocationMatches);
    var byType := Narrow(byLocation, f.jobType, JobTypeMatches);
    NarrowCount(jobs, f.title, TitleMatches, x);
    NarrowCount(byTitle, f.company, CompanyMatches, x);
    NarrowCount(byCompany, f.location, LocationMatches, x);
    NarrowCount(byLocation, f.jobType, JobTypeMatches, x);
    NarrowCount(byType, f.tags, TagMatches, x);
  }
}
