/**
 * Statements that relate the components to one another: the client's
 * filtering against the server's for the query the client sends, a form the
 * client accepts against the server's required fields, an unchanged edit
 * against the server's update, and the scraper's standard output against
 * the server's parse of it.
 */
module EndToEnd {
  import opened Wrappers
  import opened JsObject
  import opened Jobs
  import opened JobFilters
  import JobForm
  import opened Api
  import App
  import Backend
  import RunScraper
  import Scraper
  import Seqs
  import Strings

  /** `request.args.get(name)`: the first value given for `name`, `None` when there is none. */
  function ArgsGet(params: seq<(string, string)>, name: string): (v: Option<string>)
    ensures v.Some? ==> (name, v.value) in params
  {
    if params == [] then None
    else if params[0].0 == name then Some(params[0].1)
    else ArgsGet(params[1..], name)
  }

  lemma {:induction false} ArgsGetAppend(a: seq<(string, string)>, b: seq<(string, string)>, name: string)
    ensures ArgsGet(a + b, name) == if ArgsGet(a, name).Some? then ArgsGet(a, name) else ArgsGet(b, name)
  {
    if a != [] {
      assert (a + b)[1..] == a[1..] + b;
      ArgsGetAppend(a[1..], b, name);
    } else {
      assert a + b == b;
    }
  }

  /** The query `get_jobs` reads from the parameters it receives. */
  function QueryFromParams(params: seq<(string, string)>): Backend.Query {
    Backend.Query(ArgsGet(params, "title"), ArgsGet(params, "company"), ArgsGet(params, "location"),
                  ArgsGet(params, "job_type"), ArgsGet(params, "tags"), ArgsGet(params, "sort"))
  }

  /** The value under `k` when it is truthy, `None` otherwise. */
  function TruthyGet(filters: Filters, k: FilterKey): Option<string> {
    if Truthy(Get(filters, k)) then Get(filters, k) else None
  }

  /** `ParamsOf` read from the front: the first entry's parameter, then the rest's. */
  lemma ParamsFront(es: seq<Entry>, name: string)
    requires es != []
    ensures ArgsGet(ParamsOf(es), name) ==
              if Name(es[0].0) == name then Some(es[0].1.GetOr("")) else ArgsGet(ParamsOf(es[1..]), name)
  {
    assert ParamsOf(es)[1..] == ParamsOf(es[1..]);
  }

  /** The first entry decides the parameter under `Name(k)` when it is present under `k`; otherwise the rest does. */
  lemma ParamsStep(filters: Filters, k: FilterKey)
    requires filters != []
    ensures ArgsGet(ParamsOf(Seqs.Keep(filters, Present)), Name(k)) ==
              if Present(filters[0]) && filters[0].0 == k then filters[0].1
              else ArgsGet(ParamsOf(Seqs.Keep(filters[1..], Present)), Name(k))
  {
    var tail := Seqs.Keep(filters[1..], Present);
    if Present(filters[0]) {
      var kept := [filters[0]] + tail;
      assert Seqs.Keep(filters, Present) == kept;
      assert kept[1..] == tail;
      ParamsFront(kept, Name(k));
      if Name(filters[0].0) == Name(k) {
        NameInjective(filters[0].0, k);
      }
    } else {
      assert Seqs.Keep(filters, Present) == tail;
    }
  }

  /** No parameter carries the name of a key the object does not hold. */
  lemma {:induction false} AbsentKeyNoParam(filters: Filters, k: FilterKey)
    requires k !in Keys(filters)
    ensures ArgsGet(ParamsOf(Seqs.Keep(filters, Present)), Name(k)).None?
  {
    if filters != [] {
      KeysCons(filters);
      AbsentKeyNoParam(filters[1..], k);
      ParamsStep(filters, k);
    }
  }

  /** For a filter object with distinct keys, the server reads back under each key's name exactly its truthy value. */
  lemma ParamsCarryTruthyValues(filters: Filters, k: FilterKey)
    requires DistinctKeys(filters)
    ensures ArgsGet(QueryOf(filters), Name(k)) == TruthyGet(filters, k)
  {
    QueryOfIsKeep(filters);
    KeptParams(filters, k);
  }

  lemma {:induction false} KeptParams(filters: Filters, k: FilterKey)
    requires DistinctKeys(filters)
    ensures ArgsGet(ParamsOf(Seqs.Keep(filters, Present)), Name(k)) == TruthyGet(filters, k)
  {
    if filters != [] {
      var rest := filters[1..];
      ParamsStep(filters, k);
      if filters[0].0 == k {
        if !Present(filters[0]) {
          KeysCons(filters);
          assert k !in Keys(rest);
          AbsentKeyNoParam(rest, k);
        }
      } else {
        assert DistinctKeys(rest);
        KeptParams(rest, k);
      }
    }
  }

  /** A filter value that is not in force reads like an absent one, and one that is, by its text. */
  lemma NarrowByTruthiness(jobs: seq<Job>, v: Option<string>, w: Option<string>, p: (Job, string) -> bool)
    requires Truthy(v) <==> Truthy(w)
    requires Truthy(v) ==> v.value == w.value
    ensures Narrow(jobs, v, p) == Narrow(jobs, w, p)
  {
  }

  /** Two values read alike as filters: both in force with the same text, or both not in force. */
  predicate AlikeValue(v: Option<string>, w: Option<string>) {
    (Truthy(v) <==> Truthy(w)) && (Truthy(v) ==> v.value == w.value)
  }

  predicate AlikeFilter(a: Filter, b: Filter) {
    && AlikeValue(a.title, b.title) && AlikeValue(a.company, b.company) && AlikeValue(a.location, b.location)
    && AlikeValue(a.jobType, b.jobType) && AlikeValue(a.tags, b.tags)
  }

  /** Filters that read alike keep the same jobs, in the same order. */
  lemma FilterJobsAlike(jobs: seq<Job>, a: Filter, b: Filter)
    requires AlikeFilter(a, b)
    ensures FilterJobs(jobs, a) == FilterJobs(jobs, b)
  {
    var byTitle := Narrow(jobs, a.title, TitleMatches);
    NarrowByTruthiness(jobs, a.title, b.title, TitleMatches);
    var byCompany := Narrow(byTitle, a.company, CompanyMatches);
    NarrowByTruthiness(byTitle, a.company, b.company, CompanyMatches);
    var byLocation := Narrow(byCompany, a.location, LocationMatches);
    NarrowByTruthiness(byCompany, a.location, b.location, LocationMatches);
    var byType := Narrow(byLocation, a.jobType, JobTypeMatches);
    NarrowByTruthiness(byLocation, a.jobType, b.jobType, JobTypeMatches);
    NarrowByTruthiness(byType, a.tags, b.tags, TagMatches);
  }

  /** The query the server reads holds, under each name, the truthy value of the filter object. */
  lemma QueryReadsFilters(filters: Filters)
    requires DistinctKeys(filters)
    ensures var q := QueryFromParams(QueryOf(filters));
      && q.title == TruthyGet(filters, Title) && q.company == TruthyGet(filters, Company)
      && q.location == TruthyGet(filters, Location) && q.jobType == TruthyGet(filters, JobType)
      && q.tags == TruthyGet(filters, Tags) && q.sort == TruthyGet(filters, Sort)
  {
    ParamsCarryTruthyValues(filters, Title);
    ParamsCarryTruthyValues(filters, Company);
    ParamsCarryTruthyValues(filters, Location);
    ParamsCarryTruthyValues(filters, JobType);
    ParamsCarryTruthyValues(filters, Tags);
    ParamsCarryTruthyValues(filters, Sort);
  }

  /**
   * `getJobs(filters)` sends a query under which the server keeps exactly the
   * jobs the client's `applyFilters` keeps from the same list, and sorts in
   * the same direction.
   */
  lemma ClientAndServerFilterAlike(jobs: seq<Job>, filters: Filters)
    requires DistinctKeys(filters)
    ensures var q := QueryFromParams(QueryOf(filters));
      && FilterJobs(jobs, App.ClientFilter(filters)) == FilterJobs(jobs, Backend.FilterOf(q))
      && (q.sort == Some("posting_date_asc") <==> Get(filters, Sort) == Some(App.OldestFirst))
  {
    var q := QueryFromParams(QueryOf(filters));
    QueryReadsFilters(filters);
    assert AlikeFilter(App.ClientFilter(filters), Backend.FilterOf(q));
    FilterJobsAlike(jobs, App.ClientFilter(filters), Backend.FilterOf(q));
  }

  /** Filter objects the filter bar produces, starting from the cleared one, have distinct keys. */
  lemma UpdatesKeepKeysDistinct(filters: Filters, key: FilterKey, value: string)
    requires DistinctKeys(filters)
    ensures DistinctKeys(UpdateFilter(filters, key, value))
    ensures DistinctKeys(App.ClearedFilters)
  {
    SetDistinct(filters, key, FilterValue(value));
  }

  // ---------------------------------------------------------------------------
  // Create and edit

  /** The body the client posts, as the server reads it: every key present. */
  function InputOf(p: Payload): (data: Backend.JobInput)
    ensures data.title == Some(p.title) && data.company == Some(p.company) && data.location == Some(p.location)
    ensures data.jobType == Some(p.jobType) && data.tags == Some(p.tags) && data.description == Some(p.description)
  {
    Backend.JobInput(Some(p.title), Some(p.company), Some(p.location), Some(p.jobType), Some(p.tags), Some(p.description))
  }

  /**
   * A form the dialog lets through passes the server's required-field check,
   * and the server stores it field for field, with the parsed tags.
   */
  lemma AcceptedFormIsStored(form: JobForm.FormData, counter: nat, now: string)
    requires JobForm.Complete(form)
    ensures Backend.FirstMissing(InputOf(PayloadOf(form))).None?
    ensures var j := Backend.NewJob(InputOf(PayloadOf(form)), counter, now);
      && j.title == form.title && j.company == form.company && j.location == form.location
      && j.jobType == form.jobType && j.description == form.description && j.tags == ParseTags(form.tags)
  {
  }

  /** The server accepts a blank title the dialog would refuse: its check is not the dialog's. */
  lemma ServerAcceptsBlankTitle()
    ensures var form := JobForm.FormData(" ", "c", "l", "Full-time", "", "");
      && !JobForm.Complete(form)
      && Backend.FirstMissing(InputOf(PayloadOf(form))).None?
  {
    var form := JobForm.FormData(" ", "c", "l", "Full-time", "", "");
    assert Strings.TrimStart(Strings.JavaScriptSpace, form.title) == [];
  }

  /** Saving an edit without touching a field, through the server, leaves the stored job as it was. */
  lemma ServerEditWithoutChanges(j: Job)
    requires forall t :: 0 <= t < |j.tags| ==> CleanTag(j.tags[t])
    ensures Backend.Patched(j, InputOf(PayloadOf(JobForm.Prefill(Some(j)).0))) == j
  {
    TagsRoundTrip(j.tags);
  }

  // ---------------------------------------------------------------------------
  // The scrape route

  /**
   * As written, the server cannot parse what the scraper process prints: the
   * progress text precedes the envelope, so every completed run is answered
   * with a JSON error and the table is unchanged.
   */
  lemma ScrapeAsWrittenAlwaysFails(jobs: seq<Job>, counter: nat, later: seq<string>,
                                   env: RunScraper.Envelope, stderr: string)
    ensures Backend.ScrapeRouteSpec(jobs, counter, RunScraper.Completed(0, RunScraper.StdoutAsWritten(later, env), stderr))
            == (jobs, counter, Backend.ScrapeFailed(Backend.NotJson))
  {
  }

  /**
   * With the envelope alone on standard output, a successful envelope adds
   * its jobs under consecutive fresh ids and a failed one is reported.
   */
  lemma ScrapeCorrectedAddsJobs(jobs: seq<Job>, counter: nat, env: RunScraper.Envelope, stderr: string)
    ensures var out := Backend.ScrapeRouteSpec(jobs, counter, RunScraper.Completed(0, RunScraper.StdoutCorrected(env), stderr));
      && (env.success ==>
            out == (jobs + Backend.Renumbered(env.jobs, counter), counter + |env.jobs|,
                    Backend.ScrapeAdded(Backend.Renumbered(env.jobs, counter))))
      && (!env.success ==> out == (jobs, counter, Backend.ScrapeFailed(Backend.Reported(env.error))))
  {
  }

  /** With the corrected output, a browser that cannot load the page ends in a successful scrape of no jobs. */
  lemma BrowserFailureAddsNothing(jobs: seq<Job>, counter: nat, argv: seq<string>, browser: Scraper.Browser,
                                  clock: nat -> Scraper.Capture, stderr: string)
    requires !browser.session.Loaded? && browser.quitError.None?
    ensures var env := RunScraper.EnvelopeOf(Scraper.ScrapeSpec(browser, RunScraper.MaxJobsArg(argv), [], false, clock).1);
      Backend.ScrapeRouteSpec(jobs, counter, RunScraper.Completed(0, RunScraper.StdoutCorrected(env), stderr))
        == (jobs, counter, Backend.ScrapeAdded([]))
  {
    RunScraper.BrowserFailureIsEmptySuccess(RunScraper.MaxJobsArg(argv), browser, clock);
    var env := RunScraper.EnvelopeOf(Scraper.ScrapeSpec(browser, RunScraper.MaxJobsArg(argv), [], false, clock).1);
    assert jobs + Backend.Renumbered(env.jobs, counter) == jobs;
  }
}
