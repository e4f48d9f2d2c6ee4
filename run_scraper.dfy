/**
 * The scraper process that the API server starts: `run_scraper.py` runs one
 * scrape with a `max_jobs` taken from its first argument and prints a JSON
 * envelope `{success, jobs, count}` (with `error` on failure).
 *
 * Standard output is modelled line by line: a line of progress text, or the
 * JSON dump of an envelope. JSON encoding itself is not modelled; a dumped
 * line stands for `json.dumps(envelope)`.
 */
module RunScraper {
  import opened Wrappers
  import Decimal
  import opened Jobs
  import opened Scraper

  /** The dictionary `run_scraper` returns. */
  datatype Envelope = Envelope(success: bool, error: Option<string>, jobs: seq<Job>, count: int)

  /** The envelope for what `scrape_jobs` did: its list on return, or the escaped exception's text. */
  function EnvelopeOf(out: Outcome): (env: Envelope)
    ensures env.count == |env.jobs|
    ensures env.success <==> out.Returned?
    ensures env.success ==> env.jobs == out.jobs && env.error.None?
    ensures !env.success ==> env.jobs == [] && env.error == Some(out.message)
  {
    match out
    case Returned(jobs) => Envelope(true, None, jobs, |jobs|)
    case Escaped(message) => Envelope(false, Some(message), [], 0)
  }

  /** `run_scraper(max_jobs)`: a fresh headless scraper, one scrape, one envelope. */
  method Run(maxJobs: int, browser: Browser, clock: nat -> Capture) returns (env: Envelope)
    ensures env == EnvelopeOf(ScrapeSpec(browser, maxJobs, [], false, clock).1)
  {
    var scraper := new ActuaryListScraper(true, maxJobs);
    var outcome := scraper.ScrapeJobs(browser, clock);
    env := EnvelopeOf(outcome);
  }

  /**
   * A browser that cannot start or cannot load the page is not a failure of
   * the process: `scrape_jobs` swallows it, so the envelope says success with
   * no jobs. Only an exception from quitting the driver makes it a failure.
   */
  lemma BrowserFailureIsEmptySuccess(maxJobs: int, browser: Browser, clock: nat -> Capture)
    requires !browser.session.Loaded?
    ensures var env := EnvelopeOf(ScrapeSpec(browser, maxJobs, [], false, clock).1);
            (env.success <==> browser.session.LaunchFails? || browser.quitError.None?) &&
            (env.success ==> env.jobs == [] && env.count == 0)
  {
  }

  /** On a loaded page with a clean quit the envelope carries one record per titled listing considered. */
  lemma LoadedEnvelope(maxJobs: int, browser: Browser, clock: nat -> Capture)
    requires browser.session.Loaded? && browser.quitError.None?
    ensures var env := EnvelopeOf(ScrapeSpec(browser, maxJobs, [], false, clock).1);
            env.success && env.count == |env.jobs| <= |browser.session.listings| &&
            Titles(env.jobs) == PresentTitles(SliceTo(browser.session.listings, maxJobs))
  {
    LoadedRunAppends(browser, maxJobs, [], false, clock);
    assert [] + Batch(SliceTo(browser.session.listings, maxJobs), 0, clock, ExtractSpec)
        == Batch(SliceTo(browser.session.listings, maxJobs), 0, clock, ExtractSpec);
  }

  const DefaultMaxJobs := 20

  /** The `__main__` block: `int(sys.argv[1])` when there is a first argument that parses, else 20. */
  function MaxJobsArg(argv: seq<string>): (n: int)
    ensures |argv| <= 1 ==> n == DefaultMaxJobs
  {
    if |argv| > 1 then Decimal.ParseInt(argv[1]).GetOr(DefaultMaxJobs) else DefaultMaxJobs
  }

  /** An integer argument is taken as it is; an argument without a digit keeps 20. */
  lemma MaxJobsArgSpec(prog: string, n: int, rest: seq<string>, junk: string)
    requires forall k :: 0 <= k < |junk| ==> !Decimal.IsDigit(junk[k])
    ensures MaxJobsArg([prog, Decimal.IntToString(n)] + rest) == n
    ensures MaxJobsArg([prog, junk] + rest) == DefaultMaxJobs
  {
    Decimal.ParseIntToString(n);
    Decimal.ParseIntNeedsDigit(junk);
  }

  /** One line of the process's standard output. */
  datatype Line = Progress(text: string) | EnvelopeJson(envelope: Envelope)

  /** The first thing `scrape_jobs` prints, before anything in it can fail. */
  const SetupMessage := "Setting up Chrome driver..."

  /**
   * Standard output of the process as written: `scrape_jobs` prints its
   * progress (`SetupMessage` first, then the lines in `later`, which depend
   * on the page) to the same stream, and the envelope's JSON comes last.
   */
  function StdoutAsWritten(later: seq<string>, env: Envelope): (out: seq<Line>)
    ensures |out| == |later| + 2
    ensures out[0] == Progress(SetupMessage) && out[|out| - 1] == EnvelopeJson(env)
  {
    [Progress(SetupMessage)] + seq(|later|, i requires 0 <= i < |later| => Progress(later[i])) + [EnvelopeJson(env)]
  }

  /** Standard output with the progress text sent elsewhere: the envelope's JSON alone. */
  function StdoutCorrected(env: Envelope): (out: seq<Line>)
    ensures |out| == 1 && out[0].EnvelopeJson? && out[0].envelope == env
  {
    [EnvelopeJson(env)]
  }

  /** The run as the API server sees it: exit code, then standard output. */
  datatype Process = Completed(returnCode: int, stdout: seq<Line>, stderr: string) | TimedOut

  /**
   * The process for a given `argv` as written: the script catches everything,
   * so it exits with 0 and prints the progress followed by the envelope.
   */
  method RunProcessAsWritten(argv: seq<string>, browser: Browser, clock: nat -> Capture, later: seq<string>, stderr: string)
    returns (p: Process)
    ensures p.Completed? && p.returnCode == 0
    ensures p.stdout == StdoutAsWritten(later, EnvelopeOf(ScrapeSpec(browser, MaxJobsArg(argv), [], false, clock).1))
  {
    var env := Run(MaxJobsArg(argv), browser, clock);
    p := Completed(0, StdoutAsWritten(later, env), stderr);
  }

  /** The same process once the progress text no longer shares standard output with the envelope. */
  method RunProcess(argv: seq<string>, browser: Browser, clock: nat -> Capture, stderr: string) returns (p: Process)
    ensures p.Completed? && p.returnCode == 0
    ensures p.stdout == StdoutCorrected(EnvelopeOf(ScrapeSpec(browser, MaxJobsArg(argv), [], false, clock).1))
  {
    var env := Run(MaxJobsArg(argv), browser, clock);
    p := Completed(0, StdoutCorrected(env), stderr);
  }
}
