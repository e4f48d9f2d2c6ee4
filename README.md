# Job board: scraper, API server and client logic in Dafny

This project models the core of a small job-listing application in three parts.

- **The ActuaryList scraper.** It walks the job-listing elements of a loaded page. For every field it tries a fixed chain of CSS selectors, and a field with no usable selector gets a default. It classifies the job type, normalises the tags and assembles one record per listing. The batch loop takes at most `max_jobs` listings and skips those without a title. Around the scraper sit:
  - the bounded "load more" loop;
  - the argument handling of `main`;
  - the wrapper script `run_scraper.py`, which turns one scrape into a `{success, jobs, count}` envelope.
- **The API server's in-memory job table.** This is a list of jobs plus an id counter: the class `Backend.JobStore`. Its handlers:
  - list jobs with filters and a sort;
  - fetch a job by id;
  - create a job, with the required-field check;
  - update a job in place;
  - delete a job;
  - store the jobs of a scrape under fresh ids.
- **The client's list and form logic:**
  - the filter-and-sort view of `App.jsx` and its local create, edit, delete and simulated-scrape transitions;
  - the query string and tag parsing of `services/api.js`;
  - the validation, change handler and prefill of the add/edit dialog;
  - the filter bar's update rule and its "Clear All" test.

The browser is only a source of strings:
- A listing element is a map from selector to its answer: the texts of the matches, or a query that raised part-way.
- The page session is modelled by how far it gets before the listings are read: launch fails, load fails, or loaded.
- Clock readings are parameters.

Strings are `seq<char>`. Trimming takes the whitespace rule of the runtime that performs it, `Strings.PythonSpace` or `Strings.JavaScriptSpace`: Python's `strip()` and `int()` also strip U+001C to U+001F and U+0085, and JavaScript's `trim()` also strips U+FEFF. Lower-casing is defined on ASCII letters.

The module `EndToEnd` puts the parts side by side:
- The query `getJobs` sends makes the server keep exactly the jobs the client keeps, and sort in the same direction.
- A form the dialog accepts passes the server's required-field check.
- Saving an unchanged edit leaves the job as it was, both locally and on the server.
- The scraper's standard output, as written, can never be parsed by the server (see Findings).

Files and modules:
- `wrappers.dfy`: `Option` and JavaScript truthiness of an optional string.
- `strings.dfy`: trimming, lower-casing, substring search, splitting and joining, and string order.
- `decimal.dfy`: `str(n)` and `int(s)`.
- `seqs.dfy`: filtering, duplicate removal and sorting.
- `jsobject.dfy`: the insertion-ordered JavaScript objects the client keeps.
- `jobs.dfy`: the job record and the filter predicates shared by client and server.
- `scraper.dfy`, `run_scraper.dfy`, `backend.dfy`, `api.dfy`, `job_form.dfy`, `job_filters.dfy`, `app.dfy`: the source files of the same names.
- `end_to_end.dfy`: the cross-component statements.

## Model

| member | source | states |
|---|---|---|
| Strings.TrimStart | scraper/actuarylist_scraper.py:120 | the result is not longer than the input and does not start with whitespace |
| Strings.TrimEnd | scraper/actuarylist_scraper.py:120 | the result is not longer than the input and does not end with whitespace |
| Strings.TrimStartSlice | scraper/actuarylist_scraper.py:120 | stripping the front removes exactly a prefix made only of whitespace |
| Strings.TrimEndSlice | scraper/actuarylist_scraper.py:120 | stripping the back removes exactly a suffix made only of whitespace |
| Strings.Trim | scraper/actuarylist_scraper.py:120 | `strip()` / `trim()` gives a text with no whitespace at either end, by the whitespace rule it is given |
| Strings.TrimSlice | scraper/actuarylist_scraper.py:120 | the trimmed text is a contiguous slice of the input, and only whitespace lies outside it |
| Strings.TrimOfTrimmed | frontend/src/services/api.js:37 | trimming a text with no outer whitespace leaves it unchanged |
| Strings.TrimIdempotent | scraper/actuarylist_scraper.py:201 | trimming twice is the same as trimming once |
| Strings.TrimEmptyIffAllSpace | frontend/src/components/JobForm.jsx:65-67 | a text trims to empty exactly when all of it is whitespace |
| Strings.TrimLeadingSpace | frontend/src/services/api.js:37 | a leading whitespace character makes no difference to the trimmed result |
| Strings.TrimChars | frontend/src/services/api.js:37 | every character of the trimmed text occurs in the input |
| Strings.Lower | scraper/actuarylist_scraper.py:179 | `lower()` keeps the length and lower-cases character by character |
| Strings.Contains | backend/app.py:79 | `needle in hay` holds exactly when the needle occurs at some position |
| Strings.Split | frontend/src/services/api.js:36 | `split(",")` gives at least one piece, no piece contains the separator, and joining the pieces with it gives the input back |
| Strings.JoinCons | frontend/src/components/JobForm.jsx:46 | a character put before the first piece comes first in the joined text |
| Strings.SplitJoin | frontend/src/services/api.js:36 | splitting the join of separator-free pieces gives back exactly those pieces |
| Strings.SplitPiece | frontend/src/services/api.js:36 | a text without the separator splits into itself alone |
| Strings.SplitPrefix | frontend/src/services/api.js:36 | a separator-free prefix followed by the separator becomes the first piece |
| Strings.SplitAppend | frontend/src/services/api.js:36 | splitting `a + sep + b` gives the pieces of `a` followed by the pieces of `b` |
| Strings.StrLeTotal | backend/app.py:104 | any two posting-date strings compare one way or the other |
| Strings.StrLeTransitive | backend/app.py:104 | the string order of posting dates is transitive |
| Strings.StrLeAntisymmetric | backend/app.py:104 | two strings that each sort no later than the other are equal |
| Decimal.DigitChar | backend/app.py:139 | a digit value maps to the decimal digit character with that value |
| Decimal.NatToString | backend/app.py:139 | `str(n)` is a non-empty string of decimal digits with no leading zero |
| Decimal.ParseNat | scraper/run_scraper.py:32 | a digit string parses, and nothing else does |
| Decimal.ParseNatToString | backend/app.py:139 | parsing `str(n)` gives `n` back |
| Decimal.NatToStringInjective | backend/app.py:220 | two numbers with the same decimal text are equal, so counter ids never repeat |
| Decimal.IntToString | backend/app.py:204 | `str(max_jobs)` is never empty |
| Decimal.ParseInt | scraper/run_scraper.py:32 | `int(s)` succeeds only when `s` is not blank |
| Decimal.IntToStringTrimmed | backend/app.py:204 | `str(i)` has no outer whitespace |
| Decimal.ParseIntToString | scraper/run_scraper.py:32 | `int(str(i)) == i` for every integer, negatives included |
| Decimal.ParseIntNeedsDigit | scraper/run_scraper.py:31-34 | a text without a digit makes `int` fail |
| Seqs.Keep | backend/app.py:78-79 | a comprehension filter is never longer than its input, and keeps exactly the elements that pass |
| Seqs.KeepCount | frontend/src/App.jsx:106-108 | filtering keeps every copy of an element that passes and no copy of one that fails |
| Seqs.KeepAppend | frontend/src/services/api.js:38 | filtering a concatenation gives the concatenation of the filtered parts, so the order is kept |
| Seqs.KeepAll | frontend/src/services/api.js:38 | a filter every element passes returns the input unchanged |
| Seqs.Dedup | scraper/actuarylist_scraper.py:211 | `list(set(s))` has no duplicates, the same members as `s`, and is not longer |
| Seqs.InsertBy | backend/app.py:104 | inserting into a sorted list keeps it sorted and adds one copy of the element |
| Seqs.InsertByTies | backend/app.py:104-106 | the inserted element comes after every element ranked equal to it |
| Seqs.SortBy | backend/app.py:104-106 | `list.sort` under a total preorder gives a sorted permutation of its input |
| Seqs.SortByStable | backend/app.py:104-106 | the sort is stable: elements ranked equal keep their input order, in either direction |
| JsObject.Keys | frontend/src/components/JobForm.jsx:71 | `Object.keys` lists the keys in insertion order, one per entry |
| JsObject.GetAt | frontend/src/components/JobForm.jsx:83 | in an object with distinct keys, reading a key gives the value stored with it |
| JsObject.GetAbsent | frontend/src/components/JobForm.jsx:83 | a key that is not there reads as `undefined` |
| JsObject.KeysCons | frontend/src/components/JobForm.jsx:71 | the keys of an object are its first key followed by the keys of the rest |
| JsObject.Set | frontend/src/components/JobFilters.jsx:31-34 | `{...o, [k]: v}` reads `v` under `k` and reads every other key as before |
| JsObject.SetKeys | frontend/src/components/JobFilters.jsx:31-34 | an existing key keeps its position and a new key goes last |
| JsObject.SetDistinct | frontend/src/components/JobFilters.jsx:31-34 | spreading in one key keeps the keys distinct |
| JsObject.SetEntries | frontend/src/components/JobFilters.jsx:31-34 | entry by entry: other keys stay where they were, and `k` appears exactly once, holding `v` |
| Jobs.FindById | backend/app.py:116 | `next(...)` finds nothing exactly when no job has the id, and otherwise returns the first position with it |
| Jobs.WithoutIdCount | backend/app.py:187 | removing an id drops every copy of each job with that id and keeps every copy of the others |
| Jobs.WithoutIdAppend | backend/app.py:187 | removing an id from a concatenation removes it from each part, so the survivors keep their order |
| Jobs.WithoutPresentId | backend/app.py:183-187 | with distinct ids, removing an id that is present shortens the list by exactly one |
| Jobs.NarrowCount | backend/app.py:76-79 | one filter step keeps a job's copies exactly when the filter is not in force or the job passes it |
| Jobs.FilterJobsCount | backend/app.py:73-99 | the filter cascade keeps exactly the jobs that pass every filter in force, each as often as it was listed |
| Scraper.FindText | scraper/actuarylist_scraper.py:130-131 | a selector gives the trimmed text of its first match, or nothing when the lookup raises |
| Scraper.FirstUsableFrom | scraper/actuarylist_scraper.py:128-135 | `None` means no selector from `from` on yields non-blank text; otherwise the result is the first that does |
| Scraper.FindFirst | scraper/actuarylist_scraper.py:128-135 | the selector loop with `break` stops at the first selector with non-blank text |
| Scraper.ChainField | scraper/actuarylist_scraper.py:127-135 | a selector loop with its default computes the chain value |
| Scraper.ChainValueSpec | scraper/actuarylist_scraper.py:123-150 | a chain's value is the default when no selector is usable, otherwise the text of the first usable one; a non-blank, trimmed default gives a non-blank, trimmed value |
| Scraper.FirstUsableAgrees | scraper/actuarylist_scraper.py:128-135 | which selector wins depends only on the answers of the chain's own selectors |
| Scraper.JobTypeField | scraper/actuarylist_scraper.py:174-188 | the job-type loop computes the classified text of the first type selector with text, or "Full-time" |
| Scraper.JobTypeValueSpec | scraper/actuarylist_scraper.py:170-188 | the job type is always one of the four selectable types; it is "Full-time" when no type selector is usable, otherwise the classification of the first usable one only |
| Scraper.KindNameSelectable | scraper/actuarylist_scraper.py:181-185 | each classification is one of the job types the form and filter bar offer |
| Scraper.ClassifyPriority | scraper/actuarylist_scraper.py:179-185 | "part" wins over "contract", which wins over "intern"; the type is Internship, or Full-time, exactly under the stated keyword conditions |
| Scraper.KeptTextsGood | scraper/actuarylist_scraper.py:200-203 | every text the tag filter keeps is non-blank, trimmed and shorter than 50 characters |
| Scraper.CollectedGood | scraper/actuarylist_scraper.py:197-205 | every collected tag is non-blank, trimmed and shorter than 50 characters |
| Scraper.KeepTagTexts | scraper/actuarylist_scraper.py:199-203 | the inner tag loop appends exactly the kept texts of one selector, in order |
| Scraper.CollectTags | scraper/actuarylist_scraper.py:191-205 | the tag loop collects selector by selector, and a selector that raises contributes what it yielded first |
| Scraper.NormalizeTagsSpec | scraper/actuarylist_scraper.py:207-211 | with nothing collected the tags are exactly the three defaults; otherwise they are 1 to 5 distinct tags, exactly the members of the first five collected |
| Scraper.NormalizeTagsGood | scraper/actuarylist_scraper.py:197-211 | normalising good tags gives a list of 1 to 5 distinct good tags |
| Scraper.PostingDate | scraper/actuarylist_scraper.py:157-166 | the posting date is a clock reading, whether or not a date selector matched |
| Strings.AfterLastUnderscoreOf | scraper/actuarylist_scraper.py:215 | the text after the last underscore of `p + "_" + d`, for an underscore-free `d`, is `d` |
| Scraper.ScrapedIdIndex | scraper/actuarylist_scraper.py:215 | the last segment of a scraped id is the decimal text of the record's position |
| Scraper.ScrapedIdsDiffer | scraper/actuarylist_scraper.py:215 | records at different positions get different ids, whatever the clock said |
| Scraper.Assemble | scraper/actuarylist_scraper.py:214-223 | the record carries the title it was built around, the id made from the clock and its position, the company and location chain values, the classified job type, the normalised tags, the posting date and the description built from company and location |
| Scraper.ExtractSpec | scraper/actuarylist_scraper.py:111-229 | extraction yields nothing exactly when the title lookup raises, and otherwise the record assembled around the trimmed title |
| Scraper.ExtractDefaults | scraper/actuarylist_scraper.py:123-211 | a record gets "Unknown Company", "Remote", "Full-time" or the three actuarial tags when no selector of that field is usable |
| Scraper.AssembleWellFormed | scraper/actuarylist_scraper.py:123-223 | a record assembled around a trimmed title satisfies the record invariant |
| Scraper.ExtractWellFormed | scraper/actuarylist_scraper.py:111-225 | every extracted record has a non-blank trimmed company and location, a known job type, 1 to 5 distinct good tags, a clock posting date, the template description, and an id ending in its position |
| Scraper.ChainValueAgrees | scraper/actuarylist_scraper.py:123-150 | two listings that answer a chain's selectors alike give its field the same value |
| Scraper.OtherChainsAvoidDates | scraper/actuarylist_scraper.py:119-195 | no selector outside the date chain is a date selector |
| Scraper.DateTextDiscarded | scraper/actuarylist_scraper.py:157-166 | listings that differ only in their date selectors extract to records that differ at most in the posting date |
| Scraper.JobTypeValueAgrees | scraper/actuarylist_scraper.py:170-188 | two listings that answer the type selectors alike get the same job type |
| Scraper.CollectedAgrees | scraper/actuarylist_scraper.py:192-205 | two listings that answer the tag selectors alike collect the same tags |
| Scraper.ExtractSpecIsSound | scraper/actuarylist_scraper.py:111-229 | `_extract_job_data` skips exactly the untitled listings, keeps the title, and gives only well-formed records whose ids end in their position |
| Scraper.Batch | scraper/actuarylist_scraper.py:67-75 | the loop appends at most one record per listing it considers |
| Scraper.BatchStep | scraper/actuarylist_scraper.py:68-75 | one iteration appends the listing's record if it has one, and otherwise skips the listing |
| Scraper.BatchTitles | scraper/actuarylist_scraper.py:67-75 | the batch holds one record per titled listing, in page order, and untitled listings are skipped without stopping the loop |
| Scraper.BatchOrigin | scraper/actuarylist_scraper.py:69-71 | each record of a batch is what extraction made of some listing, at the record's own position |
| Scraper.BatchIdAt | scraper/actuarylist_scraper.py:215 | record `k` of a batch started after `base` records has an id ending in `base + k` |
| Scraper.NumberedIdsDistinct | scraper/actuarylist_scraper.py:215 | records whose ids end in consecutive numbers carry pairwise distinct ids |
| Scraper.BatchIdsDistinct | scraper/actuarylist_scraper.py:214-215 | the records of one run carry pairwise distinct ids |
| Scraper.SliceTo | scraper/actuarylist_scraper.py:67 | `s[:n]` is a prefix of length `min(n, len(s))` for non-negative `n`, and drops `-n` elements from the end for negative `n` |
| Scraper.LoadMoreFrom | scraper/actuarylist_scraper.py:93-106 | the loop clicks at most as often as attempts remain, and scrolls only when a click is still left |
| Scraper.LoadMoreJobs | scraper/actuarylist_scraper.py:87-109 | `_load_more_jobs` clicks at most 3 times, scrolls at most once and only instead of a click, scrolls at once when there is no button, and never raises |
| Scraper.SessionFailureReturnsEmpty | scraper/actuarylist_scraper.py:80-85 | a launch or load failure returns `[]` and leaves earlier records untouched |
| Scraper.LoadedRunAppends | scraper/actuarylist_scraper.py:64-78 | a loaded run returns its record list, keeps earlier records in front, and appends one record per titled listing considered, in page order |
| Scraper.AllTitledKeepsPrefix | scraper/actuarylist_scraper.py:67 | when every listing has a title, a run keeps exactly `min(max_jobs, N)` records |
| Scraper.PresentTitlesAll | scraper/actuarylist_scraper.py:67-71 | when every listing has a title, every listing contributes a title |
| Scraper.OneUntitledSkipped | scraper/actuarylist_scraper.py:67-75 | a single untitled listing costs exactly one record, and the rest are still collected |
| Scraper.MainArgs | scraper/actuarylist_scraper.py:244-254 | without arguments `main` uses `max_jobs = 50` and headless mode |
| Scraper.MainArgsMaxJobs | scraper/actuarylist_scraper.py:247-251 | an integer first argument is taken as it is, and one without a digit leaves 50 |
| Scraper.ActuaryListScraper.constructor | scraper/actuarylist_scraper.py:23-27 | a new scraper has the given settings, no driver and no records |
| Scraper.ActuaryListScraper.ExtractJobData | scraper/actuarylist_scraper.py:111-229 | the extraction method computes the extraction for the next position, which is the number of records so far |
| Scraper.ActuaryListScraper.ScrapeListings | scraper/actuarylist_scraper.py:67-75 | the loop appends the batch of the considered listings to `self.jobs` and changes nothing else |
| Scraper.ActuaryListScraper.ScrapeJobs | scraper/actuarylist_scraper.py:44-85 | `scrape_jobs` has the run's records and outcome; once a driver exists it is quit on every path, and the settings are unchanged |
| Scraper.RunMain | scraper/actuarylist_scraper.py:240-276 | `main` reports the dump of a non-empty batch, the "nothing scraped" notice, or the caught error |
| RunScraper.EnvelopeOf | scraper/run_scraper.py:12-26 | on return the envelope is a success holding the jobs; on an exception it is a failure with its text, no jobs and count 0; `count` is always `len(jobs)` |
| RunScraper.Run | scraper/run_scraper.py:10-26 | `run_scraper` runs one fresh scraper and wraps its outcome |
| RunScraper.BrowserFailureIsEmptySuccess | scraper/run_scraper.py:13-19 | a browser that cannot start or load gives a successful envelope with no jobs, unless quitting the driver raises |
| RunScraper.LoadedEnvelope | scraper/run_scraper.py:13-19 | on a loaded page the envelope succeeds with one job per titled listing considered, in page order |
| RunScraper.MaxJobsArg | scraper/run_scraper.py:29-34 | without a first argument `max_jobs` is 20 |
| RunScraper.MaxJobsArgSpec | scraper/run_scraper.py:29-34 | an integer argument is taken as it is, and one without a digit leaves 20 |
| RunScraper.StdoutAsWritten | scraper/actuarylist_scraper.py:47 | the process's output starts with the setup message and ends with the envelope's JSON |
| RunScraper.StdoutCorrected | scraper/run_scraper.py:37 | the corrected output is the envelope's JSON alone |
| RunScraper.RunProcessAsWritten | scraper/run_scraper.py:28-37 | the script exits with 0, and its output is the progress text followed by the envelope |
| RunScraper.RunProcess | scraper/run_scraper.py:28-37 | with the progress text moved elsewhere, the script exits with 0 and prints the envelope alone |
| Backend.OrderIsTotalPreorder | backend/app.py:102-106 | both sort directions are total and transitive, so the sort is well defined |
| Backend.FirstMissing | backend/app.py:132-135 | none is reported exactly when title, company and location are all truthy; otherwise the first falsy one is named, in that order |
| Backend.NewJob | backend/app.py:138-147 | the new record has id `str(job_counter)`, the given fields, and defaults of "Full-time", `[]` and `""` |
| Backend.Patched | backend/app.py:167-172 | each key present in the body overwrites its field, each absent key keeps the old value; the id and posting date never change |
| Backend.PatchedIdempotent | backend/app.py:167-172 | sending the same update twice has the effect of sending it once |
| Backend.Renumbered | backend/app.py:219-220 | scraped job `i` gets the id `str(counter + i)` and keeps every other field |
| Backend.Loads | backend/app.py:212 | `json.loads` succeeds exactly when the output is one envelope and nothing else |
| Backend.FailedScrapeChangesNothing | backend/app.py:230-250 | a timeout, a non-zero exit, unparsable output or `success == false` leaves the table and the counter as they were |
| Backend.ScraperArgvRoundTrip | backend/app.py:197-204 | the `max_jobs` the server passes, 20 by default, is the number the script uses |
| Backend.NextIdIsFresh | backend/app.py:139 | the next counter id is none of the ids already handed out |
| Backend.JobStore.constructor | backend/app.py:17-45 | start-up holds the two initial jobs with counter 3, and the table invariant holds |
| Backend.JobStore.GetJobs | backend/app.py:69-108 | `GET /jobs` returns a permutation of the stored jobs that pass the filters, sorted by posting date in the requested direction, jobs with equal dates in stored order |
| Backend.JobStore.GetJob | backend/app.py:112-120 | a job is found exactly when some stored job has the id, and then it is the first stored job with that id; otherwise 404 |
| Backend.JobStore.CreateJob | backend/app.py:124-152 | a missing field gives 400 and changes nothing; otherwise the new job is appended and the counter increments by one, keeping ids distinct |
| Backend.JobStore.UpdateJob | backend/app.py:156-174 | an unknown id gives 404 and changes nothing; otherwise only the first job with the id is patched, in place |
| Backend.JobStore.DeleteJob | backend/app.py:178-188 | an unknown id gives 404 and changes nothing; otherwise every job with the id is removed, the others keep their order, and the table shrinks by one |
| Backend.JobStore.AddScraped | backend/app.py:216-222 | the scraped jobs are appended in order under consecutive fresh ids, and the counter advances by their number |
| Backend.JobStore.ScrapeJobs | backend/app.py:210-250 | the route's new table, counter and response, from the timeout, exit code, parse and `success` branches |
| Backend.GetJobsMembers | backend/app.py:73-99 | a job is returned, as often as it is stored, exactly when it passes every filter in force |
| Backend.CreatedJobIsFound | backend/app.py:139-152 | a job stored under the next id is the one a lookup by that id finds |
| Backend.DeletedIsGone | backend/app.py:187 | after a delete, no job with that id is left |
| Backend.WithoutIdOrder | backend/app.py:187 | removing an id keeps the remaining ids distinct |
| Api.ParamsOf | frontend/src/services/api.js:18 | each entry becomes its key's name paired with its value |
| Api.BuildParams | frontend/src/services/api.js:14-20 | no filters give no parameters; otherwise the `forEach` appends one parameter per truthy entry |
| Api.QueryOfIsKeep | frontend/src/services/api.js:16-20 | the parameters are exactly those of the truthy entries, in entry order |
| Api.QueryOfMember | frontend/src/services/api.js:17-18 | every truthy entry contributes its name and value |
| Api.QueryOfSource | frontend/src/services/api.js:17-18 | every parameter comes from a truthy entry |
| Api.TrimAll | frontend/src/services/api.js:37 | `map(trim)` trims every piece and keeps the count |
| Api.ParseTagsClean | frontend/src/services/api.js:35-38 | every parsed tag is non-empty, trimmed and free of commas |
| Api.ParseTagsAppend | frontend/src/services/api.js:35-38 | parsing works piece by piece: the tags before a comma come first, in input order |
| Api.Padded | frontend/src/components/JobForm.jsx:46 | each tag after the first is preceded by the pad character |
| Api.JoinPadded | frontend/src/components/JobForm.jsx:46 | joining with `", "` is joining with `","` pieces that start with a space |
| Api.TagsRoundTrip | frontend/src/services/api.js:35-38 | for clean tags, parsing the dialog's `", "`-joined text gives the original list back |
| Api.PayloadOf | frontend/src/services/api.js:33-39 | the request body keeps every form field but `tags`, which becomes the parsed list |
| JobForm.With | frontend/src/components/JobForm.jsx:82 | the given field takes the new value and every other field is kept |
| JobForm.ValidateForm | frontend/src/components/JobForm.jsx:62-72 | title, company and location get an error exactly when blank after trimming; job type exactly when empty, without trimming; tags and description never; the form is valid exactly when no error was recorded |
| JobForm.HandleSubmit | frontend/src/components/JobForm.jsx:62-79 | the form is submitted exactly when it validates, and then unchanged and with no errors; a refused form leaves an error for each blank title, company or location and for an empty job type, with the messages `validateForm` sets |
| JobForm.InputChange | frontend/src/components/JobForm.jsx:81-86 | only the given field changes; only its error is cleared, and only when it had one |
| JobForm.Prefill | frontend/src/components/JobForm.jsx:39-60 | editing fills the fields from the job, with tags joined by `", "`; adding clears every field; errors are reset in both cases |
| JobFilters.NameInjective | backend/app.py:76-102 | the query-parameter names of different filter keys differ |
| JobFilters.FilterValue | frontend/src/components/JobFilters.jsx:27-30 | "all-locations", "all-types" and `""` become `undefined`, and anything else is kept as it is |
| JobFilters.UpdateFilter | frontend/src/components/JobFilters.jsx:25-35 | the key gets the mapped value and every other key reads as before |
| JobFilters.HasActiveFilters | frontend/src/components/JobFilters.jsx:37-39 | "Clear All" shows exactly when some value is truthy and is not "posting_date_desc" |
| JobFilters.SetActive | frontend/src/components/JobFilters.jsx:31-39 | after storing `v` under a key, a filter is active exactly when `v` is active or another key holds an active value |
| JobFilters.UpdateActive | frontend/src/components/JobFilters.jsx:25-39 | the same holds of the value `updateFilter` stores |
| App.ClearFilters | frontend/src/App.jsx:235-237 | clearing gives exactly `{sort: "posting_date_desc"}`, which shows no active filter |
| App.OldestFirstIsActive | frontend/src/components/JobFilters.jsx:37-39 | `{sort: "posting_date_asc"}` counts as an active filter |
| App.ClientOrderIsTotalPreorder | frontend/src/App.jsx:134-146 | both timestamp comparators are total and transitive |
| App.ApplyFilters | frontend/src/App.jsx:101-149 | the view is a permutation of the jobs that pass every filter in force, sorted by timestamp, ascending only for "posting_date_asc", jobs with equal timestamps in listed order |
| App.ApplyFiltersMembers | frontend/src/App.jsx:102-131 | a job is shown, as often as it is listed, exactly when it passes; the view is a sub-multiset of the list |
| App.DeleteLocally | frontend/src/App.jsx:171 | the local delete drops every job with the id and keeps every copy of the others |
| App.EditedJob | frontend/src/App.jsx:189-196 | the edited record keeps the id and posting date, takes the form's fields, and takes the parsed tags |
| App.UpdateLocally | frontend/src/App.jsx:197-199 | the length and every id are kept; exactly the jobs with the edited id are replaced |
| App.EditWithoutChanges | frontend/src/App.jsx:189-199 | opening a job with clean tags and a unique id and saving without a change leaves the list as it was |
| App.LocalJob | frontend/src/App.jsx:208-216 | the local record has the clock id, the form's fields, the parsed tags and the current date |
| App.CreateLocally | frontend/src/App.jsx:217 | the new record comes first, and the old list follows unchanged |
| App.MockScrapedJobs | frontend/src/App.jsx:247-281 | three full-time fixture records, numbered 1 to 3, each stamped with its own clock readings |
| App.MockIdsDistinct | frontend/src/App.jsx:249-271 | the simulated records carry distinct ids |
| App.MockIdsDiffer | frontend/src/App.jsx:249-271 | two positions give two different simulated ids, whatever the clock read for each |
| App.MockScrape | frontend/src/App.jsx:287 | the simulated scrape puts its three records first and keeps the old list after them, in order |
| EndToEnd.ArgsGet | backend/app.py:76 | `request.args.get` returns only a value given under that name |
| EndToEnd.ArgsGetAppend | backend/app.py:76 | the first occurrence of a name wins |
| EndToEnd.ParamsFront | frontend/src/services/api.js:18 | the parameters are read front to back, entry by entry |
| EndToEnd.ParamsStep | frontend/src/services/api.js:17-18 | the first entry decides the parameter under its name when it is truthy, and otherwise the rest decides |
| EndToEnd.AbsentKeyNoParam | frontend/src/services/api.js:17-18 | a key the filter object lacks sends no parameter |
| EndToEnd.KeptParams | frontend/src/services/api.js:16-20 | with distinct keys, the parameters under a key's name carry exactly its truthy value |
| EndToEnd.ParamsCarryTruthyValues | frontend/src/services/api.js:16-20 | the server reads back, under each key's name, the client's value when it is truthy, and nothing otherwise |
| EndToEnd.NarrowByTruthiness | frontend/src/App.jsx:105-131 | a filter value not in force acts like an absent one, and one in force acts by its text |
| EndToEnd.FilterJobsAlike | backend/app.py:76-99 | filters that agree on what is in force keep the same jobs in the same order |
| EndToEnd.QueryReadsFilters | backend/app.py:76-102 | the query the server reads holds each filter's truthy value |
| EndToEnd.ClientAndServerFilterAlike | frontend/src/App.jsx:105-146 | for the query `getJobs` sends, the server keeps exactly the jobs the client keeps and sorts in the same direction |
| EndToEnd.UpdatesKeepKeysDistinct | frontend/src/components/JobFilters.jsx:31-34 | filter objects built from the cleared one by updates have distinct keys |
| EndToEnd.InputOf | frontend/src/services/api.js:33-39 | the server sees every key of the posted body present |
| EndToEnd.AcceptedFormIsStored | backend/app.py:132-147 | a form the dialog accepts passes the server's check and is stored field for field, with the parsed tags |
| EndToEnd.ServerAcceptsBlankTitle | backend/app.py:134 | a title of one space, which the dialog refuses, passes the server's check |
| EndToEnd.ServerEditWithoutChanges | backend/app.py:167-172 | saving an unchanged edit of a job with clean tags leaves the stored job as it was |
| EndToEnd.ScrapeAsWrittenAlwaysFails | backend/app.py:212 | as written, every completed scrape is answered with a JSON error, and the table is unchanged |
| EndToEnd.ScrapeCorrectedAddsJobs | backend/app.py:212-234 | with the envelope alone on stdout, success adds the jobs under fresh ids, and failure is reported with the envelope's error |
| EndToEnd.BrowserFailureAddsNothing | scraper/run_scraper.py:13-19 | with the corrected output, a browser that cannot load gives a successful scrape that adds no job |

## Left out

- The browser is not modelled: Selenium, webdriver_manager, `setup_driver`, navigation, waits and `execute_script`. The page is a session value plus listing elements that are maps from selector to answer.
- `time.sleep` and the clicks and scroll themselves are not modelled. `_load_more_jobs` is modelled only by its count of clicks and whether it scrolls.
- The BeautifulSoup parse of each listing is not modelled, because its result is never used.
- Clock readings are parameters: `datetime.now()`, `time.time()`, `Date.now()` and `new Date().toISOString()`.
- The JavaScript date parse in the client's sort is the parameter `time`. `NaN` timestamps from unparsable dates are not modelled.
- The server compares posting dates as strings.
- `save_to_json`, the file it writes, and the text `main` prints around its dump are not modelled: they are file and console output.
- JSON encoding is not modelled. A line of standard output is either progress text or "the JSON of an envelope".
- `Loads` assumes that every progress line begins with a capital letter, and so never parses as JSON. This holds of every message the scraper prints.
- The subprocess call and its 300-second timeout are not modelled. The route's input is the finished process, or the timeout.
- Flask routing, CORS, configuration and the SQLAlchemy blueprint are not part of this model. backend/routes.py and backend/models.py are not part of it either.
- `health_check` is not modelled, because it raises on every call (a stray `~` on a string key).
- JSON values are all strings, string lists or absent keys. A JSON `null`, a number where a string is expected, and a request with no JSON body (which makes `create_job` and `update_job` raise and answer 500) are not modelled.
- Backend.ScraperArgvRoundTrip: takes `max_jobs` as an integer or absent. Any other JSON value reaches the script as its `str()`. For `"abc"`, `5.5`, `true` or `null`, `int()` then raises ValueError and the script uses 20. A string of digits such as `"7"` is used as that number.
- Decimal.ParseIntToString: holds for every integer in the model. CPython 3.11 and later refuse `str()` and `int()` conversions of more than 4300 digits, and that limit is not modelled.
- JobForm.Prefill: does not model the `|| ""` fallback for the description, because a modelled job always has a string description.
- Scraper.NormalizeTagsSpec: states which tags there are, not their order. Python's set order is not specified, and the model keeps first occurrences.
- Lower-casing covers ASCII letters only. The whitespace sets are those of current Unicode. `int()` is modelled without underscores and without non-ASCII digits.
- The scraper does not check that a title is non-blank after trimming: a blank title gives a record with an empty title.
- The client handlers' branches that succeed against the API are not modelled separately. They replace the list with the server's answer, and the server side is modelled in `Backend`.
- The asynchronous control flow, `window.confirm` and `alert` are not modelled. Only the list transitions of the fallback branches are.
- `URLSearchParams` percent-encoding is not modelled. Parameters are pairs of strings.
- The `mockJobs` fallback list that `loadJobs` uses when the API fails is not modelled. It is fixture data with no logic.
- The scraper's `headless` setting is stored and parsed by `Scraper.MainArgs`, but its effect on the browser is not modelled. run_scraper.py:13 always passes `headless=True`, and the setting does not change the extracted records.
- The server's handlers are modelled as atomic, one request at a time. `app.run` starts Flask's threaded server, and the handlers change `jobs_storage` and `job_counter` without a lock. Overlapping requests can be given the same id: two `create_job` calls, or a create during the scrape loop. A `delete_job` that rebinds the list can also lose a job appended at the same moment. So `JobStore.Valid`, `Backend.NextIdIsFresh` and the distinct ids that `JobStore.CreateJob` keeps hold only when requests do not overlap.

## Findings

| source | as written | input that shows it | evidently intended | confidence | as-written member | corrected member |
|---|---|---|---|---|---|---|
| scraper/actuarylist_scraper.py:47 | `scrape_jobs` prints its progress on standard output, and run_scraper.py:37 prints the envelope after it. backend/app.py:212 then hands the whole output to `json.loads`. | Any run, even one whose browser cannot start: the output begins with "Setting up Chrome driver...", so the parse raises and `POST /scrape-jobs` answers 500. | Standard output carries the envelope alone, so a successful scrape adds its jobs under fresh ids. | not executed | RunScraper.StdoutAsWritten, EndToEnd.ScrapeAsWrittenAlwaysFails | RunScraper.StdoutCorrected, EndToEnd.ScrapeCorrectedAddsJobs |
