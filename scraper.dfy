/**
 * The ActuaryList scraper (scraper/actuarylist_scraper.py): for every job
 * listing element of the loaded page it walks fixed, ordered chains of CSS
 * selectors, takes the first selector that yields non-blank text, falls back
 * to a fixed default otherwise, normalises the tags and assembles a job
 * record; the batch loop takes at most `max_jobs` listings and skips those
 * whose extraction fails.
 *
 * The browser is only a source of strings. A listing element is modelled as
 * the answers its selector queries give; the page session is modelled by how
 * far it gets before the listings are read; clock readings are inputs.
 */
module Scraper {
  import opened Wrappers
  import opened Strings
  import Decimal
  import Seqs
  import opened Jobs

  // ---------------------------------------------------------------------------
  // Listing elements

  /**
   * What one CSS-selector query on a listing element answers: the texts of
   * the matching elements in document order, or a query that raised part-way
   * (a stale element, say) after yielding the texts in `partial`.
   */
  datatype Query = Matched(texts: seq<string>) | Raised(partial: seq<string>)

  /** A listing element: each selector's answer; a selector without an entry matches nothing. */
  type Listing = map<Selector, Query>

  function Ask(e: Listing, sel: Selector): Query {
    if sel in e then e[sel] else Matched([])
  }

  /** The texts a `find_elements` loop sees before the query ends or raises. */
  function TextsOf(q: Query): seq<string> {
    match q
    case Matched(texts) => texts
    case Raised(partial) => partial
  }

  /**
   * `element.find_element(By.CSS_SELECTOR, sel).text.strip()`: the trimmed text
   * of the first match, or `None` where the call raises (nothing matches, or
   * the query fails).
   */
  function FindText(e: Listing, sel: Selector): (r: Option<string>)
    ensures r.Some? ==> Trimmed(PythonSpace, r.value)
  {
    match Ask(e, sel)
    case Matched(texts) => if |texts| > 0 then Some(Trim(PythonSpace, texts[0])) else None
    case Raised(_) => None
  }

  /** The selector yields an element whose trimmed text is not empty. */
  predicate Usable(e: Listing, sel: Selector) {
    FindText(e, sel).Some? && FindText(e, sel).value != ""
  }

  // ---------------------------------------------------------------------------
  // The selector chains and defaults of `_extract_job_data`

  /** The CSS selectors `_extract_job_data` queries a listing element with. */
  datatype Selector =
    | TitleQuery
    | CompanyName | Employer | CompanyClass | H4 | JobCompany | DataCompany
    | LocationName | JobLocation | LocationClass | DataLocation | City | State
    | DateName | PostedDate | DateClass | TimeClass | DataDate | Posted | TimeTag
    | JobTypeName | EmploymentType | TypeClass | FullTimeClass | PartTimeClass | ContractClass | InternClass
    | Skills | Tags | Keywords | SkillClass | Badge | Chip | Tag | TagClass

  /** The selector text each query passes to `find_element`/`find_elements`. */
  function Css(sel: Selector): string {
    match sel
    case TitleQuery => "h3, .job-title, [class*='title'], a[href*='/job/']"
    case CompanyName => ".company-name"
    case Employer => ".employer"
    case CompanyClass => "[class*='company']"
    case H4 => "h4"
    case JobCompany => ".job-company"
    case DataCompany => "[data-company]"
    case LocationName => ".location"
    case JobLocation => ".job-location"
    case LocationClass => "[class*='location']"
    case DataLocation => "[data-location]"
    case City => ".city"
    case State => ".state"
    case DateName => ".date"
    case PostedDate => ".posted-date"
    case DateClass => "[class*='date']"
    case TimeClass => ".time"
    case DataDate => "[data-date]"
    case Posted => ".posted"
    case TimeTag => "time"
    case JobTypeName => ".job-type"
    case EmploymentType => ".employment-type"
    case TypeClass => "[class*='type']"
    case FullTimeClass => ".full-time"
    case PartTimeClass => ".part-time"
    case ContractClass => ".contract"
    case InternClass => ".intern"
    case Skills => ".skills"
    case Tags => ".tags"
    case Keywords => ".keywords"
    case SkillClass => "[class*='skill']"
    case Badge => ".badge"
    case Chip => ".chip"
    case Tag => ".tag"
    case TagClass => "[class*='tag']"
  }

  const TitleSelector: Selector := TitleQuery
  const CompanySelectors: seq<Selector> := [CompanyName, Employer, CompanyClass, H4, JobCompany, DataCompany]
  const LocationSelectors: seq<Selector> := [LocationName, JobLocation, LocationClass, DataLocation, City, State]
  const DateSelectors: seq<Selector> := [DateName, PostedDate, DateClass, TimeClass, DataDate, Posted, TimeTag]
  const JobTypeSelectors: seq<Selector> :=
    [JobTypeName, EmploymentType, TypeClass, FullTimeClass, PartTimeClass, ContractClass, InternClass]
  const TagSelectors: seq<Selector> := [Skills, Tags, Keywords, SkillClass, Badge, Chip, Tag, TagClass]

  const UnknownCompany: string := "Unknown Company"
  const DefaultLocation: string := "Remote"
  const DefaultTags: seq<string> := ["Actuarial", "Insurance", "Risk Management"]
  const MaxTags: nat := 5
  const TagLengthLimit: nat := 50

  // ---------------------------------------------------------------------------
  // Locator chains

  /** The first position at or after `from` whose selector is usable. */
  function FirstUsableFrom(e: Listing, chain: seq<Selector>, from: nat): (r: Option<nat>)
    requires from <= |chain|
    ensures r.Some? ==>
              from <= r.value < |chain| && Usable(e, chain[r.value])
              && forall k :: from <= k < r.value ==> !Usable(e, chain[k])
    ensures r.None? ==> forall k :: from <= k < |chain| ==> !Usable(e, chain[k])
    decreases |chain| - from
  {
    if from == |chain| then None
    else if Usable(e, chain[from]) then Some(from)
    else FirstUsableFrom(e, chain, from + 1)
  }

  function FirstUsable(e: Listing, chain: seq<Selector>): Option<nat> {
    FirstUsableFrom(e, chain, 0)
  }

  /**
   * One selector loop of `_extract_job_data`: the selectors are tried in
   * order, one that raises or yields only whitespace is passed over, and the
   * loop stops at the first that yields text.
   */
  method FindFirst(e: Listing, chain: seq<Selector>) returns (pick: Option<nat>)
    ensures pick == FirstUsable(e, chain)
  {
    pick := None;
    var i := 0;
    while i < |chain|
      invariant 0 <= i <= |chain|
      invariant forall k :: 0 <= k < i ==> !Usable(e, chain[k])
    {
      var found := FindText(e, chain[i]);
      if found.Some? && found.value != "" {
        pick := Some(i);
        break;
      }
      i := i + 1;
    }
  }

  /** A selector loop with its default: the text of the first selector that yields any. */
  method ChainField(e: Listing, chain: seq<Selector>, default: string) returns (v: string)
    ensures v == ChainValue(e, chain, default)
  {
    v := default;
    var pick := FindFirst(e, chain);
    if pick.Some? {
      v := FindText(e, chain[pick.value]).value;
    }
  }

  /** The job-type loop: classify the text of the first type selector that yields any. */
  method JobTypeField(e: Listing) returns (t: string)
    ensures t == JobTypeValue(e)
  {
    t := "Full-time";
    var pick := FindFirst(e, JobTypeSelectors);
    if pick.Some? {
      t := KindName(Classify(FindText(e, JobTypeSelectors[pick.value]).value));
    }
  }

  /**
   * The value a locator chain gives a field: the trimmed text of the first
   * usable selector, or the default when no selector is usable.
   */
  function ChainValue(e: Listing, chain: seq<Selector>, default: string): string {
    match FirstUsable(e, chain)
    case None => default
    case Some(k) => FindText(e, chain[k]).value
  }

  /**
   * A chain's value is the default exactly when no selector is usable, and
   * otherwise the text of the first usable one; a non-blank, trimmed default
   * gives a non-blank, trimmed value.
   */
  lemma ChainValueSpec(e: Listing, chain: seq<Selector>, default: string)
    ensures var v := ChainValue(e, chain, default);
      && ((forall k :: 0 <= k < |chain| ==> !Usable(e, chain[k])) ==> v == default)
      && (forall k :: 0 <= k < |chain| && Usable(e, chain[k]) && (forall j :: 0 <= j < k ==> !Usable(e, chain[j]))
                      ==> v == FindText(e, chain[k]).value)
      && (default != "" ==> v != "")
      && (Trimmed(PythonSpace, default) ==> Trimmed(PythonSpace, v))
  {
  }

  /** Two listings that agree on every selector of a chain pick the same position in it. */
  lemma {:induction false} FirstUsableAgrees(e1: Listing, e2: Listing, chain: seq<Selector>, from: nat)
    requires from <= |chain|
    requires forall k :: 0 <= k < |chain| ==> Ask(e1, chain[k]) == Ask(e2, chain[k])
    ensures FirstUsableFrom(e1, chain, from) == FirstUsableFrom(e2, chain, from)
    decreases |chain| - from
  {
    if from < |chain| {
      assert FindText(e1, chain[from]) == FindText(e2, chain[from]);
      FirstUsableAgrees(e1, e2, chain, from + 1);
    }
  }

  // ---------------------------------------------------------------------------
  // Job type

  datatype JobKind = FullTime | PartTime | Contract | Internship

  function KindName(k: JobKind): string {
    match k
    case FullTime => "Full-time"
    case PartTime => "Part-time"
    case Contract => "Contract"
    case Internship => "Internship"
  }

  /** The raw type text, lower-cased, mapped by substring in fixed priority: part, contract, intern. */
  function Classify(raw: string): JobKind {
    var t := Lower(raw);
    if Contains(t, "part") then PartTime
    else if Contains(t, "contract") then Contract
    else if Contains(t, "intern") then Internship
    else FullTime
  }

  /**
   * The job type of a listing: only the first selector of the type chain that
   * yields text is consulted; with none, "Full-time". It is always one of the
   * four selectable job types.
   */
  function JobTypeValue(e: Listing): string {
    match FirstUsable(e, JobTypeSelectors)
    case None => "Full-time"
    case Some(k) => KindName(Classify(FindText(e, JobTypeSelectors[k]).value))
  }

  /**
   * The job type is one of the four selectable ones: "Full-time" when no
   * type selector is usable, else the classification of the first usable one.
   */
  lemma JobTypeValueSpec(e: Listing)
    ensures var t := JobTypeValue(e);
      && t in JobTypes
      && ((forall k :: 0 <= k < |JobTypeSelectors| ==> !Usable(e, JobTypeSelectors[k])) ==> t == "Full-time")
      && (forall k :: 0 <= k < |JobTypeSelectors| && Usable(e, JobTypeSelectors[k])
                      && (forall j :: 0 <= j < k ==> !Usable(e, JobTypeSelectors[j]))
                      ==> t == KindName(Classify(FindText(e, JobTypeSelectors[k]).value)))
  {
    var pick := FirstUsable(e, JobTypeSelectors);
    KindNameSelectable(if pick.Some? then Classify(FindText(e, JobTypeSelectors[pick.value]).value) else FullTime);
    if pick.Some? {
      forall k | 0 <= k < |JobTypeSelectors| && Usable(e, JobTypeSelectors[k])
                 && (forall j :: 0 <= j < k ==> !Usable(e, JobTypeSelectors[j]))
        ensures k == pick.value
      {
        if k < pick.value {
        } else if pick.value < k {
        }
      }
    }
  }

  /** Every classification names one of the four selectable job types. */
  lemma KindNameSelectable(k: JobKind)
    ensures KindName(k) in JobTypes
  {
    assert JobTypes[0] == "Full-time" && JobTypes[1] == "Part-time";
    assert JobTypes[2] == "Internship" && JobTypes[3] == "Contract";
  }

  /** The keyword priority: "part" wins over "contract", which wins over "intern". */
  lemma ClassifyPriority(raw: string)
    ensures Contains(Lower(raw), "part") ==> Classify(raw) == PartTime
    ensures !Contains(Lower(raw), "part") && Contains(Lower(raw), "contract") ==> Classify(raw) == Contract
    ensures Classify(raw) == Internship <==>
              !Contains(Lower(raw), "part") && !Contains(Lower(raw), "contract") && Contains(Lower(raw), "intern")
    ensures Classify(raw) == FullTime <==>
              !Contains(Lower(raw), "part") && !Contains(Lower(raw), "contract") && !Contains(Lower(raw), "intern")
  {
  }

  // ---------------------------------------------------------------------------
  // Tags

  /** A tag the scraper keeps: non-blank, trimmed and shorter than 50 characters. */
  predicate GoodTag(t: string) {
    t != "" && Trimmed(PythonSpace, t) && |t| < TagLengthLimit
  }

  /** The texts of one `find_elements` answer that survive the tag filter, in order. */
  function KeptTexts(texts: seq<string>): seq<string> {
    if texts == [] then []
    else
      var t := Trim(PythonSpace, texts[|texts| - 1]);
      KeptTexts(texts[..|texts| - 1]) + (if t != "" && |t| < TagLengthLimit then [t] else [])
  }

  /** All tags collected from the given tag selectors, selector by selector. */
  function Collected(e: Listing, sels: seq<Selector>): seq<string> {
    if sels == [] then []
    else Collected(e, sels[..|sels| - 1]) + KeptTexts(TextsOf(Ask(e, sels[|sels| - 1])))
  }

  /** Every text the tag filter keeps is a good tag. */
  lemma {:induction false} KeptTextsGood(texts: seq<string>)
    ensures forall i :: 0 <= i < |KeptTexts(texts)| ==> GoodTag(KeptTexts(texts)[i])
  {
    if texts != [] {
      KeptTextsGood(texts[..|texts| - 1]);
    }
  }

  /** Every collected tag is a good tag. */
  lemma {:induction false} CollectedGood(e: Listing, sels: seq<Selector>)
    ensures forall i :: 0 <= i < |Collected(e, sels)| ==> GoodTag(Collected(e, sels)[i])
  {
    if sels != [] {
      CollectedGood(e, sels[..|sels| - 1]);
      KeptTextsGood(TextsOf(Ask(e, sels[|sels| - 1])));
    }
  }

  /** The inner tag loop over the elements one tag selector matched. */
  method KeepTagTexts(texts: seq<string>) returns (tags: seq<string>)
    ensures tags == KeptTexts(texts)
  {
    tags := [];
    var j := 0;
    while j < |texts|
      invariant 0 <= j <= |texts|
      invariant tags == KeptTexts(texts[..j])
    {
      var t := Trim(PythonSpace, texts[j]);
      assert texts[..j + 1][..j] == texts[..j] && texts[..j + 1][j] == texts[j];
      if t != "" && |t| < TagLengthLimit {
        tags := tags + [t];
      }
      j := j + 1;
    }
    assert texts[..j] == texts;
  }

  /**
   * The tag loop: every element matched by every tag selector is read in
   * order; a selector whose query raises contributes what it yielded before
   * raising and the loop goes on with the next selector.
   */
  method CollectTags(e: Listing) returns (tags: seq<string>)
    ensures tags == Collected(e, TagSelectors)
  {
    tags := [];
    var i := 0;
    while i < |TagSelectors|
      invariant 0 <= i <= |TagSelectors|
      invariant tags == Collected(e, TagSelectors[..i])
    {
      var kept := KeepTagTexts(TextsOf(Ask(e, TagSelectors[i])));
      assert TagSelectors[..i + 1][..i] == TagSelectors[..i];
      tags := tags + kept;
      i := i + 1;
    }
    assert TagSelectors[..i] == TagSelectors;
  }

  function Min(a: int, b: int): int {
    if a <= b then a else b
  }

  /**
   * `tags[:5]` made unique, or the default actuarial tags when nothing was
   * collected. Python's set leaves the order open; the contract states only
   * which tags there are.
   */
  function NormalizeTags(tags: seq<string>): seq<string> {
    if tags == [] then DefaultTags else Seqs.Dedup(tags[..Min(MaxTags, |tags|)])
  }

  /**
   * Nothing collected gives the default tags; otherwise the result holds each
   * of the first five collected tags once, and nothing else.
   */
  lemma NormalizeTagsSpec(tags: seq<string>)
    ensures var r := NormalizeTags(tags);
      && (tags == [] ==> r == DefaultTags)
      && (tags != [] ==>
            && Seqs.NoDuplicates(r)
            && 1 <= |r| <= MaxTags
            && forall x :: x in r <==> x in tags[..Min(MaxTags, |tags|)])
  {
    if tags != [] {
      assert tags[0] in NormalizeTags(tags);
    }
  }

  /** The tags of a record are distinct good tags, between one and five of them. */
  ghost predicate GoodTagList(tags: seq<string>) {
    && Seqs.NoDuplicates(tags)
    && 1 <= |tags| <= MaxTags
    && forall i :: 0 <= i < |tags| ==> GoodTag(tags[i])
  }

  /** Normalising good tags gives a good tag list, whatever was collected. */
  lemma NormalizeTagsGood(tags: seq<string>)
    requires forall i :: 0 <= i < |tags| ==> GoodTag(tags[i])
    ensures GoodTagList(NormalizeTags(tags))
  {
    var r := NormalizeTags(tags);
    NormalizeTagsSpec(tags);
    if tags == [] {
      assert GoodTag(DefaultTags[0]) && GoodTag(DefaultTags[1]) && GoodTag(DefaultTags[2]);
    } else {
      forall i | 0 <= i < |r| ensures GoodTag(r[i]) {
        assert r[i] in tags[..Min(MaxTags, |tags|)];
      }
    }
  }

  // ---------------------------------------------------------------------------
  // Record assembly

  /** The clock readings taken while one listing is extracted. */
  datatype Capture = Capture(
    epoch: nat,          // int(time.time()) for the id
    isoAtStart: string,  // datetime.now().isoformat() before the date selectors are probed
    isoAtMatch: string)  // datetime.now().isoformat() read again when a date selector matches

  /** The posting date: a clock reading either way; the matched date text is discarded. */
  function PostingDate(e: Listing, cap: Capture): (d: string)
    ensures d == cap.isoAtStart || d == cap.isoAtMatch
  {
    if FirstUsable(e, DateSelectors).Some? then cap.isoAtMatch else cap.isoAtStart
  }

  function Description(company: string, location: string): string {
    "Actuarial position at " + company + " in " + location + ". This job was scraped from ActuaryList.com."
  }

  /** `f"scraped_{int(time.time())}_{len(self.jobs)}"`. */
  function ScrapedId(epoch: nat, index: nat): string {
    "scraped_" + Decimal.NatToString(epoch) + "_" + Decimal.NatToString(index)
  }

  /** The last segment of a scraped id is the position the record got in the batch. */
  lemma ScrapedIdIndex(epoch: nat, index: nat)
    ensures AfterLastUnderscore(ScrapedId(epoch, index)) == Decimal.NatToString(index)
  {
    var d := Decimal.NatToString(index);
    assert forall k :: 0 <= k < |d| ==> d[k] != '_' by { assert Decimal.AllDigits(d); }
    AfterLastUnderscoreOf("scraped_" + Decimal.NatToString(epoch), d);
  }

  /** Records at different positions get different ids, whatever the clock said. */
  lemma ScrapedIdsDiffer(epoch1: nat, index1: nat, epoch2: nat, index2: nat)
    requires index1 != index2
    ensures ScrapedId(epoch1, index1) != ScrapedId(epoch2, index2)
  {
    ScrapedIdIndex(epoch1, index1);
    ScrapedIdIndex(epoch2, index2);
    if ScrapedId(epoch1, index1) == ScrapedId(epoch2, index2) {
      Decimal.NatToStringInjective(index1, index2);
    }
  }

  /**
   * The record invariant: every display field is populated, the job type is a
   * known one, the tags are a good tag list, the description follows the
   * template and the id ends in the record's position.
   */
  ghost predicate WellFormed(j: Job, index: nat, cap: Capture) {
    && j.company != "" && Trimmed(PythonSpace, j.company)
    && j.location != "" && Trimmed(PythonSpace, j.location)
    && Trimmed(PythonSpace, j.title)
    && j.jobType in JobTypes
    && GoodTagList(j.tags)
    && (j.postingDate == cap.isoAtStart || j.postingDate == cap.isoAtMatch)
    && j.description == Description(j.company, j.location)
    && AfterLastUnderscore(j.id) == Decimal.NatToString(index)
  }

  /** The record built around a title from the locator chains, the tag loop and the clock readings. */
  function Assemble(e: Listing, index: nat, cap: Capture, title: string): (j: Job)
    ensures j.title == title && j.id == ScrapedId(cap.epoch, index)
    ensures j.company == ChainValue(e, CompanySelectors, UnknownCompany)
    ensures j.location == ChainValue(e, LocationSelectors, DefaultLocation)
    ensures j.jobType == JobTypeValue(e)
    ensures j.tags == NormalizeTags(Collected(e, TagSelectors))
    ensures j.postingDate == PostingDate(e, cap)
    ensures j.description == Description(j.company, j.location)
  {
    var company := ChainValue(e, CompanySelectors, UnknownCompany);
    var location := ChainValue(e, LocationSelectors, DefaultLocation);
    Job(ScrapedId(cap.epoch, index), title, company, location, JobTypeValue(e),
        NormalizeTags(Collected(e, TagSelectors)), PostingDate(e, cap), Description(company, location))
  }

  /**
   * What `_extract_job_data` returns for a listing that is the `index`-th
   * record of the run: nothing when the title query raises, and otherwise the
   * record built from the locator chains.
   */
  function ExtractSpec(e: Listing, index: nat, cap: Capture): (r: Option<Job>)
    ensures r.None? <==> FindText(e, TitleSelector).None?
    ensures r.Some? ==> r.value == Assemble(e, index, cap, FindText(e, TitleSelector).value)
    ensures r.Some? ==> r.value.title == FindText(e, TitleSelector).value
  {
    match FindText(e, TitleSelector)
    case None => None
    case Some(title) => Some(Assemble(e, index, cap, title))
  }

  /**
   * The defaults reach the record: a listing with no usable company selector
   * is filed under "Unknown Company", one with no usable location selector
   * under "Remote", one with no usable type selector as "Full-time", and one
   * with no collected tag gets the three actuarial tags.
   */
  lemma ExtractDefaults(e: Listing, index: nat, cap: Capture)
    requires ExtractSpec(e, index, cap).Some?
    ensures var j := ExtractSpec(e, index, cap).value;
      && ((forall k :: 0 <= k < |CompanySelectors| ==> !Usable(e, CompanySelectors[k])) ==> j.company == UnknownCompany)
      && ((forall k :: 0 <= k < |LocationSelectors| ==> !Usable(e, LocationSelectors[k])) ==> j.location == DefaultLocation)
      && ((forall k :: 0 <= k < |JobTypeSelectors| ==> !Usable(e, JobTypeSelectors[k])) ==> j.jobType == "Full-time")
      && (Collected(e, TagSelectors) == [] ==> j.tags == DefaultTags)
  {
    ChainValueSpec(e, CompanySelectors, UnknownCompany);
    ChainValueSpec(e, LocationSelectors, DefaultLocation);
    JobTypeValueSpec(e);
  }

  /** Every extracted record satisfies the record invariant. */
  lemma ExtractWellFormed(e: Listing, index: nat, cap: Capture)
    requires ExtractSpec(e, index, cap).Some?
    ensures WellFormed(ExtractSpec(e, index, cap).value, index, cap)
  {
    AssembleWellFormed(e, index, cap, FindText(e, TitleSelector).value);
  }

  /** A record assembled around a trimmed title satisfies the record invariant. */
  lemma AssembleWellFormed(e: Listing, index: nat, cap: Capture, title: string)
    requires Trimmed(PythonSpace, title)
    ensures WellFormed(Assemble(e, index, cap, title), index, cap)
  {
    DefaultsTrimmed();
    ChainValueSpec(e, CompanySelectors, UnknownCompany);
    ChainValueSpec(e, LocationSelectors, DefaultLocation);
    JobTypeValueSpec(e);
    CollectedGood(e, TagSelectors);
    NormalizeTagsGood(Collected(e, TagSelectors));
    ScrapedIdIndex(cap.epoch, index);
  }

  lemma DefaultsTrimmed()
    ensures Trimmed(PythonSpace, UnknownCompany) && Trimmed(PythonSpace, DefaultLocation)
  {
  }

  /** Two listings that agree on a chain give its field the same value. */
  lemma ChainValueAgrees(e1: Listing, e2: Listing, chain: seq<Selector>, default: string)
    requires forall k :: 0 <= k < |chain| ==> Ask(e1, chain[k]) == Ask(e2, chain[k])
    ensures ChainValue(e1, chain, default) == ChainValue(e2, chain, default)
  {
    FirstUsableAgrees(e1, e2, chain, 0);
    var p := FirstUsable(e1, chain);
    if p.Some? {
      assert FindText(e1, chain[p.value]) == FindText(e2, chain[p.value]);
    }
  }

  /** No selector outside the date chain is a date selector. */
  lemma OtherChainsAvoidDates()
    ensures TitleSelector !in DateSelectors
    ensures forall k :: 0 <= k < |CompanySelectors| ==> CompanySelectors[k] !in DateSelectors
    ensures forall k :: 0 <= k < |LocationSelectors| ==> LocationSelectors[k] !in DateSelectors
    ensures forall k :: 0 <= k < |JobTypeSelectors| ==> JobTypeSelectors[k] !in DateSelectors
    ensures forall k :: 0 <= k < |TagSelectors| ==> TagSelectors[k] !in DateSelectors
  {
  }

  /**
   * What the date selectors answer influences nothing but the posting date,
   * which is a clock reading either way: two listings that differ only there
   * extract to records that differ at most in that field.
   */
  lemma DateTextDiscarded(e1: Listing, e2: Listing, index: nat, cap: Capture)
    requires forall s :: s !in DateSelectors ==> Ask(e1, s) == Ask(e2, s)
    ensures var r1, r2 := ExtractSpec(e1, index, cap), ExtractSpec(e2, index, cap);
            && r1.Some? == r2.Some?
            && (r1.Some? ==> r2.value == r1.value.(postingDate := r2.value.postingDate))
  {
    OtherChainsAvoidDates();
    assert FindText(e2, TitleSelector) == FindText(e1, TitleSelector);
    ChainValueAgrees(e1, e2, CompanySelectors, UnknownCompany);
    ChainValueAgrees(e1, e2, LocationSelectors, DefaultLocation);
    JobTypeValueAgrees(e1, e2);
    CollectedAgrees(e1, e2, TagSelectors);
  }

  lemma JobTypeValueAgrees(e1: Listing, e2: Listing)
    requires forall k :: 0 <= k < |JobTypeSelectors| ==> Ask(e1, JobTypeSelectors[k]) == Ask(e2, JobTypeSelectors[k])
    ensures JobTypeValue(e1) == JobTypeValue(e2)
  {
    FirstUsableAgrees(e1, e2, JobTypeSelectors, 0);
    var p := FirstUsable(e1, JobTypeSelectors);
    if p.Some? {
      assert FindText(e1, JobTypeSelectors[p.value]) == FindText(e2, JobTypeSelectors[p.value]);
    }
  }

  lemma {:induction false} CollectedAgrees(e1: Listing, e2: Listing, sels: seq<Selector>)
    requires forall k :: 0 <= k < |sels| ==> Ask(e1, sels[k]) == Ask(e2, sels[k])
    ensures Collected(e1, sels) == Collected(e2, sels)
  {
    if sels != [] {
      CollectedAgrees(e1, e2, sels[..|sels| - 1]);
    }
  }

  // ---------------------------------------------------------------------------
  // The batch

  /** The titles of the listings whose title query succeeds, in page order. */
  function PresentTitles(els: seq<Listing>): seq<string> {
    if els == [] then []
    else
      var last := els[|els| - 1];
      PresentTitles(els[..|els| - 1]) + (if FindText(last, TitleSelector).Some? then [FindText(last, TitleSelector).value] else [])
  }

  function Titles(jobs: seq<Job>): (ts: seq<string>)
    ensures |ts| == |jobs| && forall k :: 0 <= k < |jobs| ==> ts[k] == jobs[k].title
  {
    seq(|jobs|, k requires 0 <= k < |jobs| => jobs[k].title)
  }

  /** How the batch loop turns one listing into a record: given the listing, the record's position and the clock. */
  type Extractor = (Listing, nat, Capture) -> Option<Job>

  /** An extractor that skips exactly the untitled listings and keeps the title. */
  ghost predicate KeepsTitles(extract: Extractor) {
    forall e, i, c ::
      && (extract(e, i, c).Some? <==> FindText(e, TitleSelector).Some?)
      && (extract(e, i, c).Some? ==> extract(e, i, c).value.title == FindText(e, TitleSelector).value)
  }

  /** An extractor whose every record satisfies the record invariant. */
  ghost predicate AlwaysWellFormed(extract: Extractor) {
    forall e, i, c :: extract(e, i, c).Some? ==> WellFormed(extract(e, i, c).value, i, c)
  }

  /** An extractor whose every record's id ends in the record's position. */
  ghost predicate NumbersIds(extract: Extractor) {
    forall e, i, c :: extract(e, i, c).Some? ==> AfterLastUnderscore(extract(e, i, c).value.id) == Decimal.NatToString(i)
  }

  /** `_extract_job_data` is such an extractor. */
  lemma ExtractSpecIsSound()
    ensures KeepsTitles(ExtractSpec) && AlwaysWellFormed(ExtractSpec) && NumbersIds(ExtractSpec)
  {
    forall e, i: nat, c | ExtractSpec(e, i, c).Some? ensures WellFormed(ExtractSpec(e, i, c).value, i, c) {
      ExtractWellFormed(e, i, c);
    }
  }

  /**
   * The records the loop appends for `els` when `base` records were already
   * collected; `clock(i)` is what the clock read while listing `i` was extracted.
   */
  function Batch(els: seq<Listing>, base: nat, clock: nat -> Capture, extract: Extractor): (r: seq<Job>)
    ensures |r| <= |els|
  {
    if els == [] then []
    else
      var prev := Batch(els[..|els| - 1], base, clock, extract);
      match extract(els[|els| - 1], base + |prev|, clock(|els| - 1))
      case None => prev
      case Some(j) => prev + [j]
  }

  /** One step of the extraction loop: the batch grows by this listing's record, if it has one. */
  lemma BatchStep(prev: seq<Job>, els: seq<Listing>, i: nat, base: nat, clock: nat -> Capture, extract: Extractor, index: nat, x: Option<Job>)
    requires i < |els|
    requires prev == Batch(els[..i], base, clock, extract)
    requires index == base + |prev| && x == extract(els[i], index, clock(i))
    ensures x.None? ==> Batch(els[..i + 1], base, clock, extract) == prev
    ensures x.Some? ==> Batch(els[..i + 1], base, clock, extract) == prev + [x.value]
  {
    assert els[..i + 1][..i] == els[..i];
  }

  /** Listings without a title are skipped and the others keep their page order. */
  lemma {:induction false} BatchTitles(els: seq<Listing>, base: nat, clock: nat -> Capture, extract: Extractor)
    requires KeepsTitles(extract)
    ensures Titles(Batch(els, base, clock, extract)) == PresentTitles(els)
  {
    if els != [] {
      var last := |els| - 1;
      var prev := Batch(els[..last], base, clock, extract);
      BatchTitles(els[..last], base, clock, extract);
      var x := extract(els[last], base + |prev|, clock(last));
      var t := FindText(els[last], TitleSelector);
      TitlesStep(prev, x, t);
    }
  }

  /** One listing's contribution: its record adds exactly its title to the titles. */
  lemma TitlesStep(prev: seq<Job>, x: Option<Job>, t: Option<string>)
    requires x.Some? <==> t.Some?
    requires x.Some? ==> x.value.title == t.value
    ensures Titles(prev + (if x.Some? then [x.value] else [])) == Titles(prev) + (if t.Some? then [t.value] else [])
  {
    if x.Some? {
      TitlesAppend(prev, x.value);
    } else {
      assert prev + [] == prev;
    }
  }

  lemma TitlesAppend(jobs: seq<Job>, j: Job)
    ensures Titles(jobs + [j]) == Titles(jobs) + [j.title]
  {
    assert |Titles(jobs + [j])| == |Titles(jobs) + [j.title]|;
  }

  /** Every record of a batch is what the extractor made of some listing, at the record's own position. */
  lemma {:induction false} BatchOrigin(els: seq<Listing>, base: nat, clock: nat -> Capture, extract: Extractor, k: nat)
    requires k < |Batch(els, base, clock, extract)|
    ensures exists i :: 0 <= i < |els| && extract(els[i], base + k, clock(i)) == Some(Batch(els, base, clock, extract)[k])
  {
    var last := |els| - 1;
    var prev := Batch(els[..last], base, clock, extract);
    if k < |prev| {
      BatchOrigin(els[..last], base, clock, extract, k);
      var i :| 0 <= i < |els[..last]| && extract(els[..last][i], base + k, clock(i)) == Some(prev[k]);
      assert els[..last][i] == els[i];
    } else {
      assert extract(els[last], base + k, clock(last)) == Some(Batch(els, base, clock, extract)[k]);
    }
  }

  /** A batch's record `k` has an id ending in its position `base + k`. */
  lemma BatchIdAt(els: seq<Listing>, base: nat, clock: nat -> Capture, extract: Extractor, k: nat)
    requires NumbersIds(extract)
    requires k < |Batch(els, base, clock, extract)|
    ensures AfterLastUnderscore(Batch(els, base, clock, extract)[k].id) == Decimal.NatToString(base + k)
  {
    BatchOrigin(els, base, clock, extract, k);
    var a :| 0 <= a < |els| && extract(els[a], base + k, clock(a)) == Some(Batch(els, base, clock, extract)[k]);
  }

  /** The records of a batch carry pairwise distinct ids. */
  lemma BatchIdsDistinct(els: seq<Listing>, base: nat, clock: nat -> Capture, extract: Extractor)
    requires NumbersIds(extract)
    ensures DistinctIds(Batch(els, base, clock, extract))
  {
    var r := Batch(els, base, clock, extract);
    forall k | 0 <= k < |r| ensures AfterLastUnderscore(r[k].id) == Decimal.NatToString(base + k) {
      BatchIdAt(els, base, clock, extract, k);
    }
    NumberedIdsDistinct(r, base);
  }

  /** Records whose ids end in their consecutive numbers carry pairwise distinct ids. */
  lemma NumberedIdsDistinct(r: seq<Job>, base: nat)
    requires forall k :: 0 <= k < |r| ==> AfterLastUnderscore(r[k].id) == Decimal.NatToString(base + k)
    ensures DistinctIds(r)
  {
    forall i, j | 0 <= i < j < |r| ensures r[i].id != r[j].id {
      if r[i].id == r[j].id {
        Decimal.NatToStringInjective(base + i, base + j);
      }
    }
  }

  /** Python's `s[:n]`: the first `n` elements; a negative `n` drops `-n` elements from the end. */
  function SliceTo<T>(s: seq<T>, n: int): (r: seq<T>)
    ensures r <= s
    ensures n >= 0 ==> |r| == Min(n, |s|)
    ensures n < 0 ==> |r| == if |s| + n > 0 then |s| + n else 0
  {
    if n >= 0 then s[..Min(n, |s|)]
    else if |s| + n > 0 then s[..|s| + n]
    else []
  }

  // ---------------------------------------------------------------------------
  // "Load more"

  /** What the search for a "Load More"/"Show More" button finds. */
  datatype ButtonQuery =
    | NoButtons                 // no such button on the page
    | FirstButton(usable: bool) // the first one, and whether it is displayed and enabled
    | QueryFails                // the query or the inspection of the button raises

  /**
   * The outcome of the bounded loop with `left` attempts to go, the `q`-th
   * button query being the current one: the number of clicks and whether the
   * page was scrolled instead. A failing query ends the loop silently.
   */
  function LoadMoreFrom(buttons: nat -> ButtonQuery, q: nat, left: nat): (r: (nat, bool))
    ensures r.0 <= left
    ensures r.1 ==> r.0 < left
    decreases left
  {
    if left == 0 then (0, false)
    else
      match buttons(q)
      case QueryFails => (0, false)
      case NoButtons => (0, true)
      case FirstButton(usable) =>
        if !usable then (0, false)
        else
          var rest := LoadMoreFrom(buttons, q + 1, left - 1);
          (rest.0 + 1, rest.1)
  }

  const LoadMoreAttempts: nat := 3

  /**
   * `_load_more_jobs`: up to three times, click the first button while it is
   * displayed and enabled and look again; with no button, scroll once and
   * stop; any exception ends the attempt without escaping.
   */
  method LoadMoreJobs(buttons: nat -> ButtonQuery) returns (clicks: nat, scrolled: bool)
    ensures (clicks, scrolled) == LoadMoreFrom(buttons, 0, LoadMoreAttempts)
    ensures clicks <= LoadMoreAttempts && (scrolled ==> clicks < LoadMoreAttempts)
    ensures buttons(0) == NoButtons ==> clicks == 0 && scrolled
  {
    clicks, scrolled := 0, false;
    var found := buttons(0);
    var attempt := 0;
    while attempt < LoadMoreAttempts
      invariant 0 <= attempt <= LoadMoreAttempts && clicks == attempt
      invariant found == buttons(clicks) && !scrolled
      invariant LoadMoreFrom(buttons, 0, LoadMoreAttempts)
             == (clicks + LoadMoreFrom(buttons, clicks, LoadMoreAttempts - attempt).0,
                 LoadMoreFrom(buttons, clicks, LoadMoreAttempts - attempt).1)
    {
      if found.QueryFails? {
        break;
      } else if found.NoButtons? {
        scrolled := true;
        break;
      } else if !found.usable {
        break;
      }
      clicks := clicks + 1;
      found := buttons(clicks);
      attempt := attempt + 1;
    }
  }

  // ---------------------------------------------------------------------------
  // The scraping run

  /** How far the browser session gets before the listings are read. */
  datatype Session =
    | LaunchFails(message: string)  // setup_driver raises before a driver exists
    | LoadFails(message: string)    // navigation, the wait for listings or the listing query raises
    | Loaded(buttons: nat -> ButtonQuery, listings: seq<Listing>)

  /** The browser as the scraper meets it; `quitError` is what `driver.quit()` raises, if anything. */
  datatype Browser = Browser(session: Session, quitError: Option<string>)

  datatype DriverState = NoDriver | Running | Quit

  /** What `scrape_jobs` does to the caller: returns a list, or lets an exception escape. */
  datatype Outcome = Returned(jobs: seq<Job>) | Escaped(message: string)

  /**
   * The effect of one `scrape_jobs` call on the accumulated record list
   * `prior`, and its outcome. `hadDriver` says whether an earlier run left a
   * driver behind (it is quit again even if this run cannot launch its own).
   */
  function ScrapeSpec(b: Browser, maxJobs: int, prior: seq<Job>, hadDriver: bool, clock: nat -> Capture): (seq<Job>, Outcome)
  {
    var (jobs, returned) :=
      match b.session
      case Loaded(_, listings) =>
        var all := prior + Batch(SliceTo(listings, maxJobs), |prior|, clock, ExtractSpec);
        (all, Returned(all))
      case _ => (prior, Returned([]));
    var quits := hadDriver || !b.session.LaunchFails?;
    (jobs, if quits && b.quitError.Some? then Escaped(b.quitError.value) else returned)
  }

  /** A launch or load failure is swallowed: the run returns an empty list and adds nothing. */
  lemma SessionFailureReturnsEmpty(b: Browser, maxJobs: int, prior: seq<Job>, hadDriver: bool, clock: nat -> Capture)
    requires !b.session.Loaded? && b.quitError.None?
    ensures ScrapeSpec(b, maxJobs, prior, hadDriver, clock) == (prior, Returned([]))
  {
  }

  /**
   * On a loaded page the run appends one record per considered listing
   * that has a title, in page order, after the records of earlier runs.
   */
  lemma LoadedRunAppends(b: Browser, maxJobs: int, prior: seq<Job>, hadDriver: bool, clock: nat -> Capture)
    requires b.session.Loaded? && b.quitError.None?
    ensures var (jobs, out) := ScrapeSpec(b, maxJobs, prior, hadDriver, clock);
            && out == Returned(jobs)
            && jobs[..|prior|] == prior
            && Titles(jobs[|prior|..]) == PresentTitles(SliceTo(b.session.listings, maxJobs))
  {
    var batch := Batch(SliceTo(b.session.listings, maxJobs), |prior|, clock, ExtractSpec);
    assert (prior + batch)[|prior|..] == batch;
    ExtractSpecIsSound();
    BatchTitles(SliceTo(b.session.listings, maxJobs), |prior|, clock, ExtractSpec);
  }

  /** Listings that all have titles: a run keeps exactly `min(max_jobs, N)` of `N` (truncation, not sampling). */
  lemma {:induction false} AllTitledKeepsPrefix(els: seq<Listing>, maxJobs: int, base: nat, clock: nat -> Capture)
    requires maxJobs >= 0
    requires forall i :: 0 <= i < |els| ==> FindText(els[i], TitleSelector).Some?
    ensures |Batch(SliceTo(els, maxJobs), base, clock, ExtractSpec)| == Min(maxJobs, |els|)
  {
    var s := SliceTo(els, maxJobs);
    PresentTitlesAll(s);
    ExtractSpecIsSound();
    BatchTitles(s, base, clock, ExtractSpec);
  }

  lemma {:induction false} PresentTitlesAll(els: seq<Listing>)
    requires forall i :: 0 <= i < |els| ==> FindText(els[i], TitleSelector).Some?
    ensures |PresentTitles(els)| == |els|
  {
    if els != [] {
      PresentTitlesAll(els[..|els| - 1]);
    }
  }

  /** A listing whose title query raises is skipped and the others are still collected. */
  lemma {:induction false} OneUntitledSkipped(els: seq<Listing>, bad: nat)
    requires bad < |els|
    requires FindText(els[bad], TitleSelector).None?
    requires forall i :: 0 <= i < |els| && i != bad ==> FindText(els[i], TitleSelector).Some?
    ensures |PresentTitles(els)| == |els| - 1
  {
    if bad == |els| - 1 {
      PresentTitlesAll(els[..|els| - 1]);
    } else {
      OneUntitledSkipped(els[..|els| - 1], bad);
    }
  }

  /** Python's `main()` argument handling: `max_jobs` (default 50) and `headless` (default true). */
  function MainArgs(argv: seq<string>): (r: (int, bool))
    ensures |argv| <= 1 ==> r == (50, true)
  {
    var maxJobs := if |argv| > 1 then Decimal.ParseInt(argv[1]).GetOr(50) else 50;
    var headless := if |argv| > 2 then Lower(argv[2]) != "false" else true;
    (maxJobs, headless)
  }

  /** A first argument that is an integer is taken as it is; one without a digit leaves the default 50. */
  lemma MainArgsMaxJobs(prog: string, n: int, rest: seq<string>, junk: string)
    requires forall k :: 0 <= k < |junk| ==> !Decimal.IsDigit(junk[k])
    ensures MainArgs([prog, Decimal.IntToString(n)] + rest).0 == n
    ensures MainArgs([prog, junk] + rest).0 == 50
  {
    Decimal.ParseIntToString(n);
    Decimal.ParseIntNeedsDigit(junk);
  }

  /** What `main()` ends with: the JSON dump of a non-empty batch, the "nothing" notice, or the caught error. */
  datatype MainReport = Dumped(jobs: seq<Job>) | NothingScraped | MainFailed(message: string)

  function MainReportOf(out: Outcome): MainReport {
    match out
    case Returned(jobs) => if jobs != [] then Dumped(jobs) else NothingScraped
    case Escaped(message) => MainFailed(message)
  }

  class ActuaryListScraper {
    var headless: bool
    var maxJobs: int
    var driver: DriverState
    var jobs: seq<Job>

    constructor (headless: bool, maxJobs: int)
      ensures this.headless == headless && this.maxJobs == maxJobs
      ensures driver == NoDriver && jobs == []
    {
      this.headless := headless;
      this.maxJobs := maxJobs;
      driver := NoDriver;
      jobs := [];
    }

    /** `_extract_job_data` for the next record: its index is the number of records collected so far. */
    method ExtractJobData(e: Listing, cap: Capture) returns (r: Option<Job>)
      ensures r == ExtractSpec(e, |jobs|, cap)
    {
      var title := FindText(e, TitleSelector);
      if title.None? {
        return None;
      }
      var company := ChainField(e, CompanySelectors, UnknownCompany);
      var location := ChainField(e, LocationSelectors, DefaultLocation);
      var postingDate := cap.isoAtStart;
      var pick := FindFirst(e, DateSelectors);
      if pick.Some? { postingDate := cap.isoAtMatch; }
      var jobType := JobTypeField(e);
      var collected := CollectTags(e);
      var tags := NormalizeTags(collected);
      r := Some(Job(
        ScrapedId(cap.epoch, |jobs|), title.value, company, location, jobType,
        tags, postingDate, Description(company, location)));
      assert r.value == Assemble(e, |jobs|, cap, title.value);
    }

    /** The `for` loop of `scrape_jobs` over the listings it considers. */
    method ScrapeListings(considered: seq<Listing>, clock: nat -> Capture, ghost extract: Extractor)
      requires forall e, index, cap {:trigger ExtractSpec(e, index, cap)} :: extract(e, index, cap) == ExtractSpec(e, index, cap)
      modifies this`jobs
      ensures jobs == old(jobs) + Batch(considered, |old(jobs)|, clock, extract)
    {
      ghost var start := jobs;
      ghost var done: seq<Job> := [];
      var i := 0;
      while i < |considered|
        invariant 0 <= i <= |considered|
        invariant done == Batch(considered[..i], |start|, clock, extract)
        invariant jobs == start + done
      {
        var jobData := ExtractJobData(considered[i], clock(i));
        BatchStep(done, considered, i, |start|, clock, extract, |jobs|, jobData);
        if jobData.Some? {
          jobs := jobs + [jobData.value];
          done := done + [jobData.value];
        }
        i := i + 1;
      }
      assert considered[..i] == considered;
    }

    /**
     * `scrape_jobs`: launch, load, expand, then extract at most `max_jobs`
     * listings, skipping those without a title; any launch or load failure
     * gives `[]`; the driver is quit on every path once it exists.
     */
    method ScrapeJobs(browser: Browser, clock: nat -> Capture) returns (outcome: Outcome)
      modifies this
      ensures (jobs, outcome) == ScrapeSpec(browser, maxJobs, old(jobs), old(driver) != NoDriver, clock)
      ensures driver != Running
      ensures !browser.session.LaunchFails? ==> driver == Quit
      ensures headless == old(headless) && maxJobs == old(maxJobs)
    {
      match browser.session {
        case LaunchFails(_) =>
          outcome := Returned([]);
        case LoadFails(_) =>
          driver := Running;
          outcome := Returned([]);
        case Loaded(buttons, listings) =>
          driver := Running;
          var clicks, scrolled := LoadMoreJobs(buttons);
          ScrapeListings(SliceTo(listings, maxJobs), clock, ExtractSpec);
          outcome := Returned(jobs);
      }
      if driver != NoDriver {
        driver := Quit;
        if browser.quitError.Some? {
          outcome := Escaped(browser.quitError.value);
        }
      }
    }
  }

  /** `main()`: parse the arguments, run a fresh scraper, and report. */
  method RunMain(argv: seq<string>, browser: Browser, clock: nat -> Capture) returns (report: MainReport)
    ensures report == MainReportOf(ScrapeSpec(browser, MainArgs(argv).0, [], false, clock).1)
  {
    var (maxJobs, headless) := MainArgs(argv);
    var scraper := new ActuaryListScraper(headless, maxJobs);
    var outcome := scraper.ScrapeJobs(browser, clock);
    report := MainReportOf(outcome);
  }
}
