/**
 * The client's request builders in `services/api.js`: the query string of
 * `getJobs` and the bodies of `createJob` and `updateJob`, whose comma-typed
 * tags are split, trimmed and purged of empty pieces. The HTTP calls
 * themselves are not modelled.
 */
module Api {
  import opened Wrappers
  import opened Strings
  import Seqs
  import opened JsObject
  import opened JobFilters
  import opened JobForm

  type Entry = (FilterKey, Option<string>)

  /** An entry `getJobs` turns into a parameter: its value is truthy. */
  predicate Present(e: Entry) {
    Truthy(e.1)
  }

  /** The parameter for an entry: its key's name with its value. */
  function Param(e: Entry): (string, string) {
    (Name(e.0), e.1.GetOr(""))
  }

  function ParamsOf(es: seq<Entry>): (ps: seq<(string, string)>)
    ensures |ps| == |es| && forall i :: 0 <= i < |es| ==> ps[i] == Param(es[i])
  {
    seq(|es|, i requires 0 <= i < |es| => Param(es[i]))
  }

  /** The parameters the `forEach` over `Object.entries(filters)` appends, entry by entry. */
  function QueryOf(filters: Filters): seq<(string, string)> {
    if filters == [] then []
    else
      var last := filters[|filters| - 1];
      QueryOf(filters[..|filters| - 1]) + (if Present(last) then [Param(last)] else [])
  }

  /** `getJobs(filters)`: the `URLSearchParams` built before the request; no filters, no parameters. */
  method BuildParams(filters: Option<Filters>) returns (params: seq<(string, string)>)
    ensures filters.None? ==> params == []
    ensures filters.Some? ==> params == QueryOf(filters.value)
  {
    params := [];
    if filters.Some? {
      var entries := filters.value;
      var i := 0;
      while i < |entries|
        invariant 0 <= i <= |entries|
        invariant params == QueryOf(entries[..i])
      {
        assert entries[..i + 1][..i] == entries[..i];
        var (key, value) := entries[i];
        if Truthy(value) {
          params := params + [(Name(key), value.value)];
        }
        i := i + 1;
      }
      assert entries[..i] == entries;
    }
  }

  /** The parameters are exactly those of the entries with a truthy value, in entry order. */
  lemma {:induction false} QueryOfIsKeep(filters: Filters)
    ensures QueryOf(filters) == ParamsOf(Seqs.Keep(filters, Present))
  {
    if filters != [] {
      var init, last := filters[..|filters| - 1], filters[|filters| - 1];
      QueryOfIsKeep(init);
      assert filters == init + [last];
      Seqs.KeepAppend(init, [last], Present);
      var a, b := Seqs.Keep(init, Present), Seqs.Keep([last], Present);
      assert ParamsOf(a + b) == ParamsOf(a) + ParamsOf(b);
      assert ParamsOf(b) == if Present(last) then [Param(last)] else [];
    }
  }

  /** Every entry with a truthy value contributes its name and value. */
  lemma QueryOfMember(filters: Filters, i: nat)
    requires i < |filters| && Truthy(filters[i].1)
    ensures (Name(filters[i].0), filters[i].1.value) in QueryOf(filters)
  {
    QueryOfIsKeep(filters);
    var kept := Seqs.Keep(filters, Present);
    assert filters[i] in kept;
    var j :| 0 <= j < |kept| && kept[j] == filters[i];
    assert ParamsOf(kept)[j] == (Name(filters[i].0), filters[i].1.value);
  }

  /** Every parameter comes from an entry with a truthy value. */
  lemma QueryOfSource(filters: Filters, p: (string, string))
    requires p in QueryOf(filters)
    ensures exists i :: 0 <= i < |filters| && Truthy(filters[i].1) && p == (Name(filters[i].0), filters[i].1.value)
  {
    QueryOfIsKeep(filters);
    var kept := Seqs.Keep(filters, Present);
    var j :| 0 <= j < |kept| && ParamsOf(kept)[j] == p;
    assert kept[j] in filters;
    var i :| 0 <= i < |filters| && filters[i] == kept[j];
    assert Truthy(filters[i].1) && p == (Name(filters[i].0), filters[i].1.value);
  }

  // ---------------------------------------------------------------------------
  // Tags

  predicate NonEmpty(t: string) {
    t != ""
  }

  /** `.map((tag) => tag.trim())` */
  function TrimAll(parts: seq<string>): (r: seq<string>)
    ensures |r| == |parts| && forall k :: 0 <= k < |parts| ==> r[k] == Trim(JavaScriptSpace, parts[k])
  {
    seq(|parts|, k requires 0 <= k < |parts| => Trim(JavaScriptSpace, parts[k]))
  }

  /** `tags.split(",").map((tag) => tag.trim()).filter((tag) => tag)` */
  function ParseTags(s: string): seq<string> {
    Seqs.Keep(TrimAll(Split(s, ',')), NonEmpty)
  }

  /** A tag as parsing produces it: non-empty, trimmed, without a comma. */
  predicate CleanTag(t: string) {
    t != "" && Trimmed(JavaScriptSpace, t) && ',' !in t
  }

  /** Every parsed tag is non-empty, trimmed and free of commas. */
  lemma ParseTagsClean(s: string)
    ensures forall k :: 0 <= k < |ParseTags(s)| ==> CleanTag(ParseTags(s)[k])
  {
    var parts := Split(s, ',');
    forall k | 0 <= k < |ParseTags(s)| ensures CleanTag(ParseTags(s)[k]) {
      var t := ParseTags(s)[k];
      assert t in ParseTags(s);
      assert t in TrimAll(parts);
      var m :| 0 <= m < |parts| && TrimAll(parts)[m] == t;
      if ',' in t {
        TrimChars(JavaScriptSpace, parts[m], ',');
      }
    }
  }

  /** Parsing works piece by piece: the tags before a comma come first, in order. */
  lemma ParseTagsAppend(a: string, b: string)
    ensures ParseTags(a + "," + b) == ParseTags(a) + ParseTags(b)
  {
    SplitAppend(a, b, ',');
    var pa, pb := Split(a, ','), Split(b, ',');
    assert TrimAll(pa + pb) == TrimAll(pa) + TrimAll(pb);
    Seqs.KeepAppend(TrimAll(pa), TrimAll(pb), NonEmpty);
  }

  /** The tags after the first, each behind the `pad` character that `sep + pad` leaves once split on `sep`. */
  function Padded(tags: seq<string>, pad: char): (r: seq<string>)
    ensures |r| == |tags| && forall k :: 0 <= k < |tags| ==> r[k] == [pad] + tags[k]
  {
    seq(|tags|, k requires 0 <= k < |tags| => [pad] + tags[k])
  }

  /** Joining with `sep + pad` is joining with `sep` pieces that start with `pad`. */
  lemma {:induction false} JoinPadded(tags: seq<string>, sep: char, pad: char)
    requires |tags| >= 1
    ensures Join(tags, [sep, pad]) == Join([tags[0]] + Padded(tags[1..], pad), [sep])
  {
    if |tags| > 1 {
      var rest := tags[1..];
      JoinPadded(rest, sep, pad);
      var tail := Padded(rest[1..], pad);
      assert Padded(rest, pad) == [[pad] + rest[0]] + tail;
      JoinCons([rest[0]] + tail, pad, [sep]);
      assert ([rest[0]] + tail)[1..] == tail;
      assert ([tags[0]] + Padded(rest, pad))[1..] == Padded(rest, pad);
      assert [sep, pad] == [sep] + [pad];
    }
  }

  /**
   * The edit dialog shows a job's tags joined by `", "`; parsing that text
   * gives the same list back, for any list of clean tags.
   */
  lemma TagsRoundTrip(tags: seq<string>)
    requires forall k :: 0 <= k < |tags| ==> CleanTag(tags[k])
    ensures ParseTags(JoinTags(tags)) == tags
  {
    if tags == [] {
      assert Split("", ',') == [""];
      assert TrimAll([""]) == [""];
    } else {
      var pieces := [tags[0]] + Padded(tags[1..], ' ');
      assert JoinTags(tags) == Join(tags, [',', ' ']);
      JoinPadded(tags, ',', ' ');
      SplitJoin(pieces, ',');
      forall k | 0 <= k < |pieces| ensures Trim(JavaScriptSpace, pieces[k]) == tags[k] {
        if k == 0 {
          TrimOfTrimmed(JavaScriptSpace, tags[0]);
        } else {
          assert pieces[k] == [' '] + tags[k];
          TrimLeadingSpace(JavaScriptSpace, ' ', tags[k]);
          TrimOfTrimmed(JavaScriptSpace, tags[k]);
        }
      }
      assert TrimAll(pieces) == tags;
      Seqs.KeepAll(tags, NonEmpty);
    }
  }

  /** The body `createJob` and `updateJob` send: the form's fields, with `tags` as a list. */
  datatype Payload = Payload(
    title: string,
    company: string,
    location: string,
    jobType: string,
    tags: seq<string>,
    description: string)

  /** `{ ...jobData, tags: <parsed> }`: only the tags differ from the form. */
  function PayloadOf(form: FormData): (p: Payload)
    ensures p.title == form.title && p.company == form.company && p.location == form.location
    ensures p.jobType == form.jobType && p.description == form.description
    ensures p.tags == ParseTags(form.tags)
  {
    Payload(form.title, form.company, form.location, form.jobType, ParseTags(form.tags), form.description)
  }
}
