/**
 * The student catalogue page (pages/student/courses/index.jsx): the filter state, the query
 * string built from it, the search over the listed courses and the purchased-course check.
 * The course list and the purchase answers come from services and are parameters here.
 */
module StudentCourses {
  import opened Wrappers
  import opened Seqs
  import opened Text
  import opened Uri
  import opened Js
  import opened Config

  // ---------- the filter state ----------

  /** A filter section id and the option ids chosen in it. */
  type Section = (string, seq<string>)

  /** The `filters` object: sections in insertion order, which is the order `Object.entries` reports. */
  type Filters = seq<Section>

  function Sections(f: Filters): seq<string> {
    seq(|f|, i requires 0 <= i < |f| => f[i].0)
  }

  /** `filters[section]`: the options of the first entry named `section`. */
  function Lookup(f: Filters, section: string): Option<seq<string>> {
    var j := IndexOf(Sections(f), section);
    if j == -1 then None else Some(f[j].1)
  }

  /** The list after clicking `option`: removed where present (at its first position), appended otherwise. */
  function ToggledList(list: seq<string>, option: string): (r: seq<string>)
    ensures option in list ==> |r| == |list| - 1
    ensures option in list ==>
      exists k :: 0 <= k < |list| && list[k] == option && option !in list[..k] && r == list[..k] + list[k + 1..]
    ensures option !in list ==> r == list + [option]
  {
    var k := IndexOf(list, option);
    if k == -1 then list + [option] else RemoveAt(list, k)
  }

  /**
   * `handleFilterOnChange` (65-83): a section not yet in the object is added last as
   * `[option]`; otherwise that section's list is toggled. Every other section keeps its list
   * and the order of sections is kept.
   */
  function ToggleOption(f: Filters, section: string, option: string): (r: Filters)
    ensures Lookup(f, section).None? ==> r == f + [(section, [option])]
    ensures Lookup(f, section).Some? ==> Sections(r) == Sections(f)
    ensures Lookup(r, section) == Some(match Lookup(f, section)
                                       case None => [option]
                                       case Some(list) => ToggledList(list, option))
    ensures forall s :: s != section ==> Lookup(r, s) == Lookup(f, s)
  {
    var j := IndexOf(Sections(f), section);
    if j == -1 then
      var r := f + [(section, [option])];
      assert Sections(r) == Sections(f) + [section];
      assert forall s :: s != section ==> IndexOf(Sections(r), s) == IndexOf(Sections(f), s) by {
        forall s | s != section ensures IndexOf(Sections(r), s) == IndexOf(Sections(f), s) {
          IndexOfAppend(Sections(f), section, s);
        }
      }
      IndexOfAppend(Sections(f), section, section);
      r
    else
      var r := f[j := (section, ToggledList(f[j].1, option))];
      assert Sections(r) == Sections(f);
      r
  }

  lemma {:induction false} IndexOfAppend(s: seq<string>, y: string, x: string)
    ensures IndexOf(s + [y], x) == if x in s then IndexOf(s, x) else if x == y then |s| else -1
  {
    if s != [] {
      assert (s + [y])[1..] == s[1..] + [y];
      IndexOfAppend(s[1..], y, x);
    } else {
      assert s + [y] == [y];
    }
  }

  /** With no repeated option, a click flips whether `option` is chosen in its section. */
  lemma ToggleFlipsMembership(f: Filters, section: string, option: string, list: seq<string>)
    requires Lookup(f, section) == Some(list)
    requires forall a, b :: 0 <= a < b < |list| ==> list[a] != list[b]
    ensures Lookup(ToggleOption(f, section, option), section).Some?
    ensures option in Lookup(ToggleOption(f, section, option), section).value <==> option !in list
  {
    var k := IndexOf(list, option);
    if k != -1 {
      var r := RemoveAt(list, k);
      forall q | 0 <= q < |r| ensures r[q] != option {
        if q >= k { assert r[q] == r[k..][q - k] == list[q + 1]; }
      }
    }
  }

  /** Clicking an option twice in a section that was absent leaves that section behind as `[]`. */
  lemma ToggleTwiceAbsentSection(f: Filters, section: string, option: string)
    requires Lookup(f, section).None?
    ensures ToggleOption(ToggleOption(f, section, option), section, option) == f + [(section, [])]
  {
    var f1 := ToggleOption(f, section, option);
    assert Sections(f1) == Sections(f) + [section];
    IndexOfAppend(Sections(f), section, section);
    assert IndexOf(Sections(f1), section) == |f|;
    assert f1[|f| := (section, [])] == f + [(section, [])];
  }

  /** Clicking an option twice restores the filters when it was not chosen. */
  lemma ToggleTwiceUnchosen(f: Filters, section: string, option: string)
    requires Lookup(f, section).Some? && option !in Lookup(f, section).value
    ensures ToggleOption(ToggleOption(f, section, option), section, option) == f
  {
    var f1 := ToggleOption(f, section, option);
    var j := IndexOf(Sections(f), section);
    var list := f[j].1;
    assert IndexOf(Sections(f1), section) == j;
    var l1 := list + [option];
    assert IndexOf(l1, option) == |list| by { IndexOfAppend(list, option, option); }
    assert RemoveAt(l1, |list|) == list;
    assert f1[j := (section, list)] == f;
  }

  /** Clicking a chosen option twice moves it to the end of its list. */
  lemma ToggleTwiceChosen(f: Filters, section: string, option: string, list: seq<string>)
    requires Lookup(f, section) == Some(list) && option in list
    requires forall a, b :: 0 <= a < b < |list| ==> list[a] != list[b]
    ensures Lookup(ToggleOption(ToggleOption(f, section, option), section, option), section) ==
      Some(ToggledList(list, option) + [option])
  {
    ToggleFlipsMembership(f, section, option, list);
  }

  /** `clearFilters` (85-88). */
  const NoFilters: Filters := []

  // ---------- the active-filter count ----------

  function SectionSize(e: Section): int { |e.1| }

  /** The number of chosen options over all sections. */
  function FilterCount(f: Filters): int {
    SumOf(f, SectionSize)
  }

  /** The count effect (111-117): `count += list.length` for each section, in entry order. */
  method CountActiveFilters(f: Filters) returns (count: int)
    ensures count == FilterCount(f)
  {
    count := 0;
    for i := 0 to |f|
      invariant count == SumOf(f[..i], SectionSize)
    {
      SumOfAppend(f[..i], [f[i]], SectionSize);
      assert f[..i + 1] == f[..i] + [f[i]];
      count := count + |f[i].1|;
    }
    assert f[..|f|] == f;
  }

  lemma {:induction false} SumOfUpdate(f: Filters, j: nat, e: Section)
    requires j < |f|
    ensures SumOf(f[j := e], SectionSize) == SumOf(f, SectionSize) - |f[j].1| + |e.1|
  {
    assert f == f[..j] + [f[j]] + f[j + 1..];
    assert f[j := e] == f[..j] + [e] + f[j + 1..];
    SumOfAppend(f[..j] + [f[j]], f[j + 1..], SectionSize);
    SumOfAppend(f[..j], [f[j]], SectionSize);
    SumOfAppend(f[..j] + [e], f[j + 1..], SectionSize);
    SumOfAppend(f[..j], [e], SectionSize);
  }

  /** A click raises the count by one when it chooses an option and lowers it by one when it drops one. */
  lemma ToggleChangesCountByOne(f: Filters, section: string, option: string)
    ensures FilterCount(ToggleOption(f, section, option)) ==
      FilterCount(f) + if Lookup(f, section).Some? && option in Lookup(f, section).value then -1 else 1
  {
    var j := IndexOf(Sections(f), section);
    if j == -1 {
      SumOfAppend(f, [(section, [option])], SectionSize);
    } else {
      SumOfUpdate(f, j, (section, ToggledList(f[j].1, option)));
    }
  }

  lemma ClearedCountIsZero()
    ensures FilterCount(NoFilters) == 0
  {
  }

  // ---------- the query string ----------

  /** A section with a non-empty option list, the only kind the query string carries. */
  predicate Carried(e: Section) { |e.1| > 0 }

  /** `${key}=${encodeURIComponent(value.join(","))}`: the key is not encoded. */
  function QueryPair(e: Section): string {
    e.0 + "=" + EncodeURIComponent(Join(e.1, ","))
  }

  /** The `queryParams` array of `createSearchParamsHelper`: one pair per carried section, in order. */
  function QueryPairs(f: Filters): seq<string> {
    if f == [] then [] else (if Carried(f[0]) then [QueryPair(f[0])] else []) + QueryPairs(f[1..])
  }

  function QueryString(f: Filters): string {
    Join(QueryPairs(f), "&")
  }

  /** One step of `createSearchParamsHelper`'s loop keeps the pairs collected so far a prefix of all pairs. */
  lemma QueryPairsStep(f: Filters, i: nat, acc: seq<string>)
    requires i < |f| && acc + QueryPairs(f[i..]) == QueryPairs(f)
    ensures (if Carried(f[i]) then acc + [QueryPair(f[i])] else acc) + QueryPairs(f[i + 1..]) == QueryPairs(f)
  {
    var suffix, later := f[i..], QueryPairs(f[i + 1..]);
    assert suffix != [] && suffix[0] == f[i] && suffix[1..] == f[i + 1..];
    if Carried(f[i]) {
      var p := QueryPair(f[i]);
      assert QueryPairs(suffix) == [p] + later;
      assert acc + ([p] + later) == (acc + [p]) + later;
    } else {
      assert QueryPairs(suffix) == [] + later;
      assert [] + later == later;
    }
  }

  /** `createSearchParamsHelper` (36-45). */
  method CreateSearchParamsHelper(f: Filters) returns (q: string)
    ensures q == QueryString(f)
  {
    var queryParams: seq<string> := [];
    for i := 0 to |f|
      invariant queryParams + QueryPairs(f[i..]) == QueryPairs(f)
    {
      QueryPairsStep(f, i, queryParams);
      if |f[i].1| > 0 {
        var paramValue := Join(f[i].1, ",");
        queryParams := queryParams + [f[i].0 + "=" + EncodeURIComponent(paramValue)];
      }
    }
    assert queryParams == QueryPairs(f) by {
      assert f[|f|..] == [];
      assert queryParams + [] == queryParams;
    }
    q := Join(queryParams, "&");
  }

  /** The text before the first `c` and the text after it (all of `s` and "" when there is none). */
  function SplitAtFirst(s: string, c: char): (string, string)
  {
    if s == [] then ("", "")
    else if s[0] == c then ("", s[1..])
    else var r := SplitAtFirst(s[1..], c); ([s[0]] + r.0, r.1)
  }

  /** How a reader of the query string recovers one section: split at the first '=', decode, split at ','. */
  function ParsePair(p: string): Option<Section> {
    var kv := SplitAtFirst(p, '=');
    match DecodeURIComponent(kv.1)
    case None => None
    case Some(v) => Some((kv.0, Split(v, ',')))
  }

  function ParsePairs(ps: seq<string>): Option<Filters> {
    if ps == [] then Some([])
    else match ParsePair(ps[0])
      case None => None
      case Some(e) =>
        match ParsePairs(ps[1..])
        case None => None
        case Some(rest) => Some([e] + rest)
  }

  /** The sections a query string describes; "" describes none. */
  function ParseQuery(q: string): Option<Filters> {
    if q == "" then Some([]) else ParsePairs(Split(q, '&'))
  }

  /** Section ids free of '&' and '=' and option ids free of ','. */
  predicate Serialisable(f: Filters) {
    forall i :: 0 <= i < |f| ==>
      '&' !in f[i].0 && '=' !in f[i].0 && forall o :: o in f[i].1 ==> ',' !in o
  }

  lemma {:induction false} SplitAtFirstPrefix(k: string, v: string, c: char)
    requires c !in k
    ensures SplitAtFirst(k + [c] + v, c) == (k, v)
  {
    if k == [] {
      assert k + [c] + v == [c] + v;
    } else {
      assert (k + [c] + v)[1..] == k[1..] + [c] + v;
      SplitAtFirstPrefix(k[1..], v, c);
      assert [k[0]] + k[1..] == k;
    }
  }

  lemma ParsePairRoundTrip(e: Section)
    requires Carried(e) && '=' !in e.0 && forall o :: o in e.1 ==> ',' !in o
    ensures ParsePair(QueryPair(e)) == Some(e)
  {
    var value := Join(e.1, ",");
    assert QueryPair(e) == e.0 + "=" + EncodeURIComponent(value);
    SplitAtFirstPrefix(e.0, EncodeURIComponent(value), '=');
    DecodeEncode(value);
    assert forall i :: 0 <= i < |e.1| ==> ',' !in e.1[i] by {
      forall i | 0 <= i < |e.1| ensures ',' !in e.1[i] { assert e.1[i] in e.1; }
    }
    SplitJoin(e.1, ',');
  }

  /** The tail of a serialisable filter list is serialisable, and so is its head section. */
  lemma SerialisableParts(f: Filters)
    requires f != [] && Serialisable(f)
    ensures Serialisable(f[1..])
    ensures '&' !in f[0].0 && '=' !in f[0].0 && forall o :: o in f[0].1 ==> ',' !in o
  {
    forall i | 0 <= i < |f[1..]|
      ensures '&' !in f[1..][i].0 && '=' !in f[1..][i].0 && forall o :: o in f[1..][i].1 ==> ',' !in o
    {
      assert f[1..][i] == f[i + 1];
    }
  }

  /** The pair of a section whose id has no '&' has none: the encoded value never holds one. */
  lemma QueryPairNoAmpersand(e: Section)
    requires '&' !in e.0
    ensures '&' !in QueryPair(e)
  {
    var enc := EncodeURIComponent(Join(e.1, ","));
    assert QueryPair(e) == e.0 + "=" + enc;
    forall i | 0 <= i < |enc| ensures enc[i] != '&' { assert EncodedChar(enc[i]); }
  }

  lemma {:induction false} ParsePairsRoundTrip(f: Filters)
    requires Serialisable(f)
    ensures ParsePairs(QueryPairs(f)) == Some(Filter(f, Carried))
    ensures forall i :: 0 <= i < |QueryPairs(f)| ==> '&' !in QueryPairs(f)[i]
    ensures |QueryPairs(f)| == |Filter(f, Carried)|
  {
    if f != [] {
      SerialisableParts(f);
      ParsePairsRoundTrip(f[1..]);
      var rest := QueryPairs(f[1..]);
      if Carried(f[0]) {
        ParsePairRoundTrip(f[0]);
        var p := QueryPair(f[0]);
        QueryPairNoAmpersand(f[0]);
        assert QueryPairs(f) == [p] + rest;
        assert QueryPairs(f)[1..] == rest;
        assert Filter(f, Carried) == [f[0]] + Filter(f[1..], Carried);
      } else {
        assert QueryPairs(f) == rest;
        assert Filter(f, Carried) == Filter(f[1..], Carried);
      }
    }
  }

  /**
   * Reading the query string back yields exactly the carried sections, in order, with their
   * options: empty sections are dropped, and nothing else is lost.
   */
  lemma QueryRoundTrip(f: Filters)
    requires Serialisable(f)
    ensures ParseQuery(QueryString(f)) == Some(Filter(f, Carried))
  {
    ParsePairsRoundTrip(f);
    var ps := QueryPairs(f);
    if |ps| == 0 {
      assert Filter(f, Carried) == [];
    } else {
      assert '=' in ps[0] by {
        assert QueryPairs(f) == (if Carried(f[0]) then [QueryPair(f[0])] else []) + QueryPairs(f[1..]);
        QueryPairsHaveEquals(f);
      }
      assert QueryString(f) != "" by {
        if |ps| > 1 { assert QueryString(f) == ps[0] + "&" + Join(ps[1..], "&"); }
      }
      forall i | 0 <= i < |ps| ensures '&' !in ps[i] { }
      SplitJoin(ps, '&');
    }
  }

  lemma {:induction false} QueryPairsHaveEquals(f: Filters)
    ensures forall i :: 0 <= i < |QueryPairs(f)| ==> '=' in QueryPairs(f)[i]
  {
    if f != [] {
      QueryPairsHaveEquals(f[1..]);
      if Carried(f[0]) {
        var p := QueryPair(f[0]);
        assert p[|f[0].0|] == '=';
        assert QueryPairs(f) == [p] + QueryPairs(f[1..]);
      }
    }
  }

  // ---------- the search ----------

  /** A listed course, as far as the page reads it. */
  datatype CatalogueCourse = CatalogueCourse(id: string, title: string, instructorName: string, description: Option<string>)

  /** The search test of 166-170: title, instructor name or (when there is one) description contains the query. */
  predicate MatchesSearch(c: CatalogueCourse, query: string) {
    || ContainsIgnoringCase(c.title, query)
    || ContainsIgnoringCase(c.instructorName, query)
    || (c.description.Some? && ContainsIgnoringCase(c.description.value, query))
  }

  /** `filteredCourses` (166-170). */
  function FilteredCourses(courses: seq<CatalogueCourse>, query: string): (r: seq<CatalogueCourse>)
    ensures forall c :: c in r <==> c in courses && MatchesSearch(c, query)
  {
    Filter(courses, c => MatchesSearch(c, query))
  }

  /** The result keeps the order of the list. */
  lemma FilteredCoursesInOrder(courses: seq<CatalogueCourse>, query: string)
    ensures IsSubsequence(FilteredCourses(courses, query), courses)
  {
    FilterIsSubsequence(courses, c => MatchesSearch(c, query));
  }

  /** An empty query keeps every course. */
  lemma EmptySearchKeepsAll(courses: seq<CatalogueCourse>)
    ensures FilteredCourses(courses, "") == courses
  {
    forall c | c in courses ensures MatchesSearch(c, "") { ContainsIgnoringCaseEmpty(c.title); }
    FilterAll(courses, c => MatchesSearch(c, ""));
  }

  // ---------- purchased courses ----------

  function Ids(courses: seq<CatalogueCourse>): seq<string> {
    seq(|courses|, i requires 0 <= i < |courses| => courses[i].id)
  }

  /** The ids whose purchase check (`response?.success && response?.data`) came back positive. */
  function PurchasedIds(courses: seq<CatalogueCourse>, owned: seq<bool>): seq<string>
    requires |owned| == |courses|
  {
    if courses == [] then []
    else (if owned[0] then [courses[0].id] else []) + PurchasedIds(courses[1..], owned[1..])
  }

  /** The purchased list holds exactly the ids of the courses reported owned, in list order. */
  lemma {:induction false} PurchasedIdsSpec(courses: seq<CatalogueCourse>, owned: seq<bool>)
    requires |owned| == |courses|
    ensures forall x :: x in PurchasedIds(courses, owned) <==>
      exists i :: 0 <= i < |courses| && owned[i] && courses[i].id == x
    ensures IsSubsequence(PurchasedIds(courses, owned), Ids(courses))
  {
    if courses != [] {
      PurchasedIdsSpec(courses[1..], owned[1..]);
      var rest := PurchasedIds(courses[1..], owned[1..]);
      var r := PurchasedIds(courses, owned);
      assert Ids(courses)[1..] == Ids(courses[1..]);
      forall x ensures x in r <==> exists i :: 0 <= i < |courses| && owned[i] && courses[i].id == x {
        if x in rest {
          var i :| 0 <= i < |courses[1..]| && owned[1..][i] && courses[1..][i].id == x;
          assert owned[i + 1] && courses[i + 1].id == x;
        }
        if exists i :: 0 <= i < |courses| && owned[i] && courses[i].id == x {
          var i :| 0 <= i < |courses| && owned[i] && courses[i].id == x;
          if i > 0 { assert owned[1..][i - 1] && courses[1..][i - 1].id == x; }
        }
      }
      assert Ids(courses) != [];
      if owned[0] {
        assert r == [courses[0].id] + rest;
        assert r[0] == Ids(courses)[0] && r[1..] == rest;
      } else {
        assert r == rest;
      }
    }
  }

  // ---------- the page ----------

  class StudentCoursesPage {
    var filters: Filters
    var expandedFilters: map<string, bool>
    var purchased: seq<string>
    var searchParams: string

    /**
     * The mount effect (124-133): the filters saved in the session (or none) and every filter
     * section expanded. The session storage itself is the parameter `saved`.
     */
    constructor (saved: Option<Filters>)
      ensures filters == saved.GetOr(NoFilters)
      ensures expandedFilters.Keys == set s | s in FilterSections
      ensures forall s :: s in expandedFilters ==> expandedFilters[s]
      ensures purchased == [] && searchParams == ""
    {
      filters := saved.GetOr(NoFilters);
      expandedFilters := map s | s in FilterSections :: true;
      purchased := [];
      searchParams := "";
    }

    method HandleFilterOnChange(section: string, option: string)
      modifies this`filters
      ensures filters == ToggleOption(old(filters), section, option)
    {
      var cpy := filters;
      var j := IndexOf(Sections(cpy), section);
      if j == -1 {
        cpy := cpy + [(section, [option])];
      } else {
        var list := cpy[j].1;
        var k := IndexOf(list, option);
        if k == -1 {
          list := list + [option];
        } else {
          list := list[..k] + list[k + 1..];
        }
        cpy := cpy[j := (section, list)];
      }
      filters := cpy;
    }

    method ClearFilters()
      modifies this`filters
      ensures filters == NoFilters
    {
      filters := [];
    }

    /** `toggleFilterSection` (103-108). */
    method ToggleFilterSection(section: string)
      modifies this`expandedFilters
      ensures expandedFilters == Toggled(old(expandedFilters), section)
    {
      expandedFilters := expandedFilters[section := !(section in expandedFilters && expandedFilters[section])];
    }

    /** The query-string effect (119-122). */
    method SyncSearchParams()
      modifies this`searchParams
      ensures searchParams == QueryString(filters)
    {
      searchParams := CreateSearchParamsHelper(filters);
    }

    /**
     * `checkPurchasedCourses` (147-161): with a non-empty list and a signed-in user the list of
     * purchased ids is replaced; otherwise it is kept. `owned[i]` is the answer for `courses[i]`.
     */
    method CheckPurchasedCourses(courses: seq<CatalogueCourse>, userId: Option<string>, owned: seq<bool>)
      requires |owned| == |courses|
      modifies this`purchased
      ensures |courses| > 0 && userId.Some? && userId.value != "" ==> purchased == PurchasedIds(courses, owned)
      ensures !(|courses| > 0 && userId.Some? && userId.value != "") ==> purchased == old(purchased)
    {
      if |courses| > 0 && userId.Some? && userId.value != "" {
        var found: seq<string> := [];
        for i := 0 to |courses|
          invariant found + PurchasedIds(courses[i..], owned[i..]) == PurchasedIds(courses, owned)
        {
          assert courses[i..][1..] == courses[i + 1..] && owned[i..][1..] == owned[i + 1..];
          if owned[i] {
            found := found + [courses[i].id];
          }
        }
        assert courses[|courses|..] == [] && found + [] == found;
        purchased := found;
      }
    }
  }
}
