/** The collection browser (`app/collections/page.tsx`): the dynasty alias
    table, the load-time period normalization, the search and period
    filters, grouping by sub-period and the chronological filter bar. The
    React state setters are modelled as function results, with the search
    term and active filter passed explicitly. */
module CollectionsPage {
  import opened Wrappers
  import opened Seqs
  import opened Strings
  import opened Catalog

  // ------------------------------------------------------- period buckets

  /** The labels the alias table maps to a bucket. */
  function AliasBucket(period: string): (r: Option<string>)
    ensures r.Some? ==> r.value in {"晚唐至五代", "良渚文化", "唐", "周", "宋", "晋"}
    ensures r.None? ==> period !in {"五代", "良渚", "唐", "周", "宋", "晋", "北宋", "南宋"}
  {
    if period in {"晚唐～五代", "唐～五代", "五代", "唐-五代", "晚唐~五代"} then Some("晚唐至五代")
    else if period in {"良渚", "良渚文化"} then Some("良渚文化")
    else if period in {"唐", "唐·大历八年(773年)"} then Some("唐")
    else if period in {"东周", "周"} then Some("周")
    else if period in {"宋", "北宋", "南宋"} then Some("宋")
    else if period in {"东晋", "晋"} then Some("晋")
    else None
  }

  /** `extractMainDynasty`: an alias goes to its bucket; any other label is
      cut at its first space. */
  function ExtractMainDynasty(period: string): (r: string)
    ensures ' ' !in r
    ensures AliasBucket(period).Some? ==> r == AliasBucket(period).value
    ensures AliasBucket(period).None? ==>
              (StartsWith(period, r)
               && (' ' in period ==> period[|r|] == ' ')
               && (' ' !in period ==> r == period))
  {
    if AliasBucket(period).Some? then AliasBucket(period).value
    else if ' ' in period then BeforeFirst(period, ' ')
    else period
  }

  /** Bucket names are fixed points of the alias table. */
  lemma BucketsAreFixed(bucket: string)
    requires bucket in {"晚唐至五代", "良渚文化", "唐", "周", "宋", "晋"}
    ensures ExtractMainDynasty(bucket) == bucket
  {
  }

  /** On labels without a space, extracting twice is extracting once. */
  lemma ExtractMainDynastyIdempotent(period: string)
    requires ' ' !in period
    ensures ExtractMainDynasty(ExtractMainDynasty(period)) == ExtractMainDynasty(period)
  {
  }

  /** The alias check runs before the space split, so an alias followed by
      a reign name lands in a bucket of its own: "北宋 元丰" gives "北宋",
      which a second pass would send to "宋". */
  lemma ReignAfterAlias()
    ensures ExtractMainDynasty("北宋 元丰") == "北宋"
    ensures ExtractMainDynasty(ExtractMainDynasty("北宋 元丰")) == "宋"
  {
    assert "北宋 元丰"[2] == ' ';
    assert "北宋 元丰"[..2] == "北宋";
    assert ' ' !in "北宋 元丰"[..2];
  }

  /** The load-time table: the alias table without "唐-五代" and without
      the space rule. */
  function NormalizePeriod(period: string): (r: string)
    ensures period != "唐-五代" && ' ' !in period ==> r == ExtractMainDynasty(period)
    ensures period == "唐-五代" ==> r == period
  {
    if period == "唐-五代" then period
    else match AliasBucket(period)
      case Some(b) => b
      case None => period
  }

  /** The gaps in the load-time table never change an artifact's bucket:
      extracting from the normalized label gives the bucket of the raw one. */
  lemma NormalizeKeepsBucket(period: string)
    ensures ExtractMainDynasty(NormalizePeriod(period)) == ExtractMainDynasty(period)
  {
  }

  /** The load-time record: `displayPeriod` from the table, `originalPeriod`
      the raw period, every other field unchanged. */
  function Normalize(a: Artifact): (r: Artifact)
    ensures r == a.(displayPeriod := r.displayPeriod, originalPeriod := r.originalPeriod)
    ensures r.displayPeriod == Some(NormalizePeriod(a.period)) && r.originalPeriod == Some(a.period)
  {
    a.(displayPeriod := Some(NormalizePeriod(a.period)), originalPeriod := Some(a.period))
  }

  /** The page's artifact list after loading. */
  function NormalizeAll(xs: seq<Artifact>): (r: seq<Artifact>)
    ensures |r| == |xs|
    ensures forall i :: 0 <= i < |xs| ==> r[i] == Normalize(xs[i])
  {
    if xs == [] then [] else [Normalize(xs[0])] + NormalizeAll(xs[1..])
  }

  /** The bucket an artifact filters into. */
  function Bucket(a: Artifact): string {
    ExtractMainDynasty(ShownPeriod(a))
  }

  /** After loading, each artifact's bucket is that of its raw period. */
  lemma LoadedBucket(a: Artifact)
    ensures Bucket(Normalize(a)) == ExtractMainDynasty(a.period)
  {
    var n := Normalize(a);
    if NormalizePeriod(a.period) == "" {
      assert a.period == "";
    }
  }

  // ------------------------------------------------------------- filtering

  /** Case-insensitive match of the term in the name or the description. */
  function MatchesSearch(a: Artifact, term: string): (b: bool)
    ensures term == "" ==> b
    ensures b ==> |term| <= |a.name| || |term| <= |a.description|
  {
    assert term == "" ==> ContainsAt(Lower(a.name), Lower(term), 0);
    Contains(Lower(a.name), Lower(term)) || Contains(Lower(a.description), Lower(term))
  }

  /** `!term.trim()`. */
  predicate IsBlank(term: string) {
    JsTrim(term) == ""
  }

  function PeriodAndTerm(period: string, term: string): Artifact -> bool {
    (a: Artifact) => Bucket(a) == period && (IsBlank(term) || MatchesSearch(a, term))
  }

  function TermOnly(term: string): Artifact -> bool {
    (a: Artifact) => MatchesSearch(a, term)
  }

  /** `filterArtifacts(period)` with search term `term`: "all" keeps every
      artifact matching the term (all of them for a blank term); a bucket
      keeps the artifacts in it that match the term. Order is kept. */
  function FilterArtifacts(artifacts: seq<Artifact>, period: string, term: string): (r: seq<Artifact>)
    ensures period == "all" && IsBlank(term) ==> r == artifacts
    ensures Subsequence(r, artifacts)
    ensures forall x :: x in r <==>
              (x in artifacts && (period == "all" || Bucket(x) == period)
               && (IsBlank(term) || MatchesSearch(x, term)))
  {
    if period == "all" then
      if !IsBlank(term) then
        FilterSubsequence(TermOnly(term), artifacts);
        Filter(TermOnly(term), artifacts)
      else
        FilterAll((a: Artifact) => true, artifacts);
        FilterSubsequence((a: Artifact) => true, artifacts);
        artifacts
    else
      FilterSubsequence(PeriodAndTerm(period, term), artifacts);
      Filter(PeriodAndTerm(period, term), artifacts)
  }

  function TermAndFilter(activeFilter: string, term: string): Artifact -> bool {
    (a: Artifact) => MatchesSearch(a, term) && (activeFilter == "all" || Bucket(a) == activeFilter)
  }

  /** `handleSearch(term)` under the active filter: a blank term defers to
      the period filter; otherwise artifacts matching the term (and the
      filter, unless it is "all"). */
  function HandleSearch(artifacts: seq<Artifact>, activeFilter: string, term: string): (r: seq<Artifact>)
    ensures activeFilter == "all" && IsBlank(term) ==> r == artifacts
    ensures forall x :: x in r <==>
              (x in artifacts && (activeFilter == "all" || Bucket(x) == activeFilter)
               && (IsBlank(term) || MatchesSearch(x, term)))
  {
    if IsBlank(term) then FilterArtifacts(artifacts, activeFilter, term)
    else Filter(TermAndFilter(activeFilter, term), artifacts)
  }

  /** Typing a term and choosing a filter reach the same list. */
  lemma HandleSearchAgrees(artifacts: seq<Artifact>, activeFilter: string, term: string)
    ensures HandleSearch(artifacts, activeFilter, term) == FilterArtifacts(artifacts, activeFilter, term)
  {
    if !IsBlank(term) {
      if activeFilter == "all" {
        FilterCongruent(TermAndFilter(activeFilter, term), TermOnly(term), artifacts);
      } else {
        FilterCongruent(TermAndFilter(activeFilter, term), PeriodAndTerm(activeFilter, term), artifacts);
      }
    }
  }

  /** `handleSearch` as written: `setSearchTerm` has not taken effect when
      a blank term defers to `filterArtifacts`, which still reads the
      previous term of the render. */
  function HandleSearchAsWritten(artifacts: seq<Artifact>, activeFilter: string,
                                 previousTerm: string, term: string): (r: seq<Artifact>)
    ensures IsBlank(term) ==> r == FilterArtifacts(artifacts, activeFilter, previousTerm)
    ensures !IsBlank(term) ==> r == HandleSearch(artifacts, activeFilter, term)
  {
    if IsBlank(term) then FilterArtifacts(artifacts, activeFilter, previousTerm)
    else Filter(TermAndFilter(activeFilter, term), artifacts)
  }

  /** Emptying the search box after typing "a" leaves the list filtered by
      "a": an artifact that does not match disappears, where the cleared
      search shows it again. */
  lemma ClearedSearchKeepsOldTerm()
    ensures
      var a := Artifact("1", "", "", "", "", "", "", "", "", "", "", None, None);
      HandleSearchAsWritten([a], "all", "a", "") == [] && HandleSearch([a], "all", "") == [a]
  {
    var a := Artifact("1", "", "", "", "", "", "", "", "", "", "", None, None);
    assert !IsJsWhitespace('a');
    assert TrimStart("a", IsJsWhitespace) == "a";
    assert TrimEnd("a", IsJsWhitespace) == "a";
    assert !IsBlank("a");
    assert !MatchesSearch(a, "a");
    assert "a" != [];
    assert a !in FilterArtifacts([a], "all", "a");
  }

  // -------------------------------------------------------------- grouping

  /** The label an artifact is grouped under: `originalPeriod || period`. */
  function SubPeriod(a: Artifact): string {
    if a.originalPeriod.Some? && a.originalPeriod.value != "" then a.originalPeriod.value else a.period
  }

  function InSubPeriod(key: string): Artifact -> bool {
    (a: Artifact) => SubPeriod(a) == key
  }

  /** The groups built from `seen` so far: each label met has a group,
      and each group holds exactly the artifacts with its label. */
  ghost predicate GroupsOf(groups: map<string, seq<Artifact>>, seen: seq<Artifact>) {
    (forall j :: 0 <= j < |seen| ==> SubPeriod(seen[j]) in groups)
    && (forall k :: k in groups ==> groups[k] != [] && groups[k] == Filter(InSubPeriod(k), seen))
  }

  /** Appending one artifact to its group keeps `GroupsOf`. */
  lemma GroupStep(groups: map<string, seq<Artifact>>, seen: seq<Artifact>, a: Artifact)
    requires GroupsOf(groups, seen)
    ensures GroupsOf(groups[SubPeriod(a) := (if SubPeriod(a) in groups then groups[SubPeriod(a)] else []) + [a]], seen + [a])
  {
    var key := SubPeriod(a);
    var next := groups[key := (if key in groups then groups[key] else []) + [a]];
    forall k | k in next ensures next[k] != [] && next[k] == Filter(InSubPeriod(k), seen + [a]) {
      FilterSnoc(InSubPeriod(k), seen, a);
      if k == key {
        GroupOfKey(groups, seen, a);
      } else {
        assert next[k] == groups[k];
      }
    }
    forall j | 0 <= j < |seen + [a]| ensures SubPeriod((seen + [a])[j]) in next {
      if j < |seen| {
        assert (seen + [a])[j] == seen[j];
      }
    }
  }

  /** The group of the appended artifact's own label. */
  lemma GroupOfKey(groups: map<string, seq<Artifact>>, seen: seq<Artifact>, a: Artifact)
    requires GroupsOf(groups, seen)
    ensures (if SubPeriod(a) in groups then groups[SubPeriod(a)] else []) == Filter(InSubPeriod(SubPeriod(a)), seen)
  {
    var key := SubPeriod(a);
    if key !in groups {
      forall x | x in seen ensures !InSubPeriod(key)(x) {
        var j :| 0 <= j < |seen| && seen[j] == x;
      }
      FilterNone(InSubPeriod(key), seen);
    }
  }

  /** The grouping loop of `filterArtifacts`: every artifact's sub-period
      label has a group, and each group is non-empty and holds exactly the
      artifacts with its label in list order, so the groups partition the
      list. */
  method GroupBySubPeriod(filtered: seq<Artifact>) returns (groups: map<string, seq<Artifact>>)
    ensures forall a :: a in filtered ==> SubPeriod(a) in groups
    ensures forall k :: k in groups ==> groups[k] != [] && groups[k] == Filter(InSubPeriod(k), filtered)
  {
    groups := map[];
    var i := 0;
    while i < |filtered|
      invariant 0 <= i <= |filtered|
      invariant GroupsOf(groups, filtered[..i])
    {
      var a := filtered[i];
      var key := SubPeriod(a);
      assert filtered[..i + 1] == filtered[..i] + [a];
      GroupStep(groups, filtered[..i], a);
      if key !in groups {
        groups := groups[key := []];
      }
      groups := groups[key := groups[key] + [a]];
      i := i + 1;
    }
    assert filtered[..i] == filtered;
  }

  // ------------------------------------------------------------ filter bar

  const Chronology: seq<string> := ["all", "马家浜文化", "崧泽文化", "良渚文化", "马桥文化", "周", "汉",
    "三国", "晋", "六朝", "唐", "晚唐至五代", "宋", "元", "明", "清民国", "近代"]

  /** The bucket of each artifact, in list order. */
  function Buckets(artifacts: seq<Artifact>): (r: seq<string>)
    ensures |r| == |artifacts|
    ensures forall i :: 0 <= i < |artifacts| ==> r[i] == Bucket(artifacts[i])
  {
    if artifacts == [] then [] else [Bucket(artifacts[0])] + Buckets(artifacts[1..])
  }

  /** `periods`: "all" and the distinct buckets present. */
  function Periods(artifacts: seq<Artifact>): seq<string> {
    if |artifacts| > 0 then ["all"] + Dedup(Buckets(artifacts)) else ["all"]
  }

  function Present(periods: seq<string>): string -> bool {
    (p: string) => p in periods
  }

  /** "all" and the buckets present, each once. */
  lemma PeriodsMembers(artifacts: seq<Artifact>, p: string)
    ensures p in Periods(artifacts) <==> p == "all" || p in Buckets(artifacts)
  {
    if artifacts == [] {
      assert Buckets(artifacts) == [];
    }
  }

  /** `orderedPeriods`: the chronological list cut down to the buckets
      present, always starting with "all". */
  function OrderedPeriods(artifacts: seq<Artifact>): (r: seq<string>)
    ensures r != [] && r[0] == "all"
    ensures Subsequence(r, Chronology)
    ensures forall p :: p in r <==> p in Chronology && (p == "all" || p in Buckets(artifacts))
  {
    var periods := Periods(artifacts);
    forall p ensures p in periods <==> p == "all" || p in Buckets(artifacts) {
      PeriodsMembers(artifacts, p);
    }
    PresentInOrder(Chronology, periods);
    Filter(Present(periods), Chronology)
  }

  /** Cutting an order down to the entries present keeps the order and its
      first entry when that is present. */
  lemma PresentInOrder(order: seq<string>, periods: seq<string>)
    requires order != [] && order[0] in periods
    ensures Filter(Present(periods), order) != [] && Filter(Present(periods), order)[0] == order[0]
    ensures Subsequence(Filter(Present(periods), order), order)
    ensures forall p :: p in Filter(Present(periods), order) <==> p in order && p in periods
  {
    FilterSubsequence(Present(periods), order);
    FilterHead(Present(periods), order);
  }
}
