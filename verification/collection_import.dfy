/** The collection import (`process_collection_data_debug.py` and
    `data_processing/process_collection_data.py`): spreadsheet rows become
    artifact records, and the rule-based branch of quiz generation writes one
    or two questions per described artifact. Both scripts share the row
    mapping; they differ in how many rule-based quizzes they write. The CSV
    reader, the JSON writer and the AI branch are not part of this model. */
module CollectionImport {
  import opened Wrappers
  import opened Seqs
  import opened Strings
  import opened Catalog

  /** A spreadsheet cell as pandas reads it: missing (NaN) or text. */
  datatype Cell = Missing | Text(s: string)

  /** The columns the import reads: 名称, 简介, 尺寸信息, 图片URL, 本地图片路径. */
  datatype Row = Row(name: Cell, intro: Cell, size: Cell, imageUrl: Cell, localPath: Cell)

  const DefaultLocation := "苏州博物馆"

  /** `fillna("")`. */
  function FillNa(c: Cell): string {
    match c
    case Missing => ""
    case Text(s) => s
  }

  /** `clean_text`: a missing value is the empty string; text is stripped
      of whitespace at both ends and nothing else. */
  function CleanText(c: Cell): (r: string)
    ensures c.Missing? ==> r == ""
    ensures r == [] || (!IsPyWhitespace(r[0]) && !IsPyWhitespace(r[|r| - 1]))
    ensures c.Text? ==> exists i: nat :: StripAt(c.s, r, i, IsPyWhitespace)
  {
    match c
    case Missing => ""
    case Text(s) => PyStrip(s)
  }

  /** Cleaning cleaned text changes nothing. */
  lemma CleanTextIdempotent(c: Cell)
    ensures CleanText(Text(CleanText(c))) == CleanText(c)
  {
    StripNoEnds(CleanText(c), IsPyWhitespace);
  }

  // ------------------------------------------------------ period in a name

  /** How far the lazy group of `【(.*?)】` stretches from `k`: the first
      `】` at or after `k`, unless a line break comes first. */
  function CloseFrom(s: string, k: nat): (r: Option<nat>)
    ensures r.Some? ==> k <= r.value < |s| && s[r.value] == '】'
    ensures r.Some? ==> forall m :: k <= m < r.value ==> s[m] != '】' && s[m] != '\n'
    ensures r.None? ==> forall m :: k <= m < |s| && s[m] == '】' ==> exists n :: k <= n < m && s[n] == '\n'
    decreases |s| - k
  {
    if k >= |s| then None
    else if s[k] == '】' then Some(k)
    else if s[k] == '\n' then None
    else CloseFrom(s, k + 1)
  }

  /** A closing bracket with no line break and no other closing bracket
      before it is the one the lazy group stops at. */
  lemma {:induction false} CloseFromFinds(s: string, k: nat, j: nat)
    requires k <= j < |s| && s[j] == '】'
    requires forall m :: k <= m < j ==> s[m] != '】' && s[m] != '\n'
    ensures CloseFrom(s, k) == Some(j)
    decreases j - k
  {
    if k < j {
      CloseFromFinds(s, k + 1, j);
    }
  }

  /** `re.search(r'【(.*?)】', s)` from position `i`: the first opening
      bracket whose group closes, with its closing bracket. */
  function MatchFrom(s: string, i: nat): (r: Option<(nat, nat)>)
    ensures r.Some? ==> i <= r.value.0 < |s| && s[r.value.0] == '【'
                        && CloseFrom(s, r.value.0 + 1) == Some(r.value.1)
    ensures r.Some? ==> forall p :: i <= p < r.value.0 && s[p] == '【' ==> CloseFrom(s, p + 1).None?
    ensures r.None? ==> forall p :: i <= p < |s| && s[p] == '【' ==> CloseFrom(s, p + 1).None?
    decreases |s| - i
  {
    if i >= |s| then None
    else if s[i] == '【' && CloseFrom(s, i + 1).Some? then Some((i, CloseFrom(s, i + 1).value))
    else MatchFrom(s, i + 1)
  }

  /** `extract_period_from_name`: the text between the first matching pair
      of brackets, or "" when there is none. The text never holds a closing
      bracket or a line break, and when it is non-empty the name holds it
      in brackets. */
  function ExtractPeriod(name: string): (r: string)
    ensures '】' !in r && '\n' !in r
    ensures MatchFrom(name, 0).None? ==> r == ""
    ensures r != "" ==> exists o :: ContainsAt(name, "【" + r + "】", o)
    ensures r != "" ==> exists o: nat :: (ContainsAt(name, "【" + r + "】", o)
      && forall p :: 0 <= p < o && name[p] == '【' ==> CloseFrom(name, p + 1).None?)
  {
    match MatchFrom(name, 0)
    case None => ""
    case Some((o, c)) =>
      var r := name[o + 1..c];
      assert name[o..c + 1] == [name[o]] + r + [name[c]];
      assert ContainsAt(name, "【" + r + "】", o);
      r
  }

  /** A name whose first opening bracket starts a tag without a line break
      gives back the tag's text. */
  lemma {:induction false} ExtractTagged(prefix: string, period: string, rest: string)
    requires '【' !in prefix && '】' !in period && '\n' !in period
    ensures ExtractPeriod(prefix + "【" + period + "】" + rest) == period
  {
    var s := prefix + "【" + period + "】" + rest;
    var o := |prefix|;
    var c := o + 1 + |period|;
    assert s[o] == '【' && s[c] == '】';
    assert forall m :: o + 1 <= m < c ==> s[m] == period[m - o - 1];
    CloseFromFinds(s, o + 1, c);
    MatchSkips(s, 0, o);
    assert s[o + 1..c] == period;
  }

  lemma {:induction false} MatchSkips(s: string, i: nat, o: nat)
    requires i <= o < |s| && s[o] == '【' && CloseFrom(s, o + 1).Some?
    requires forall p :: i <= p < o ==> s[p] != '【'
    ensures MatchFrom(s, i) == Some((o, CloseFrom(s, o + 1).value))
    decreases o - i
  {
    if i < o {
      MatchSkips(s, i + 1, o);
    }
  }

  /** The name without its tag: Python's `replace` removes every
      `【period】` in one left-to-right pass, then the result is stripped;
      a name without a period is kept as it is. */
  function CleanName(raw: string, period: string): (r: string)
    ensures period == "" ==> r == raw
    ensures period != "" ==> r == [] || (!IsPyWhitespace(r[0]) && !IsPyWhitespace(r[|r| - 1]))
  {
    if period != "" then PyStrip(ReplaceAll(raw, "【" + period + "】", "")) else raw
  }

  /** A tag preceded by no opening bracket and not repeated later is cut
      out of the name, and the rest is stripped. */
  lemma CleanNameRemovesTag(prefix: string, period: string, rest: string)
    requires period != "" && '【' !in prefix && !Contains(rest, "【" + period + "】")
    ensures CleanName(prefix + "【" + period + "】" + rest, period) == PyStrip(prefix + rest)
  {
    var tag := "【" + period + "】";
    assert prefix + "【" + period + "】" + rest == prefix + (tag + rest);
    ReplaceAllSkip(prefix, tag + rest, tag, "");
    ReplaceAllHead(tag, rest, "");
    ReplaceAllAbsent(rest, tag, "");
    assert ReplaceAll(prefix + (tag + rest), tag, "") == prefix + rest;
  }

  /** One pass can leave a tag behind: removing both occurrences of the
      tag from `front【p】【【p】p】` joins the bracket before the second one
      with the `p】` after it, so `front【p】` remains. */
  lemma CleanNameCanLeaveTag(front: string, period: string)
    requires period != "" && '【' !in front && '【' !in period
    ensures var tag := "【" + period + "】";
      CleanName(front + tag + "【" + tag + period + "】", period) == PyStrip(front + tag)
  {
    var tag := "【" + period + "】";
    var inner := "【" + (tag + (period + "】"));
    assert front + tag + "【" + tag + period + "】" == front + (tag + inner);
    ReplaceAllSkip(front, tag + inner, tag, "");
    ReplaceAllHead(tag, inner, "");
    NestedTagLeft(period);
    assert ReplaceAll(tag + inner, tag, "") == tag;
    assert ReplaceAll(front + (tag + inner), tag, "") == front + tag;
  }

  /** `【【p】p】` without its inner tag is `【p】`. */
  lemma NestedTagLeft(period: string)
    requires period != "" && '【' !in period
    ensures var tag := "【" + period + "】";
      ReplaceAll("【" + (tag + (period + "】")), tag, "") == tag
  {
    var tag := "【" + period + "】";
    var tail := period + "】";
    var inner := "【" + (tag + tail);
    assert inner[..|tag|] != tag by {
      assert inner[1] == '【' && tag[1] == period[0];
    }
    ReplaceAllMiss(inner, tag, "");
    assert inner[1..] == tag + tail;
    ReplaceAllHead(tag, tail, "");
    ReplaceAllSkip(tail, "", tag, "");
    assert tail + "" == tail;
  }

  /** A row whose name carries one period tag after no other opening
      bracket gets that period, and the name without the tag. */
  lemma MakeArtifactOfTaggedName(idx: nat, row: Row, prefix: string, period: string, rest: string)
    requires FillNa(row.name) == prefix + "【" + period + "】" + rest
    requires period != "" && '【' !in prefix && '】' !in period && '\n' !in period
    requires !Contains(rest, "【" + period + "】")
    ensures MakeArtifact(idx, row).period == period
    ensures MakeArtifact(idx, row).name == PyStrip(prefix + rest)
  {
    ExtractTagged(prefix, period, rest);
    CleanNameRemovesTag(prefix, period, rest);
  }

  // ----------------------------------------------------------- row mapping

  /** The record built from the row at position `idx`. */
  function MakeArtifact(idx: nat, row: Row): (a: Artifact)
    ensures a.id == NatToString(idx + 1)
    ensures a.fullName == FillNa(row.name) && a.period == ExtractPeriod(FillNa(row.name))
    ensures a.name == CleanName(a.fullName, a.period)
    ensures a.location == DefaultLocation && a.interestingFacts == "" && a.culturalContext == ""
  {
    var raw := FillNa(row.name);
    var period := ExtractPeriod(raw);
    Artifact(
      id := NatToString(idx + 1),
      name := CleanName(raw, period),
      fullName := raw,
      period := period,
      description := CleanText(Text(FillNa(row.intro))),
      dimensions := CleanText(Text(FillNa(row.size))),
      image := CleanText(Text(FillNa(row.imageUrl))),
      localImage := CleanText(Text(FillNa(row.localPath))),
      interestingFacts := "",
      culturalContext := "",
      location := DefaultLocation,
      displayPeriod := None,
      originalPeriod := None)
  }

  predicate Named(row: Row) {
    FillNa(row.name) != ""
  }

  /** The positions of the rows `keep` accepts, in increasing order. */
  function KeptPositions<R>(keep: R -> bool, rows: seq<R>): (ps: seq<nat>)
    ensures |ps| <= |rows|
    ensures forall i :: 0 <= i < |ps| ==> ps[i] < |rows| && keep(rows[ps[i]])
    ensures forall i, j :: 0 <= i < j < |ps| ==> ps[i] < ps[j]
  {
    if rows == [] then []
    else
      var k := |rows| - 1;
      var init := KeptPositions(keep, rows[..k]);
      assert forall i :: 0 <= i < |init| ==> rows[..k][init[i]] == rows[init[i]];
      init + (if keep(rows[k]) then [k] else [])
  }

  /** Every accepted row has its position listed. */
  lemma {:induction false} KeptPositionsComplete<R>(keep: R -> bool, rows: seq<R>)
    ensures forall k :: 0 <= k < |rows| && keep(rows[k]) ==> k in KeptPositions(keep, rows)
  {
    if rows != [] {
      var k := |rows| - 1;
      KeptPositionsComplete(keep, rows[..k]);
      assert forall j :: 0 <= j < k ==> rows[..k][j] == rows[j];
    }
  }

  /** One value made from each accepted row and its position, in row order. */
  function KeptMap<R, A>(keep: R -> bool, make: (nat, R) -> A, rows: seq<R>): (r: seq<A>)
    ensures |r| == |KeptPositions(keep, rows)|
  {
    if rows == [] then []
    else
      var k := |rows| - 1;
      KeptMap(keep, make, rows[..k]) + (if keep(rows[k]) then [make(k, rows[k])] else [])
  }

  /** Each made value comes from the row at its listed position. */
  lemma {:induction false} KeptMapAt<R, A>(keep: R -> bool, make: (nat, R) -> A, rows: seq<R>)
    ensures forall i :: 0 <= i < |KeptMap(keep, make, rows)| ==>
              KeptMap(keep, make, rows)[i] == make(KeptPositions(keep, rows)[i], rows[KeptPositions(keep, rows)[i]])
  {
    if rows != [] {
      var k := |rows| - 1;
      KeptMapAt(keep, make, rows[..k]);
      var init := KeptMap(keep, make, rows[..k]);
      var ps := KeptPositions(keep, rows[..k]);
      var all := KeptPositions(keep, rows);
      assert all == ps + (if keep(rows[k]) then [k] else []);
      forall i | 0 <= i < |init|
        ensures init[i] == make(all[i], rows[all[i]])
      {
        assert all[i] == ps[i] && rows[..k][ps[i]] == rows[ps[i]];
      }
    }
  }

  /** The positions of the named rows. */
  function NamedPositions(rows: seq<Row>): seq<nat> {
    KeptPositions(Named, rows)
  }

  /** Every named row has its position listed. */
  lemma NamedPositionsComplete(rows: seq<Row>)
    ensures forall k :: 0 <= k < |rows| && Named(rows[k]) ==> k in NamedPositions(rows)
  {
    KeptPositionsComplete(Named, rows);
  }

  /** The records of a sheet: one per named row, in row order, each
      carrying its row position plus one as its id. */
  function Records(rows: seq<Row>): (r: seq<Artifact>)
    ensures |r| == |NamedPositions(rows)|
    ensures forall i :: 0 <= i < |r| ==> r[i].id == NatToString(NamedPositions(rows)[i] + 1)
  {
    KeptMapAt(Named, MakeArtifact, rows);
    KeptMap(Named, MakeArtifact, rows)
  }

  /** Each record is the one built from its row. */
  lemma RecordsFromRows(rows: seq<Row>)
    ensures forall i :: 0 <= i < |Records(rows)| ==>
              Records(rows)[i] == MakeArtifact(NamedPositions(rows)[i], rows[NamedPositions(rows)[i]])
  {
    KeptMapAt(Named, MakeArtifact, rows);
  }

  /** Row positions make the ids: no two records share one. */
  lemma RecordsUniqueIds(rows: seq<Row>)
    ensures UniqueIds(Records(rows))
  {
    var r, ps := Records(rows), NamedPositions(rows);
    PositionsGiveDistinctIds(ps);
    forall i, j | 0 <= i < j < |r|
      ensures r[i].id != r[j].id
    {
      var a, b := NatToString(ps[i] + 1), NatToString(ps[j] + 1);
      assert r[i].id == a && r[j].id == b;
      assert a != b;
    }
  }

  /** Ids rendered from strictly increasing positions are distinct. */
  lemma PositionsGiveDistinctIds(ps: seq<nat>)
    requires forall i, j :: 0 <= i < j < |ps| ==> ps[i] < ps[j]
    ensures forall i, j :: 0 <= i < j < |ps| ==> NatToString(ps[i] + 1) != NatToString(ps[j] + 1)
  {
    forall i, j | 0 <= i < j < |ps|
      ensures NatToString(ps[i] + 1) != NatToString(ps[j] + 1)
    {
      if NatToString(ps[i] + 1) == NatToString(ps[j] + 1) {
        NatToStringInjective(ps[i] + 1, ps[j] + 1);
      }
    }
  }

  /** The row loop of `process_collection_data` (both scripts). */
  method ProcessCollectionData(rows: seq<Row>) returns (artifacts: seq<Artifact>)
    ensures artifacts == Records(rows)
  {
    artifacts := [];
    var idx := 0;
    while idx < |rows|
      invariant 0 <= idx <= |rows|
      invariant artifacts == Records(rows[..idx])
    {
      assert rows[..idx + 1][..idx] == rows[..idx];
      assert Records(rows[..idx + 1]) == KeptMap(Named, MakeArtifact, rows[..idx + 1]);
      if FillNa(rows[idx].name) != "" {
        artifacts := artifacts + [MakeArtifact(idx, rows[idx])];
      }
      idx := idx + 1;
    }
    assert rows[..|rows|] == rows;
  }

  /** The debug script's variant: a sheet that cannot be read gives no
      artifacts instead of an error. */
  method ProcessCollectionDataDebug(sheet: Option<seq<Row>>) returns (artifacts: seq<Artifact>)
    ensures sheet.None? ==> artifacts == []
    ensures sheet.Some? ==> artifacts == Records(sheet.value)
    ensures UniqueIds(artifacts)
  {
    if sheet.None? {
      return [];
    }
    artifacts := ProcessCollectionData(sheet.value);
    RecordsUniqueIds(sheet.value);
  }

  // ----------------------------------------------------------------- limit

  /** The `limit` argument: only a value strictly between 0 and the length
      cuts the list, to that prefix. */
  function Limited<T>(xs: seq<T>, limit: Option<int>): (r: seq<T>)
    ensures |r| <= |xs| && r == xs[..|r|]
    ensures limit.Some? && 0 < limit.value < |xs| ==> |r| == limit.value
    ensures !(limit.Some? && 0 < limit.value < |xs|) ==> r == xs
  {
    if limit.Some? && 0 < limit.value < |xs| then xs[..limit.value] else xs
  }

  // ------------------------------------------------------ rule-based quizzes

  /** The quiz id `quiz_{artifactId}_{n}`. */
  function QuizId(artifactId: string, n: nat): string {
    "quiz_" + artifactId + "_" + NatToString(n)
  }

  /** Two quiz ids with one-digit numbers agree only for the same artifact
      and the same number. */
  lemma QuizIdInjective(x: string, y: string, n: nat, m: nat)
    requires n < 10 && m < 10 && QuizId(x, n) == QuizId(y, m)
    ensures x == y && n == m
  {
    var qx, qy := QuizId(x, n), QuizId(y, m);
    assert |qx| == |x| + 7 && |qy| == |y| + 7;
    assert qx[5..5 + |x|] == x;
    assert qy[5..5 + |y|] == y;
    assert qx[|qx| - 1] == DigitChar(n) && qy[|qy| - 1] == DigitChar(m);
  }

  const Distractors1 := [QuizOption("b", "汉代"), QuizOption("c", "唐代"), QuizOption("d", "宋代")]
  const Distractors2 := [QuizOption("b", "由黄金制成"), QuizOption("c", "产自西域"), QuizOption("d", "为皇家专用器物")]

  /** The question about the artifact's period: option a is the period. */
  function PeriodQuiz(a: Artifact): Quiz {
    Quiz(QuizId(a.id, 1), a.id, a.name + "是哪个时期的藏品？",
         [QuizOption("a", a.period)] + Distractors1, "a",
         a.name + "是" + a.period + "时期的藏品。")
  }

  /** The question about the description: option a is its first 50
      characters followed by "...". */
  function FeatureQuiz(a: Artifact, n: nat): Quiz {
    Quiz(QuizId(a.id, n), a.id, "关于" + a.name + "，以下哪一项描述是正确的？",
         [QuizOption("a", Take(a.description, 50) + "...")] + Distractors2, "a",
         "正确描述：" + a.description)
  }

  /** Four options a to d, and the answer is a. */
  predicate WellFormed(q: Quiz) {
    |q.options| == 4 && q.options[0].id == "a" && q.options[1].id == "b"
    && q.options[2].id == "c" && q.options[3].id == "d" && q.correctAnswer == "a"
  }

  predicate Described(a: Artifact) {
    a.description != ""
  }

  predicate QuizIdsDistinct(qs: seq<Quiz>) {
    forall i, j :: 0 <= i < j < |qs| ==> qs[i].id != qs[j].id
  }

  /** The debug script's quizzes for one artifact: none without a
      description; the period question; and the description question as
      `quiz_{id}_2` when the description is longer than 20 characters. */
  function DebugQuizzesOf(a: Artifact): (r: seq<Quiz>)
    ensures |r| == (if !Described(a) then 0 else if |a.description| > 20 then 2 else 1)
    ensures forall i :: 0 <= i < |r| ==> WellFormed(r[i]) && r[i].artifactId == a.id
    ensures |r| >= 1 ==> |r[0].options| == 4 && r[0].options[0].text == a.period && r[0].id == QuizId(a.id, 1)
    ensures |r| == 2 ==> |r[1].options| == 4 && r[1].options[0].text == Take(a.description, 50) + "..." && r[1].id == QuizId(a.id, 2)
  {
    if !Described(a) then []
    else if |a.description| > 20 then [PeriodQuiz(a), FeatureQuiz(a, 2)]
    else [PeriodQuiz(a)]
  }

  /** All quizzes of the debug script, artifact by artifact. */
  function DebugQuizzes(artifacts: seq<Artifact>): seq<Quiz> {
    if artifacts == [] then []
    else
      var k := |artifacts| - 1;
      DebugQuizzes(artifacts[..k]) + DebugQuizzesOf(artifacts[k])
  }

  /** Every debug quiz is well formed and numbered 1 or 2. */
  lemma {:induction false} DebugQuizzesWellFormed(artifacts: seq<Artifact>)
    ensures forall q :: q in DebugQuizzes(artifacts) ==>
              WellFormed(q) && (q.id == QuizId(q.artifactId, 1) || q.id == QuizId(q.artifactId, 2))
  {
    if artifacts != [] {
      var k := |artifacts| - 1;
      DebugQuizzesWellFormed(artifacts[..k]);
      var last := DebugQuizzesOf(artifacts[k]);
      assert forall q :: q in last ==> q.artifactId == artifacts[k].id;
    }
  }

  /** Every debug quiz belongs to a described artifact. */
  lemma {:induction false} DebugQuizzesOwned(artifacts: seq<Artifact>)
    ensures forall q :: q in DebugQuizzes(artifacts) ==>
              exists i :: 0 <= i < |artifacts| && Described(artifacts[i]) && q.artifactId == artifacts[i].id
  {
    if artifacts != [] {
      var k := |artifacts| - 1;
      var init, last := DebugQuizzes(artifacts[..k]), DebugQuizzesOf(artifacts[k]);
      DebugQuizzesOwned(artifacts[..k]);
      assert DebugQuizzes(artifacts) == init + last;
      forall q: Quiz | q in init + last
        ensures exists i :: 0 <= i < |artifacts| && Described(artifacts[i]) && q.artifactId == artifacts[i].id
      {
        if q in init {
          var i :| 0 <= i < k && Described(artifacts[..k][i]) && q.artifactId == artifacts[..k][i].id;
          assert artifacts[..k][i] == artifacts[i];
        } else {
          assert q.artifactId == artifacts[k].id;
        }
      }
    }
  }

  /** Every described artifact gets its period question. */
  lemma {:induction false} DebugQuizzesCover(artifacts: seq<Artifact>)
    ensures forall a :: a in artifacts && Described(a) ==> PeriodQuiz(a) in DebugQuizzes(artifacts)
  {
    if artifacts != [] {
      var k := |artifacts| - 1;
      var init, last := DebugQuizzes(artifacts[..k]), DebugQuizzesOf(artifacts[k]);
      DebugQuizzesCover(artifacts[..k]);
      assert DebugQuizzes(artifacts) == init + last;
      forall a | a in artifacts && Described(a)
        ensures PeriodQuiz(a) in init + last
      {
        if a != artifacts[k] {
          var i :| 0 <= i < |artifacts| && artifacts[i] == a;
          assert artifacts[..k][i] == a;
        }
      }
    }
  }

  /** With unique artifact ids the debug script's quiz ids are unique. */
  lemma {:induction false} DebugQuizIdsUnique(artifacts: seq<Artifact>)
    requires UniqueIds(artifacts)
    ensures QuizIdsDistinct(DebugQuizzes(artifacts))
  {
    if artifacts != [] {
      var k := |artifacts| - 1;
      var init, last := DebugQuizzes(artifacts[..k]), DebugQuizzesOf(artifacts[k]);
      DebugQuizIdsUnique(artifacts[..k]);
      DebugQuizzesWellFormed(artifacts[..k]);
      DebugQuizzesOwned(artifacts[..k]);
      var r := init + last;
      assert DebugQuizzes(artifacts) == r;
      forall i, j | 0 <= i < j < |r|
        ensures r[i].id != r[j].id
      {
        if j >= |init| && i >= |init| {
          assert r[i] == last[0] && r[j] == last[1];
          if r[i].id == r[j].id {
            QuizIdInjective(artifacts[k].id, artifacts[k].id, 1, 2);
          }
        } else if j >= |init| {
          assert r[i] in init;
          var p :| 0 <= p < k && Described(artifacts[..k][p]) && r[i].artifactId == artifacts[..k][p].id;
          assert artifacts[..k][p] == artifacts[p];
          if r[i].id == r[j].id {
            var n := if r[i].id == QuizId(r[i].artifactId, 1) then 1 else 2;
            var m := if r[j].id == QuizId(artifacts[k].id, 1) then 1 else 2;
            QuizIdInjective(r[i].artifactId, artifacts[k].id, n, m);
          }
        } else {
          assert r[i] == init[i] && r[j] == init[j];
        }
      }
    }
  }

  /** The rule-based loop of the debug script. Input that is not a
      collection gives no quizzes. */
  method GenerateQuizDataDebug(collection: Option<seq<Artifact>>, limit: Option<int>) returns (quizzes: seq<Quiz>)
    ensures collection.None? ==> quizzes == []
    ensures collection.Some? ==> quizzes == DebugQuizzes(Limited(collection.value, limit))
  {
    if collection.None? {
      return [];
    }
    var toProcess := Limited(collection.value, limit);
    quizzes := [];
    var k := 0;
    while k < |toProcess|
      invariant 0 <= k <= |toProcess|
      invariant quizzes == DebugQuizzes(toProcess[..k])
    {
      assert toProcess[..k + 1][..k] == toProcess[..k];
      var a := toProcess[k];
      ghost var before := quizzes;
      assert DebugQuizzes(toProcess[..k + 1]) == before + DebugQuizzesOf(a);
      if a.description != "" {
        quizzes := quizzes + [PeriodQuiz(a)];
        if |a.description| > 20 {
          quizzes := quizzes + [FeatureQuiz(a, 2)];
        }
      }
      k := k + 1;
    }
    assert toProcess[..|toProcess|] == toProcess;
  }

  /** The main script's single quiz for a described artifact: the
      description question only when the description is longer than 20
      characters and the coin (`random.random() > 0.5`) says so. */
  function MainQuizOf(a: Artifact, coin: bool): (q: Quiz)
    ensures WellFormed(q) && q.artifactId == a.id && q.id == QuizId(a.id, 1)
    ensures q == PeriodQuiz(a) || (|a.description| > 20 && coin && q == FeatureQuiz(a, 1))
    ensures q.options[0].text == a.period || q.options[0].text == Take(a.description, 50) + "..."
  {
    if |a.description| > 20 && coin then FeatureQuiz(a, 1) else PeriodQuiz(a)
  }

  function IsDescribed(): Artifact -> bool {
    (a: Artifact) => Described(a)
  }

  /** All quizzes of the main script: exactly one per described artifact,
      in artifact order; `coins(k)` is the coin of the `k`-th artifact. */
  function MainQuizzes(artifacts: seq<Artifact>, coins: nat -> bool): (r: seq<Quiz>)
    ensures |r| == |Filter(IsDescribed(), artifacts)|
    ensures forall i :: 0 <= i < |r| ==>
              var a := Filter(IsDescribed(), artifacts)[i];
              WellFormed(r[i]) && r[i].artifactId == a.id && r[i].id == QuizId(a.id, 1)
              && (r[i] == PeriodQuiz(a) || (|a.description| > 20 && r[i] == FeatureQuiz(a, 1)))
  {
    if artifacts == [] then []
    else
      var k := |artifacts| - 1;
      var init := MainQuizzes(artifacts[..k], coins);
      FilterSnoc(IsDescribed(), artifacts[..k], artifacts[k]);
      assert artifacts[..k] + [artifacts[k]] == artifacts;
      init + (if Described(artifacts[k]) then [MainQuizOf(artifacts[k], coins(k))] else [])
  }

  /** With unique artifact ids the main script's quiz ids are unique. */
  lemma MainQuizIdsUnique(artifacts: seq<Artifact>, coins: nat -> bool)
    requires UniqueIds(artifacts)
    ensures QuizIdsDistinct(MainQuizzes(artifacts, coins))
  {
    var kept := Filter(IsDescribed(), artifacts);
    var r := MainQuizzes(artifacts, coins);
    FilterUniqueIds(IsDescribed(), artifacts);
    forall i, j | 0 <= i < j < |r|
      ensures r[i].id != r[j].id
    {
      if r[i].id == r[j].id {
        QuizIdInjective(kept[i].id, kept[j].id, 1, 1);
      }
    }
  }

  /** The rule-based loop of the main script. */
  method GenerateQuizData(collection: seq<Artifact>, limit: Option<int>, coins: nat -> bool) returns (quizzes: seq<Quiz>)
    ensures quizzes == MainQuizzes(Limited(collection, limit), coins)
  {
    var toProcess := Limited(collection, limit);
    quizzes := [];
    var k := 0;
    while k < |toProcess|
      invariant 0 <= k <= |toProcess|
      invariant quizzes == MainQuizzes(toProcess[..k], coins)
    {
      assert toProcess[..k + 1][..k] == toProcess[..k];
      var a := toProcess[k];
      if a.description != "" {
        var quiz;
        if |a.description| > 20 && coins(k) {
          quiz := FeatureQuiz(a, 1);
        } else {
          quiz := PeriodQuiz(a);
        }
        quizzes := quizzes + [quiz];
      }
      k := k + 1;
    }
    assert toProcess[..|toProcess|] == toProcess;
  }
}
