/** The catalog service (`lib/data-service.ts`): artifact and quiz records,
    the image-path repair applied on every load, the lookups, the zodiac
    selection and the personalized blend. `fetch` results are parameters:
    `fetched` is the artifacts file as one load sees it (`None` when the
    request or the JSON parse fails), and each operation sees one file. */
module Catalog {
  import opened Wrappers
  import opened Seqs
  import opened Strings
  import opened Shuffling
  import UserModel

  datatype Artifact = Artifact(
    id: string,
    name: string,
    fullName: string,
    period: string,
    description: string,
    dimensions: string,
    image: string,
    localImage: string,
    interestingFacts: string,
    culturalContext: string,
    location: string,
    displayPeriod: Option<string>,
    originalPeriod: Option<string>)

  datatype QuizOption = QuizOption(id: string, text: string)

  datatype Quiz = Quiz(
    id: string,
    artifactId: string,
    question: string,
    options: seq<QuizOption>,
    correctAnswer: string,
    explanation: string)

  /** No two artifacts share an id. */
  predicate UniqueIds(xs: seq<Artifact>) {
    forall i, j :: 0 <= i < j < |xs| ==> xs[i].id != xs[j].id
  }

  // ------------------------------------------------------------ image path

  const ImageDir := "museum_images/"

  /** `fixImagePath`: removes the first "museum_images/" from `localImage`;
      every other field is copied. */
  function FixImagePath(a: Artifact): (r: Artifact)
    ensures r == a.(localImage := r.localImage)
    ensures !Contains(a.localImage, ImageDir) ==> r == a
    ensures Contains(a.localImage, ImageDir) ==>
      var i := IndexOf(a.localImage, ImageDir).value;
      |r.localImage| + |ImageDir| == |a.localImage|
      && a.localImage == r.localImage[..i] + ImageDir + r.localImage[i..]
  {
    if a.localImage != "" && Contains(a.localImage, ImageDir) then
      var s := a.localImage;
      var i := IndexOf(s, ImageDir).value;
      var t := ReplaceFirst(s, ImageDir, "");
      assert t == s[..i] + s[i + |ImageDir|..];
      assert t[..i] == s[..i] && t[i..] == s[i + |ImageDir|..];
      assert s == s[..i] + s[i..i + |ImageDir|] + s[i + |ImageDir|..];
      a.(localImage := t)
    else a
  }

  /** The repair is not idempotent: a path holding the directory name twice
      loses one copy per application, and the source applies it up to three
      times to the same record. */
  lemma FixImagePathTwiceDiffers()
    ensures
      var a := Artifact("1", "", "", "", "", "", "", "museum_images/museum_images/1.jpg", "", "", "",
                        None, None);
      FixImagePath(a).localImage == "museum_images/1.jpg"
      && FixImagePath(FixImagePath(a)).localImage == "1.jpg"
  {
    var a := Artifact("1", "", "", "", "", "", "", "museum_images/museum_images/1.jpg", "", "", "",
                      None, None);
    assert ContainsAt(a.localImage, ImageDir, 0);
    var b := FixImagePath(a);
    assert b.localImage == "museum_images/1.jpg";
    assert ContainsAt(b.localImage, ImageDir, 0);
  }

  /** `map(fixImagePath)`. */
  function FixAll(xs: seq<Artifact>): (r: seq<Artifact>)
    ensures |r| == |xs|
    ensures forall i :: 0 <= i < |xs| ==> r[i] == FixImagePath(xs[i])
  {
    if xs == [] then [] else [FixImagePath(xs[0])] + FixAll(xs[1..])
  }

  /** Membership in a repaired list. */
  lemma FixAllMembers(xs: seq<Artifact>)
    ensures forall a :: a in xs ==> FixImagePath(a) in FixAll(xs)
    ensures forall x :: x in FixAll(xs) ==> exists a :: a in xs && x == FixImagePath(a)
  {
    var r := FixAll(xs);
    forall x | x in r ensures exists a :: a in xs && x == FixImagePath(a) {
      var i :| 0 <= i < |r| && r[i] == x;
      assert xs[i] in xs;
    }
  }

  /** Repairing keeps the order: a subsequence stays a subsequence. */
  lemma {:induction false} FixAllSubsequence(a: seq<Artifact>, b: seq<Artifact>)
    requires Subsequence(a, b)
    ensures Subsequence(FixAll(a), FixAll(b))
    decreases |b|
  {
    if a != [] {
      var fa, fb := FixAll(a), FixAll(b);
      assert fa[0] == FixImagePath(a[0]) && fa[1..] == FixAll(a[1..]);
      assert fb[0] == FixImagePath(b[0]) && fb[1..] == FixAll(b[1..]);
      if a[0] == b[0] {
        FixAllSubsequence(a[1..], b[1..]);
      } else {
        FixAllSubsequence(a, b[1..]);
        SubsequenceCons(fa, fb);
      }
    }
  }

  /** `loadArtifacts`: every record of the file with its image path
      repaired; any failure gives the empty list. Nothing is memoized. */
  function LoadArtifacts(fetched: Option<seq<Artifact>>): (r: seq<Artifact>)
    ensures fetched.None? ==> r == []
    ensures fetched.Some? ==> (|r| == |fetched.value|
      && forall i :: 0 <= i < |r| ==> r[i] == fetched.value[i].(localImage := r[i].localImage))
    ensures fetched.Some? ==> forall i :: 0 <= i < |r| ==> r[i] == FixImagePath(fetched.value[i])
  {
    match fetched
    case None => []
    case Some(xs) => FixAll(xs)
  }

  /** A filter keeps distinct ids distinct. */
  lemma {:induction false} FilterUniqueIds(f: Artifact -> bool, xs: seq<Artifact>)
    requires UniqueIds(xs)
    ensures UniqueIds(Filter(f, xs))
  {
    if xs != [] {
      FilterUniqueIds(f, xs[1..]);
      var tail := Filter(f, xs[1..]);
      if f(xs[0]) {
        var r := Filter(f, xs);
        assert r == [xs[0]] + tail;
        forall j | 0 < j < |r| ensures r[0].id != r[j].id {
          assert r[j] == tail[j - 1];
          assert r[j] in xs[1..];
          var k :| 0 <= k < |xs[1..]| && xs[1..][k] == r[j];
          assert xs[k + 1] == r[j];
        }
      }
    }
  }

  lemma LoadArtifactsUniqueIds(fetched: Option<seq<Artifact>>)
    requires fetched.Some? ==> UniqueIds(fetched.value)
    ensures UniqueIds(LoadArtifacts(fetched))
  {
  }

  // ---------------------------------------------------------------- lookups

  /** Index of the first artifact with id `id`. */
  function FindArtifact(xs: seq<Artifact>, id: string): (r: Option<nat>)
    ensures r.Some? ==> (r.value < |xs| && xs[r.value].id == id
      && forall j :: 0 <= j < r.value ==> xs[j].id != id)
    ensures r.None? ==> forall j :: 0 <= j < |xs| ==> xs[j].id != id
  {
    if xs == [] then None
    else if xs[0].id == id then Some(0)
    else match FindArtifact(xs[1..], id)
      case None => None
      case Some(k) => Some(k + 1)
  }

  /** `getArtifactById`: the first artifact with that id, repaired once more,
      or `None` when no artifact has it. */
  function GetArtifactById(fetched: Option<seq<Artifact>>, id: string): (r: Option<Artifact>)
    ensures var xs := LoadArtifacts(fetched);
      r.None? <==> forall j :: 0 <= j < |xs| ==> xs[j].id != id
    ensures var xs := LoadArtifacts(fetched);
      r.Some? ==> exists i :: (0 <= i < |xs| && xs[i].id == id && r.value == FixImagePath(xs[i])
        && forall j :: 0 <= j < i ==> xs[j].id != id)
  {
    var xs := LoadArtifacts(fetched);
    match FindArtifact(xs, id)
    case None => None
    case Some(i) => Some(FixImagePath(xs[i]))
  }

  function HasIdIn(ids: seq<string>): Artifact -> bool {
    (a: Artifact) => a.id in ids
  }

  function HasIdInSet(ids: set<string>): Artifact -> bool {
    (a: Artifact) => a.id in ids
  }

  /** `getArtifactsByIds`: the catalog artifacts whose id is listed, in
      catalog order (not in the order of `ids`), repaired once more. */
  function GetArtifactsByIds(fetched: Option<seq<Artifact>>, ids: seq<string>): (r: seq<Artifact>)
    ensures |r| <= |LoadArtifacts(fetched)|
    ensures forall x :: x in r ==> x.id in ids
    ensures forall x :: x in r ==> exists a :: a in LoadArtifacts(fetched) && x == FixImagePath(a)
    ensures Subsequence(r, FixAll(LoadArtifacts(fetched)))
  {
    var xs := LoadArtifacts(fetched);
    var kept := Filter(HasIdIn(ids), xs);
    FixAllMembers(kept);
    FilterSubsequence(HasIdIn(ids), xs);
    FixAllSubsequence(kept, xs);
    FixAll(kept)
  }

  /** The artifact found for an id carries that id. */
  lemma GetArtifactByIdHasId(fetched: Option<seq<Artifact>>, id: string)
    ensures GetArtifactById(fetched, id).Some? ==> GetArtifactById(fetched, id).value.id == id
  {
  }

  /** Every catalog artifact whose id is listed is returned, repaired. */
  lemma GetArtifactsByIdsCovers(fetched: Option<seq<Artifact>>, ids: seq<string>, a: Artifact)
    requires a in LoadArtifacts(fetched) && a.id in ids
    ensures FixImagePath(a) in GetArtifactsByIds(fetched, ids)
  {
    var kept := Filter(HasIdIn(ids), LoadArtifacts(fetched));
    FixAllMembers(kept);
  }

  /** With unique catalog ids, a listed id yields at most one artifact: the
      result is no longer than the number of distinct ids asked for. */
  lemma GetArtifactsByIdsBound(fetched: Option<seq<Artifact>>, ids: seq<string>)
    requires fetched.Some? ==> UniqueIds(fetched.value)
    ensures |GetArtifactsByIds(fetched, ids)| <= |set x | x in ids|
    ensures |GetArtifactsByIds(fetched, ids)| <= |ids|
  {
    var xs := LoadArtifacts(fetched);
    var s := set x | x in ids;
    FilterCongruent(HasIdIn(ids), HasIdInSet(s), xs);
    FilterByIdSetBound(xs, s);
    SetOfSeqSize(ids);
  }

  lemma {:induction false} FilterByIdSetBound(xs: seq<Artifact>, s: set<string>)
    requires UniqueIds(xs)
    ensures |Filter(HasIdInSet(s), xs)| <= |s|
  {
    if xs != [] {
      var a := xs[0];
      assert UniqueIds(xs[1..]);
      if a.id in s {
        var s' := s - {a.id};
        forall x | x in xs[1..] ensures HasIdInSet(s)(x) == HasIdInSet(s')(x) {
          var k :| 0 <= k < |xs[1..]| && xs[1..][k] == x;
          assert xs[k + 1] == x;
        }
        FilterCongruent(HasIdInSet(s), HasIdInSet(s'), xs[1..]);
        FilterByIdSetBound(xs[1..], s');
      } else {
        FilterByIdSetBound(xs[1..], s);
      }
    }
  }

  /** Repeating an id in the request changes nothing. */
  lemma GetArtifactsByIdsRepeats(fetched: Option<seq<Artifact>>, ids: seq<string>)
    ensures GetArtifactsByIds(fetched, ids) == GetArtifactsByIds(fetched, Dedup(ids))
  {
    FilterCongruent(HasIdIn(ids), HasIdIn(Dedup(ids)), LoadArtifacts(fetched));
  }

  /** The period an artifact is shown under: `displayPeriod || period`. */
  function ShownPeriod(a: Artifact): string {
    if a.displayPeriod.Some? && a.displayPeriod.value != "" then a.displayPeriod.value else a.period
  }

  function InPeriod(period: string): Artifact -> bool {
    (a: Artifact) => ShownPeriod(a) == period
  }

  /** `getArtifactsByPeriod`: exactly the artifacts shown under `period`, in
      catalog order, repaired once more. */
  function GetArtifactsByPeriod(fetched: Option<seq<Artifact>>, period: string): (r: seq<Artifact>)
    ensures forall x :: x in r ==> exists a :: a in LoadArtifacts(fetched) && ShownPeriod(a) == period && x == FixImagePath(a)
    ensures forall a :: a in LoadArtifacts(fetched) && ShownPeriod(a) == period ==> FixImagePath(a) in r
    ensures Subsequence(r, FixAll(LoadArtifacts(fetched)))
  {
    var kept := Filter(InPeriod(period), LoadArtifacts(fetched));
    FixAllMembers(kept);
    FilterSubsequence(InPeriod(period), LoadArtifacts(fetched));
    FixAllSubsequence(kept, LoadArtifacts(fetched));
    FixAll(kept)
  }

  // ---------------------------------------------------------------- quizzes

  function ForArtifact(artifactId: string): Quiz -> bool {
    (q: Quiz) => q.artifactId == artifactId
  }

  /** `getQuizzesForArtifact` on a loaded list: exactly the quizzes of that
      artifact, in file order. */
  function QuizzesFor(quizzes: seq<Quiz>, artifactId: string): (r: seq<Quiz>)
    ensures forall q :: q in r <==> q in quizzes && q.artifactId == artifactId
  {
    Filter(ForArtifact(artifactId), quizzes)
  }

  /** The quizzes of an artifact keep their file order. */
  lemma QuizzesForInOrder(quizzes: seq<Quiz>, artifactId: string)
    ensures Subsequence(QuizzesFor(quizzes, artifactId), quizzes)
  {
    FilterSubsequence(ForArtifact(artifactId), quizzes);
  }

  /** `getRandomQuizzes` on a loaded list: everything when there are at most
      `count` quizzes, else the first `count` of a shuffle. */
  function RandomQuizzes(quizzes: seq<Quiz>, count: int, rolls: nat -> nat): (r: seq<Quiz>)
    ensures |quizzes| <= count ==> r == quizzes
    ensures 0 <= count < |quizzes| ==> |r| == count
    ensures multiset(r) <= multiset(quizzes)
  {
    if |quizzes| <= count then quizzes
    else
      var shuffled := Shuffle(quizzes, rolls);
      var r := SliceTo(shuffled, count);
      ShufflePermutes(quizzes, rolls);
      assert shuffled == r + shuffled[|r|..];
      r
  }

  /** A quiz-file request: a failure (network, non-ok status or parse
      error) or a parsed body whose `quizzes` field may be missing. */
  datatype QuizFetch = QuizFetchFailed | QuizFetched(quizzes: Option<seq<Quiz>>)

  /** What `loadQuizzes` returns for a cache state and a request outcome. */
  function LoadedQuizzes(cache: Option<seq<Quiz>>, response: QuizFetch): seq<Quiz> {
    if cache.Some? then cache.value
    else match response
      case QuizFetchFailed => []
      case QuizFetched(qs) => qs.GetOr([])
  }

  /** The quiz cache after `loadQuizzes`: set by the first successful load
      (an empty list is truthy in JavaScript), untouched by a failure. */
  function QuizCacheAfter(cache: Option<seq<Quiz>>, response: QuizFetch): (c: Option<seq<Quiz>>)
    ensures cache.Some? ==> c == cache
    ensures cache.None? && response.QuizFetchFailed? ==> c.None?
    ensures cache.None? && response.QuizFetched? ==> c == Some(LoadedQuizzes(cache, response))
  {
    if cache.Some? then cache
    else match response
      case QuizFetchFailed => None
      case QuizFetched(qs) => Some(qs.GetOr([]))
  }

  /** Once a load has happened, loading again with the same outcome sees
      the same list and leaves the cache as it is. */
  lemma QuizCacheSettles(cache: Option<seq<Quiz>>, response: QuizFetch)
    ensures LoadedQuizzes(QuizCacheAfter(cache, response), response) == LoadedQuizzes(cache, response)
    ensures QuizCacheAfter(QuizCacheAfter(cache, response), response) == QuizCacheAfter(cache, response)
  {
  }

  // ----------------------------------------------------------------- zodiac

  /** The keyword table `zodiacKeywords`. */
  const ZodiacKeywordTable: map<string, seq<string>> := map[
    "rat" := ["鼠", "老鼠", "子鼠"],
    "ox" := ["牛", "水牛", "丑牛"],
    "tiger" := ["虎", "老虎", "寅虎"],
    "rabbit" := ["兔", "兔子", "卯兔"],
    "dragon" := ["龙", "辰龙"],
    "snake" := ["蛇", "巳蛇"],
    "horse" := ["马", "午马"],
    "goat" := ["羊", "未羊", "山羊"],
    "monkey" := ["猴", "申猴", "猴子"],
    "rooster" := ["鸡", "酉鸡", "公鸡", "母鸡"],
    "dog" := ["狗", "戌狗", "犬"],
    "pig" := ["猪", "亥猪", "野猪"]
  ]

  /** `zodiacKeywords[sign] || []`. */
  function ZodiacKeywords(sign: string): seq<string> {
    if sign in ZodiacKeywordTable then ZodiacKeywordTable[sign] else []
  }

  /** The keyword table covers exactly the twelve signs of the selector. */
  lemma ZodiacKeywordsMatchSigns()
    ensures ZodiacKeywordTable.Keys == set i | 0 <= i < |UserModel.ZodiacSigns| :: UserModel.ZodiacSigns[i].id
  {
    var ids := set i | 0 <= i < |UserModel.ZodiacSigns| :: UserModel.ZodiacSigns[i].id;
    assert "rat" == UserModel.ZodiacSigns[0].id && "ox" == UserModel.ZodiacSigns[1].id;
    assert "tiger" == UserModel.ZodiacSigns[2].id && "rabbit" == UserModel.ZodiacSigns[3].id;
    assert "dragon" == UserModel.ZodiacSigns[4].id && "snake" == UserModel.ZodiacSigns[5].id;
    assert "horse" == UserModel.ZodiacSigns[6].id && "goat" == UserModel.ZodiacSigns[7].id;
    assert "monkey" == UserModel.ZodiacSigns[8].id && "rooster" == UserModel.ZodiacSigns[9].id;
    assert "dog" == UserModel.ZodiacSigns[10].id && "pig" == UserModel.ZodiacSigns[11].id;
  }

  /** Each sign's first keyword is the sign's own character. */
  lemma ZodiacKeywordsLeadWithSign()
    ensures forall i :: 0 <= i < |UserModel.ZodiacSigns| ==>
      var ks := ZodiacKeywords(UserModel.ZodiacSigns[i].id); ks != [] && ks[0] == UserModel.ZodiacSigns[i].name
  {
  }

  /** The text the keyword fallback searches, lower-cased. */
  function SearchText(a: Artifact): string {
    Lower(a.name + " " + a.description + " " + a.culturalContext)
  }

  /** Some keyword, lower-cased, occurs in the artifact's text. */
  predicate MatchesKeywords(a: Artifact, keywords: seq<string>) {
    exists k :: k in keywords && Contains(SearchText(a), Lower(k))
  }

  function MatchesSign(sign: string): Artifact -> bool {
    (a: Artifact) => MatchesKeywords(a, ZodiacKeywords(sign))
  }

  /** The precomputed per-sign lists as a load returns them: `None` when the
      returned object has no `zodiacArtifacts` field. */
  type ZodiacView = Option<map<string, seq<string>>>

  /** `zodiacArtifacts[sign] || []`. */
  function PrecomputedIds(m: map<string, seq<string>>, sign: string): seq<string> {
    if sign in m then m[sign] else []
  }

  /** `getArtifactsByZodiac` once the zodiac data is loaded. A missing
      `zodiacArtifacts` field makes the lookup throw, which is caught and
      gives []. A precomputed list of more than ten ids is shuffled and cut
      to ten; a shorter non-empty list is used as is; an empty one falls
      back to keyword search. */
  function ArtifactsByZodiac(view: ZodiacView, sign: string, fetched: Option<seq<Artifact>>,
                             rolls: nat -> nat): (r: seq<Artifact>)
    ensures view.None? ==> r == []
    ensures forall x :: x in r ==> exists a :: a in LoadArtifacts(fetched) && x == FixImagePath(a)
    ensures Subsequence(r, FixAll(LoadArtifacts(fetched)))
  {
    match view
    case None => []
    case Some(m) =>
      var ids := PrecomputedIds(m, sign);
      if |ids| > 10 then GetArtifactsByIds(fetched, Take(Shuffle(ids, rolls), 10))
      else if |ids| > 0 then GetArtifactsByIds(fetched, ids)
      else
        var kept := Filter(MatchesSign(sign), LoadArtifacts(fetched));
        FixAllMembers(kept);
        FilterSubsequence(MatchesSign(sign), LoadArtifacts(fetched));
        FixAllSubsequence(kept, LoadArtifacts(fetched));
        FixAll(kept)
  }

  /** With a precomputed list, every result is listed for the sign, and with
      unique catalog ids there are at most ten. */
  lemma ZodiacFromList(m: map<string, seq<string>>, sign: string, fetched: Option<seq<Artifact>>,
                       rolls: nat -> nat)
    requires PrecomputedIds(m, sign) != []
    ensures forall x :: x in ArtifactsByZodiac(Some(m), sign, fetched, rolls) ==> x.id in PrecomputedIds(m, sign)
    ensures fetched.Some? && UniqueIds(fetched.value) ==> |ArtifactsByZodiac(Some(m), sign, fetched, rolls)| <= 10
  {
    var ids := PrecomputedIds(m, sign);
    if |ids| > 10 {
      var picked := Take(Shuffle(ids, rolls), 10);
      ShufflePermutes(ids, rolls);
      assert forall x :: x in picked ==> x in ids;
      if fetched.Some? && UniqueIds(fetched.value) {
        GetArtifactsByIdsBound(fetched, picked);
      }
    } else if fetched.Some? && UniqueIds(fetched.value) {
      GetArtifactsByIdsBound(fetched, ids);
    }
  }

  /** A list of at most ten ids is shown whole: every catalog artifact it
      names is in the result. */
  lemma ZodiacShortListComplete(m: map<string, seq<string>>, sign: string,
                                fetched: Option<seq<Artifact>>, rolls: nat -> nat)
    requires 0 < |PrecomputedIds(m, sign)| <= 10
    ensures forall a :: a in LoadArtifacts(fetched) && a.id in PrecomputedIds(m, sign) ==>
      FixImagePath(a) in ArtifactsByZodiac(Some(m), sign, fetched, rolls)
  {
  }

  /** Without a precomputed list, the result is exactly the keyword matches. */
  lemma ZodiacFallback(m: map<string, seq<string>>, sign: string, fetched: Option<seq<Artifact>>,
                       rolls: nat -> nat)
    requires PrecomputedIds(m, sign) == []
    ensures forall x :: x in ArtifactsByZodiac(Some(m), sign, fetched, rolls) <==>
      exists a :: a in LoadArtifacts(fetched) && MatchesKeywords(a, ZodiacKeywords(sign)) && x == FixImagePath(a)
  {
    var kept := Filter(MatchesSign(sign), LoadArtifacts(fetched));
    FixAllMembers(kept);
  }

  /** A zodiac-file request: a failure or a parsed body whose
      `zodiacArtifacts` field may be missing. */
  datatype ZodiacFetch = ZodiacFetchFailed | ZodiacFetched(zodiacArtifacts: ZodiacView)

  /** What `loadZodiacArtifacts` returns: the cache when set; the parsed
      body as is on a first success; an empty mapping on failure. */
  function LoadedZodiac(cache: Option<map<string, seq<string>>>, response: ZodiacFetch): ZodiacView {
    if cache.Some? then cache
    else match response
      case ZodiacFetchFailed => Some(map[])
      case ZodiacFetched(v) => v
  }

  /** The zodiac cache after a load: a first success stores the mapping, or
      an empty one when the field is missing; a failure stores nothing. */
  function ZodiacCacheAfter(cache: Option<map<string, seq<string>>>, response: ZodiacFetch)
    : (c: Option<map<string, seq<string>>>)
    ensures cache.Some? ==> c == cache
    ensures cache.None? ==> (c.Some? <==> response.ZodiacFetched?)
    ensures cache.None? && response.ZodiacFetched? ==> c == Some(response.zodiacArtifacts.GetOr(map[]))
  {
    if cache.Some? then cache
    else match response
      case ZodiacFetchFailed => None
      case ZodiacFetched(v) => Some(v.GetOr(map[]))
  }

  /** After a load that found the field, or with a cache already set,
      every later load sees the same mapping whatever its own outcome. */
  lemma ZodiacCacheSettles(cache: Option<map<string, seq<string>>>, response: ZodiacFetch, later: ZodiacFetch)
    requires cache.Some? || (response.ZodiacFetched? && response.zodiacArtifacts.Some?)
    ensures LoadedZodiac(ZodiacCacheAfter(cache, response), later) == LoadedZodiac(cache, response)
    ensures ZodiacCacheAfter(ZodiacCacheAfter(cache, response), later) == ZodiacCacheAfter(cache, response)
  {
  }

  /** A load that misses the field fails the lookup once; from then on the
      cached empty mapping sends every sign to the keyword fallback. */
  lemma MissingFieldThenFallback(sign: string, fetched: Option<seq<Artifact>>, rolls: nat -> nat,
                                 later: ZodiacFetch)
    ensures ArtifactsByZodiac(LoadedZodiac(None, ZodiacFetched(None)), sign, fetched, rolls) == []
    ensures var c := ZodiacCacheAfter(None, ZodiacFetched(None));
      ArtifactsByZodiac(LoadedZodiac(c, later), sign, fetched, rolls)
        == FixAll(Filter(MatchesSign(sign), LoadArtifacts(fetched)))
  {
  }

  // ------------------------------------------------------ personalized blend

  /** `Math.ceil(count / 2)`: Dafny's `/` floors for a positive divisor. */
  function HalfUp(count: int): int {
    (count + 1) / 2
  }

  /** First part: up to half the count, rounded up, from the period, in
      catalog order; nothing without a period. */
  function PeriodPart(fetched: Option<seq<Artifact>>, period: string, count: int): (r: seq<Artifact>)
    ensures count >= 0 ==> |r| <= HalfUp(count) <= count
    ensures period == "" ==> r == []
    ensures forall x :: x in r ==> ShownPeriod(x) == period
    ensures Subsequence(r, FixAll(LoadArtifacts(fetched)))
    ensures period != "" && count >= 0 ==> var all := GetArtifactsByPeriod(fetched, period);
      |r| == (if HalfUp(count) < |all| then HalfUp(count) else |all|) && r == all[..|r|]
  {
    if period != "" then
      var all := GetArtifactsByPeriod(fetched, period);
      var r := SliceTo(all, HalfUp(count));
      SubsequencePrefix(all, FixAll(LoadArtifacts(fetched)), |r|);
      r
    else []
  }

  /** Second part: zodiac matches appended up to the count, with no check
      against what is already chosen. */
  function WithZodiacPart(items: seq<Artifact>, sign: string, zodiac: seq<Artifact>, count: int)
    : (r: seq<Artifact>)
    ensures |items| <= |r| && r[..|items|] == items
    ensures |items| <= count ==> |r| <= count
    ensures sign == "" ==> r == items
    ensures sign != "" && |items| <= count ==>
      |r| == |items| + (if count - |items| < |zodiac| then count - |items| else |zodiac|)
      && r[|items|..] == zodiac[..|r| - |items|]
  {
    if sign != "" then items + SliceTo(zodiac, count - |items|) else items
  }

  /** Not yet chosen: no chosen item has the same id. */
  function NotChosen(items: seq<Artifact>): Artifact -> bool {
    (a: Artifact) => !(exists p :: p in items && p.id == a.id)
  }

  /** Third part: when still short, a shuffle of the unchosen catalog fills
      the gap. */
  function WithRandomFill(items: seq<Artifact>, all: seq<Artifact>, count: int, rolls: nat -> nat)
    : (r: seq<Artifact>)
    ensures |items| <= |r| && r[..|items|] == items
    ensures |items| <= count ==> |r| <= count
    ensures count <= |items| ==> r == items
    ensures |items| < count ==> var pool := Filter(NotChosen(items), all);
      |r| == |items| + (if count - |items| < |pool| then count - |items| else |pool|)
      && multiset(r[|items|..]) <= multiset(pool)
  {
    if |items| < count then
      var pool := Filter(NotChosen(items), all);
      var s := Shuffle(pool, rolls);
      ShufflePermutes(pool, rolls);
      var r := items + SliceTo(s, count - |items|);
      assert r[|items|..] == SliceTo(s, count - |items|);
      assert s == SliceTo(s, count - |items|) + s[|SliceTo(s, count - |items|)|..];
      r
    else items
  }

  /** `getPersonalizedArtifacts`, given the zodiac matches `zodiac` (used
      only when `sign` is non-empty); the blend is repaired once more. */
  function Personalized(fetched: Option<seq<Artifact>>, period: string, sign: string, count: int,
                        zodiac: seq<Artifact>, rolls: nat -> nat): (r: seq<Artifact>)
    ensures count >= 0 ==> |r| <= count
    ensures |PeriodPart(fetched, period, count)| <= |r|
    ensures var first := PeriodPart(fetched, period, count); r[..|first|] == FixAll(first)
  {
    var first := PeriodPart(fetched, period, count);
    var second := WithZodiacPart(first, sign, zodiac, count);
    var third := WithRandomFill(second, LoadArtifacts(fetched), count, rolls);
    PrefixOfPrefix(first, second, third);
    FixAllPrefix(third, |first|);
    FixAll(third)
  }

  lemma FixAllPrefix(xs: seq<Artifact>, k: nat)
    requires k <= |xs|
    ensures FixAll(xs)[..k] == FixAll(xs[..k])
  {
  }

  lemma PrefixOfPrefix<T>(a: seq<T>, b: seq<T>, c: seq<T>)
    requires |a| <= |b| && b[..|a|] == a && |b| <= |c| && c[..|b|] == b
    ensures c[..|a|] == a
  {
    assert c[..|a|] == c[..|b|][..|a|];
  }

  /** The random fill only adds artifacts whose id is not already chosen. */
  lemma RandomFillExcludesChosen(items: seq<Artifact>, all: seq<Artifact>, count: int, rolls: nat -> nat)
    ensures var r := WithRandomFill(items, all, count, rolls);
      forall k :: |items| <= k < |r| ==> forall p :: p in items ==> p.id != r[k].id
  {
    if |items| < count {
      var pool := Filter(NotChosen(items), all);
      ShufflePermutes(pool, rolls);
      var r := WithRandomFill(items, all, count, rolls);
      forall k | |items| <= k < |r| ensures forall p :: p in items ==> p.id != r[k].id {
        assert r[k] in Shuffle(pool, rolls);
      }
    }
  }

  /** The zodiac part is not checked against the period part: one artifact
      can appear twice. */
  lemma PersonalizedMayRepeat()
    ensures
      var a := Artifact("7", "", "", "宋", "", "", "", "", "", "", "", None, None);
      var fetched := Some([a]);
      var zodiac := ArtifactsByZodiac(Some(map["dragon" := ["7"]]), "dragon", fetched, n => n);
      var r := Personalized(fetched, "宋", "dragon", 2, zodiac, n => n);
      |r| == 2 && r[0].id == "7" && r[1].id == "7"
  {
    var a := Artifact("7", "", "", "宋", "", "", "", "", "", "", "", None, None);
    var fetched := Some([a]);
    assert LoadArtifacts(fetched) == [a];
    assert Filter(InPeriod("宋"), [a]) == [a];
    assert Filter(HasIdIn(["7"]), [a]) == [a];
  }

  /** The first step of `getPersonalizedArtifacts`: half the count,
      rounded up, of the period's artifacts. */
  method TakePeriodPart(fetched: Option<seq<Artifact>>, period: string, count: int) returns (items: seq<Artifact>)
    ensures items == PeriodPart(fetched, period, count)
  {
    items := [];
    if period != "" {
      var byPeriod := GetArtifactsByPeriod(fetched, period);
      items := SliceTo(byPeriod, HalfUp(count));
    }
  }

  /** The last step of `getPersonalizedArtifacts`: short of `count`, the
      list is topped up with shuffled catalog artifacts not yet chosen. */
  method FillAtRandom(items: seq<Artifact>, all: seq<Artifact>, count: int, rolls: nat -> nat)
    returns (r: seq<Artifact>)
    ensures r == WithRandomFill(items, all, count, rolls)
  {
    r := items;
    if |items| < count {
      var pool := Filter(NotChosen(items), all);
      r := items + SliceTo(Shuffle(pool, rolls), count - |items|);
    }
  }

  // ------------------------------------------------------------ module state

  /** The service's module-level memo caches. */
  class CatalogStore {
    var quizzesCache: Option<seq<Quiz>>
    var zodiacCache: Option<map<string, seq<string>>>

    constructor()
      ensures quizzesCache == None && zodiacCache == None
    {
      quizzesCache := None;
      zodiacCache := None;
    }

    /** `loadQuizzes`. */
    method LoadQuizzes(response: QuizFetch) returns (qs: seq<Quiz>)
      modifies this
      ensures qs == LoadedQuizzes(old(quizzesCache), response)
      ensures quizzesCache == QuizCacheAfter(old(quizzesCache), response)
      ensures zodiacCache == old(zodiacCache)
    {
      if quizzesCache.Some? {
        return quizzesCache.value;
      }
      match response
      case QuizFetchFailed =>
        qs := [];
      case QuizFetched(field) =>
        qs := field.GetOr([]);
        quizzesCache := Some(qs);
    }

    /** `getQuizzesForArtifact`. */
    method GetQuizzesForArtifact(artifactId: string, response: QuizFetch) returns (qs: seq<Quiz>)
      modifies this
      ensures qs == QuizzesFor(LoadedQuizzes(old(quizzesCache), response), artifactId)
      ensures quizzesCache == QuizCacheAfter(old(quizzesCache), response)
      ensures zodiacCache == old(zodiacCache)
    {
      var all := LoadQuizzes(response);
      qs := QuizzesFor(all, artifactId);
    }

    /** `getRandomQuizzes`. */
    method GetRandomQuizzes(count: int, response: QuizFetch, rolls: nat -> nat) returns (qs: seq<Quiz>)
      modifies this
      ensures qs == RandomQuizzes(LoadedQuizzes(old(quizzesCache), response), count, rolls)
      ensures quizzesCache == QuizCacheAfter(old(quizzesCache), response)
      ensures zodiacCache == old(zodiacCache)
    {
      var all := LoadQuizzes(response);
      if |all| <= count {
        return all;
      }
      qs := RandomQuizzes(all, count, rolls);
    }

    /** `loadZodiacArtifacts`. */
    method LoadZodiacArtifacts(response: ZodiacFetch) returns (view: ZodiacView)
      modifies this
      ensures view == LoadedZodiac(old(zodiacCache), response)
      ensures zodiacCache == ZodiacCacheAfter(old(zodiacCache), response)
      ensures quizzesCache == old(quizzesCache)
    {
      if zodiacCache.Some? {
        return zodiacCache;
      }
      match response
      case ZodiacFetchFailed =>
        view := Some(map[]);
      case ZodiacFetched(field) =>
        zodiacCache := Some(field.GetOr(map[]));
        view := field;
    }

    /** `getArtifactsByZodiac`. */
    method GetArtifactsByZodiac(sign: string, response: ZodiacFetch, fetched: Option<seq<Artifact>>,
                                rolls: nat -> nat) returns (r: seq<Artifact>)
      modifies this
      ensures r == ArtifactsByZodiac(LoadedZodiac(old(zodiacCache), response), sign, fetched, rolls)
      ensures zodiacCache == ZodiacCacheAfter(old(zodiacCache), response)
      ensures quizzesCache == old(quizzesCache)
    {
      var view := LoadZodiacArtifacts(response);
      r := ArtifactsByZodiac(view, sign, fetched, rolls);
    }

    /** `getPersonalizedArtifacts`, building the list part by part. The
        zodiac data is loaded only when a sign is given. */
    method GetPersonalizedArtifacts(period: string, sign: string, count: int, response: ZodiacFetch,
                                    fetched: Option<seq<Artifact>>, zodiacRolls: nat -> nat,
                                    rolls: nat -> nat) returns (r: seq<Artifact>)
      modifies this
      ensures sign != "" ==> r == Personalized(fetched, period, sign, count,
        ArtifactsByZodiac(LoadedZodiac(old(zodiacCache), response), sign, fetched, zodiacRolls), rolls)
      ensures sign != "" ==> zodiacCache == ZodiacCacheAfter(old(zodiacCache), response)
      ensures sign == "" ==> (r == Personalized(fetched, period, sign, count, [], rolls)
        && zodiacCache == old(zodiacCache))
      ensures quizzesCache == old(quizzesCache)
    {
      var all := LoadArtifacts(fetched);
      var first := TakePeriodPart(fetched, period, count);
      var zodiac: seq<Artifact> := [];
      if sign != "" {
        zodiac := GetArtifactsByZodiac(sign, response, fetched, zodiacRolls);
      }
      var second := WithZodiacPart(first, sign, zodiac, count);
      var third := FillAtRandom(second, all, count, rolls);
      r := FixAll(third);
    }
  }
}
