/** The post-visit review (`app/post-visit/page.tsx`): the review quiz
    built from the favorites, answer selection, stepping, scoring and the
    summary text. The page's React state is a `ReviewSession` object. */
module PostVisitPage {
  import opened Wrappers
  import opened Seqs
  import opened Strings
  import opened Catalog
  import opened UserService
  import opened Recommendation

  // ------------------------------------------------------------ review quiz

  /** The first quiz of an artifact, if it has any. */
  function FirstQuiz(quizzes: seq<Quiz>, a: Artifact): (r: seq<Quiz>)
    ensures |r| <= 1
    ensures r == [] <==> QuizzesFor(quizzes, a.id) == []
    ensures r != [] ==> r[0] == QuizzesFor(quizzes, a.id)[0]
  {
    var qs := QuizzesFor(quizzes, a.id);
    if |qs| > 0 then [qs[0]] else []
  }

  /** One quiz per artifact that has a quiz: its first one, in artifact
      order. */
  function FirstQuizzes(artifacts: seq<Artifact>, quizzes: seq<Quiz>): (r: seq<Quiz>)
    ensures |r| <= |artifacts|
  {
    if artifacts == [] then []
    else FirstQuizzes(artifacts[..|artifacts| - 1], quizzes) + FirstQuiz(quizzes, artifacts[|artifacts| - 1])
  }

  /** Each review candidate is the first quiz of a listed artifact. */
  lemma {:induction false} FirstQuizzesFrom(artifacts: seq<Artifact>, quizzes: seq<Quiz>)
    ensures forall i :: 0 <= i < |FirstQuizzes(artifacts, quizzes)| ==>
              (FirstQuizzes(artifacts, quizzes)[i] in quizzes
               && FirstQuizzes(artifacts, quizzes)[i]
                  == QuizzesFor(quizzes, FirstQuizzes(artifacts, quizzes)[i].artifactId)[0]
               && exists k :: 0 <= k < |artifacts| && artifacts[k].id == FirstQuizzes(artifacts, quizzes)[i].artifactId)
  {
    if artifacts != [] {
      var init := artifacts[..|artifacts| - 1];
      var last := artifacts[|artifacts| - 1];
      FirstQuizzesFrom(init, quizzes);
      var head := FirstQuizzes(init, quizzes);
      var r := FirstQuizzes(artifacts, quizzes);
      assert r == head + FirstQuiz(quizzes, last);
      forall i | 0 <= i < |r|
        ensures r[i] in quizzes && r[i] == QuizzesFor(quizzes, r[i].artifactId)[0]
        ensures exists k :: 0 <= k < |artifacts| && artifacts[k].id == r[i].artifactId
      {
        if i < |head| {
          assert r[i] == head[i];
          var k :| 0 <= k < |init| && init[k].id == head[i].artifactId;
          assert artifacts[k] == init[k];
        } else {
          assert r[i] == QuizzesFor(quizzes, last.id)[0];
          assert r[i] in QuizzesFor(quizzes, last.id);
          assert artifacts[|artifacts| - 1] == last;
        }
      }
    }
  }

  /** Every listed artifact with a quiz contributes its first one. */
  lemma {:induction false} FirstQuizzesCover(artifacts: seq<Artifact>, quizzes: seq<Quiz>)
    ensures forall k :: 0 <= k < |artifacts| && QuizzesFor(quizzes, artifacts[k].id) != [] ==>
              QuizzesFor(quizzes, artifacts[k].id)[0] in FirstQuizzes(artifacts, quizzes)
  {
    forall k | 0 <= k < |artifacts| && QuizzesFor(quizzes, artifacts[k].id) != []
      ensures QuizzesFor(quizzes, artifacts[k].id)[0] in FirstQuizzes(artifacts, quizzes)
    {
      FirstQuizCovered(artifacts, quizzes, k);
    }
  }

  lemma FirstQuizCovered(artifacts: seq<Artifact>, quizzes: seq<Quiz>, k: nat)
    requires k < |artifacts| && FirstQuiz(quizzes, artifacts[k]) != []
    ensures FirstQuiz(quizzes, artifacts[k])[0] in FirstQuizzes(artifacts, quizzes)
  {
    FirstQuizzesJoined(artifacts, quizzes);
    JoinedCovers(FirstQuizOf(quizzes), artifacts, k);
  }

  /** The parts `f` gives each element, joined in order. */
  function Joined<A, B>(f: A -> seq<B>, xs: seq<A>): seq<B> {
    if xs == [] then [] else Joined(f, xs[..|xs| - 1]) + f(xs[|xs| - 1])
  }

  /** The first element of every non-empty part is in the join. */
  lemma {:induction false} JoinedCovers<A, B>(f: A -> seq<B>, xs: seq<A>, k: nat)
    requires k < |xs| && f(xs[k]) != []
    ensures f(xs[k])[0] in Joined(f, xs)
  {
    var n := |xs| - 1;
    var init := xs[..n];
    var head, tail := Joined(f, init), f(xs[n]);
    assert Joined(f, xs) == head + tail;
    if k < n {
      assert init[k] == xs[k];
      JoinedCovers(f, init, k);
    } else {
      assert tail[0] in head + tail;
    }
  }

  function FirstQuizOf(quizzes: seq<Quiz>): Artifact -> seq<Quiz> {
    a => FirstQuiz(quizzes, a)
  }

  /** The review candidates are the first quizzes joined. */
  lemma {:induction false} FirstQuizzesJoined(artifacts: seq<Artifact>, quizzes: seq<Quiz>)
    ensures FirstQuizzes(artifacts, quizzes) == Joined(FirstQuizOf(quizzes), artifacts)
  {
    if artifacts != [] {
      FirstQuizzesJoined(artifacts[..|artifacts| - 1], quizzes);
    }
  }

  /** With distinct artifact ids, no two review quizzes share an artifact. */
  lemma {:induction false} FirstQuizzesOnePerArtifact(artifacts: seq<Artifact>, quizzes: seq<Quiz>)
    requires UniqueIds(artifacts)
    ensures forall i, j :: 0 <= i < j < |FirstQuizzes(artifacts, quizzes)| ==>
              FirstQuizzes(artifacts, quizzes)[i].artifactId != FirstQuizzes(artifacts, quizzes)[j].artifactId
  {
    if artifacts != [] {
      var init := artifacts[..|artifacts| - 1];
      var last := artifacts[|artifacts| - 1];
      FirstQuizzesOnePerArtifact(init, quizzes);
      FirstQuizzesFrom(init, quizzes);
      var head := FirstQuizzes(init, quizzes);
      var r := FirstQuizzes(artifacts, quizzes);
      assert r == head + FirstQuiz(quizzes, last);
      forall i | 0 <= i < |head| ensures head[i].artifactId != last.id {
        var k :| 0 <= k < |init| && init[k].id == head[i].artifactId;
        assert init[k] == artifacts[k];
      }
      forall i, j | 0 <= i < j < |r| ensures r[i].artifactId != r[j].artifactId {
        if j < |head| {
          assert r[i] == head[i] && r[j] == head[j];
        } else {
          assert r[j] == QuizzesFor(quizzes, last.id)[0];
          assert r[j] in QuizzesFor(quizzes, last.id);
          assert r[i] == head[i];
        }
      }
    }
  }

  /** The review quiz: the first five of `FirstQuizzes`. */
  function ReviewQuiz(artifacts: seq<Artifact>, quizzes: seq<Quiz>): seq<Quiz> {
    Take(FirstQuizzes(artifacts, quizzes), 5)
  }

  /** At most five quizzes, each the first quiz of a listed artifact, and
      for distinct artifacts never two for the same one. */
  lemma ReviewQuizShape(artifacts: seq<Artifact>, quizzes: seq<Quiz>)
    requires UniqueIds(artifacts)
    ensures |ReviewQuiz(artifacts, quizzes)| <= 5
    ensures |FirstQuizzes(artifacts, quizzes)| <= 5 ==> ReviewQuiz(artifacts, quizzes) == FirstQuizzes(artifacts, quizzes)
    ensures forall q :: q in ReviewQuiz(artifacts, quizzes) ==>
              q in quizzes && q == QuizzesFor(quizzes, q.artifactId)[0]
    ensures forall i, j :: 0 <= i < j < |ReviewQuiz(artifacts, quizzes)| ==>
              ReviewQuiz(artifacts, quizzes)[i].artifactId != ReviewQuiz(artifacts, quizzes)[j].artifactId
  {
    FirstQuizzesOnePerArtifact(artifacts, quizzes);
    FirstQuizzesFrom(artifacts, quizzes);
    var all := FirstQuizzes(artifacts, quizzes);
    var r := ReviewQuiz(artifacts, quizzes);
    forall q | q in r ensures q in quizzes && q == QuizzesFor(quizzes, q.artifactId)[0] {
      var i :| 0 <= i < |r| && r[i] == q;
      assert all[i] == q;
    }
    forall i, j | 0 <= i < j < |r| ensures r[i].artifactId != r[j].artifactId {
      assert r[i] == all[i] && r[j] == all[j];
    }
  }

  /** The favorites fetched for the review have distinct ids whenever the
      catalog has. */
  lemma ByIdsUniqueIds(fetched: Option<seq<Artifact>>, ids: seq<string>)
    requires fetched.Some? ==> UniqueIds(fetched.value)
    ensures UniqueIds(GetArtifactsByIds(fetched, ids))
  {
    LoadArtifactsUniqueIds(fetched);
    FilterUniqueIds(HasIdIn(ids), LoadArtifacts(fetched));
  }

  // ---------------------------------------------------------------- scoring

  /** A question counts when its recorded answer is the correct one; an
      unanswered question never counts. */
  predicate Correct(q: Quiz, answers: map<string, string>) {
    q.id in answers && answers[q.id] == q.correctAnswer
  }

  /** The number of correctly answered questions. */
  function CountCorrect(questions: seq<Quiz>, answers: map<string, string>): (n: nat)
    ensures n <= |questions|
    ensures n == |questions| <==> forall i :: 0 <= i < |questions| ==> Correct(questions[i], answers)
    ensures n == 0 <==> forall i :: 0 <= i < |questions| ==> !Correct(questions[i], answers)
  {
    if questions == [] then 0
    else
      var init := questions[..|questions| - 1];
      assert forall i :: 0 <= i < |init| ==> init[i] == questions[i];
      CountCorrect(init, answers) + if Correct(questions[|questions| - 1], answers) then 1 else 0
  }

  /** `getCorrectAnswersCount`. */
  method CorrectAnswersCount(questions: seq<Quiz>, answers: map<string, string>) returns (count: nat)
    ensures count == CountCorrect(questions, answers)
  {
    count := 0;
    var i := 0;
    while i < |questions|
      invariant 0 <= i <= |questions|
      invariant count == CountCorrect(questions[..i], answers)
    {
      assert questions[..i + 1][..i] == questions[..i];
      if Correct(questions[i], answers) {
        count := count + 1;
      }
      i := i + 1;
    }
    assert questions[..i] == questions;
  }

  // ---------------------------------------------------------------- summary

  datatype Tier = Top | Middle | Base

  /** The closing message: all correct, at least half correct, or neither. */
  function TierOf(correct: int, total: int): (t: Tier)
    ensures t == Top <==> correct == total
    ensures t == Middle <==> correct != total && 2 * correct >= total
  {
    if correct == total then Top else if 2 * correct >= total then Middle else Base
  }

  function Rank(t: Tier): nat {
    match t
    case Base => 0
    case Middle => 1
    case Top => 2
  }

  /** With the question count fixed, more correct answers never earn a
      lower tier. */
  lemma TierMonotone(c1: int, c2: int, total: int)
    requires c1 <= c2 <= total
    ensures Rank(TierOf(c1, total)) <= Rank(TierOf(c2, total))
  {
  }

  function TierMessage(t: Tier): (r: string)
    ensures |r| > 2 && r[..2] == "\n\n"
  {
    match t
    case Top => "\n\n" + "太棒了！您对参观的藏品有了深入的了解。欢迎下次再来探索更多苏州文化的魅力！"
    case Middle => "\n\n" + "不错的表现！您已经掌握了一些重要知识，期待您下次访问能发现更多有趣的细节。"
    case Base => "\n\n" + "感谢您的参观！希望这次体验能激发您对苏州文化的兴趣，欢迎再次光临，探索更多精彩内容。"
  }

  function SummaryHeader(favoriteCount: nat): string {
    "您今天参观了苏州博物馆，收藏了" + NatToString(favoriteCount) + "件藏品："
  }

  /** One artifact's paragraph: name, period, and the first 50 characters
      of the description followed by "..." whatever its length. */
  function SummaryEntry(a: Artifact): (r: string)
    ensures |r| <= |"\n\n" + a.name + "（" + a.period + "）："| + 53
    ensures |r| >= 3 && r[|r| - 3..] == "..."
  {
    "\n\n" + a.name + "（" + a.period + "）：" + Take(a.description, 50) + "..."
  }

  /** An entry opens with the name and the period, and what comes before
      the final "..." is the start of the description, at most fifty
      characters of it. */
  lemma SummaryEntryParts(a: Artifact)
    ensures var r, head := SummaryEntry(a), "\n\n" + a.name + "（" + a.period + "）：";
      |head| + 3 <= |r| && r[..|head|] == head
      && |r| - 3 - |head| <= 50 && StartsWith(a.description, r[|head|..|r| - 3])
  {
    var head := "\n\n" + a.name + "（" + a.period + "）：";
    var r := SummaryEntry(a);
    assert r == head + Take(a.description, 50) + "...";
    assert r[|head|..|r| - 3] == Take(a.description, 50);
  }

  function SummaryEntries(favs: seq<Artifact>): string {
    if favs == [] then "" else SummaryEntries(favs[..|favs| - 1]) + SummaryEntry(favs[|favs| - 1])
  }

  function ScoreLine(correct: nat, total: nat): string {
    "\n\n在知识测验中，您回答了" + NatToString(correct) + "/" + NatToString(total) + "个问题正确。"
  }

  /** The summary text `generateSummary` builds: it opens with the favorite
      count and closes with the score line and the tier message. */
  function SummaryText(favs: seq<Artifact>, correct: nat, total: nat): (t: string)
    ensures StartsWith(t, SummaryHeader(|favs|))
    ensures Contains(t, ScoreLine(correct, total))
    ensures var m := TierMessage(TierOf(correct, total));
            |m| <= |t| && t[|t| - |m|..] == m
  {
    var h := SummaryHeader(|favs|);
    var e := SummaryEntries(favs);
    var s := ScoreLine(correct, total);
    var m := TierMessage(TierOf(correct, total));
    var t := h + e + s + m;
    assert t[..|h|] == h;
    assert ContainsAt(t, s, |h| + |e|) by {
      assert t[|h| + |e|..|h| + |e| + |s|] == s;
    }
    assert t[|t| - |m|..] == m;
    t
  }

  /** `generateSummary`'s text-building loop. */
  method BuildSummary(favs: seq<Artifact>, correct: nat, total: nat) returns (summary: string)
    ensures summary == SummaryText(favs, correct, total)
  {
    summary := SummaryHeader(|favs|);
    var i := 0;
    while i < |favs|
      invariant 0 <= i <= |favs|
      invariant summary == SummaryHeader(|favs|) + SummaryEntries(favs[..i])
    {
      summary := AppendEntry(summary, favs, i);
      i := i + 1;
    }
    assert favs[..i] == favs;
    summary := summary + ScoreLine(correct, total);
    summary := summary + TierMessage(TierOf(correct, total));
  }

  /** One pass of the text-building loop: the entry of the next favorite. */
  method AppendEntry(summary0: string, favs: seq<Artifact>, i: nat) returns (summary: string)
    requires i < |favs| && summary0 == SummaryHeader(|favs|) + SummaryEntries(favs[..i])
    ensures summary == SummaryHeader(|favs|) + SummaryEntries(favs[..i + 1])
  {
    var head, entries := SummaryHeader(|favs|), SummaryEntries(favs[..i]);
    EntriesSnoc(favs, i);
    summary := summary0 + SummaryEntry(favs[i]);
    assert summary == head + (entries + SummaryEntry(favs[i]));
  }

  lemma EntriesSnoc(favs: seq<Artifact>, i: nat)
    requires i < |favs|
    ensures SummaryEntries(favs[..i + 1]) == SummaryEntries(favs[..i]) + SummaryEntry(favs[i])
  {
    assert favs[..i + 1][..i] == favs[..i];
  }

  // ---------------------------------------------------------------- stepping

  /** `getCurrentQuestion`: the question at `step`, none once past the end. */
  function CurrentQuestion(questions: seq<Quiz>, step: nat): (r: Option<Quiz>)
    ensures r.None? <==> step >= |questions|
    ensures r.Some? ==> r.value in questions
  {
    if step < |questions| then Some(questions[step]) else None
  }

  /** `getCurrentQuestionArtifact`: the first favorite the current question
      is about, none past the end or when no favorite matches. */
  function CurrentQuestionArtifact(questions: seq<Quiz>, step: nat, favs: seq<Artifact>): (r: Option<Artifact>)
    ensures r.None? <==> step >= |questions| || forall a :: a in favs ==> a.id != questions[step].artifactId
    ensures r.Some? ==> step < |questions| && r.value in favs && r.value.id == questions[step].artifactId
    ensures r.Some? ==> exists k :: 0 <= k < |favs| && favs[k] == r.value &&
                                     forall j :: 0 <= j < k ==> favs[j].id != questions[step].artifactId
  {
    match CurrentQuestion(questions, step)
    case None => None
    case Some(q) =>
      match FindArtifact(favs, q.artifactId)
      case None => None
      case Some(i) => Some(favs[i])
  }

  lemma FirstQuizzesSnoc(artifacts: seq<Artifact>, i: nat, quizzes: seq<Quiz>)
    requires i < |artifacts|
    ensures FirstQuizzes(artifacts[..i + 1], quizzes) == FirstQuizzes(artifacts[..i], quizzes) + FirstQuiz(quizzes, artifacts[i])
  {
    assert artifacts[..i + 1][..i] == artifacts[..i];
  }

  /** One pass of the loop of `fetchData`: the artifact's quizzes are
      requested and the first one, if any, is kept. Once the quiz list is
      settled, the request leaves the list the page sees as it was. */
  method CollectNext(catalog: CatalogStore, artifacts: seq<Artifact>, i: nat, response: QuizFetch,
                     ghost all: seq<Quiz>, quizzes0: seq<Quiz>)
    returns (quizzes: seq<Quiz>)
    requires i < |artifacts| && LoadedQuizzes(catalog.quizzesCache, response) == all
    requires quizzes0 == FirstQuizzes(artifacts[..i], all)
    modifies catalog
    ensures quizzes == FirstQuizzes(artifacts[..i + 1], all)
    ensures LoadedQuizzes(catalog.quizzesCache, response) == all
    ensures catalog.zodiacCache == old(catalog.zodiacCache)
  {
    QuizCacheSettles(catalog.quizzesCache, response);
    var artifactQuizzes := catalog.GetQuizzesForArtifact(artifacts[i].id, response);
    FirstQuizzesSnoc(artifacts, i, all);
    quizzes := quizzes0;
    if |artifactQuizzes| > 0 {
      quizzes := quizzes + [artifactQuizzes[0]];
    }
  }

  /** The loop of `fetchData`: one `getQuizzesForArtifact` request per
      artifact, keeping the first quiz of each. One quiz-file outcome
      serves every request; after the first, the cache answers them. */
  method CollectFirstQuizzes(catalog: CatalogStore, artifacts: seq<Artifact>, response: QuizFetch)
    returns (quizzes: seq<Quiz>)
    modifies catalog
    ensures quizzes == FirstQuizzes(artifacts, LoadedQuizzes(old(catalog.quizzesCache), response))
    ensures LoadedQuizzes(catalog.quizzesCache, response) == LoadedQuizzes(old(catalog.quizzesCache), response)
    ensures catalog.zodiacCache == old(catalog.zodiacCache)
  {
    ghost var all := LoadedQuizzes(catalog.quizzesCache, response);
    quizzes := [];
    var i := 0;
    while i < |artifacts|
      invariant 0 <= i <= |artifacts|
      invariant LoadedQuizzes(catalog.quizzesCache, response) == all
      invariant quizzes == FirstQuizzes(artifacts[..i], all)
      invariant catalog.zodiacCache == old(catalog.zodiacCache)
    {
      quizzes := CollectNext(catalog, artifacts, i, response, all, quizzes);
      i := i + 1;
    }
    assert artifacts[..i] == artifacts;
  }

  /** The favorite artifacts in catalog order and their review quiz. */
  method LoadReview(catalog: CatalogStore, fetched: Option<seq<Artifact>>, ids: seq<string>, response: QuizFetch)
    returns (artifacts: seq<Artifact>, quiz: seq<Quiz>)
    modifies catalog
    ensures artifacts == GetArtifactsByIds(fetched, ids)
    ensures quiz == ReviewQuiz(artifacts, LoadedQuizzes(old(catalog.quizzesCache), response))
    ensures catalog.zodiacCache == old(catalog.zodiacCache)
  {
    artifacts := GetArtifactsByIds(fetched, ids);
    var quizzes := CollectFirstQuizzes(catalog, artifacts, response);
    quiz := Take(quizzes, 5);
  }

  /** The page state of the review. */
  class ReviewSession {
    var favorites: seq<string>
    var favoriteArtifacts: seq<Artifact>
    var quizQuestions: seq<Quiz>
    var currentQuizStep: nat
    var selectedAnswers: map<string, string>
    var showResult: bool
    var summaryText: string

    constructor()
      ensures favorites == [] && favoriteArtifacts == [] && quizQuestions == []
      ensures currentQuizStep == 0 && selectedAnswers == map[] && !showResult && summaryText == ""
    {
      favorites := [];
      favoriteArtifacts := [];
      quizQuestions := [];
      currentQuizStep := 0;
      selectedAnswers := map[];
      showResult := false;
      summaryText := "";
    }

    /** The rest of `fetchData` once the favorite ids are read: with some
        favorites, their artifacts and the review quiz. */
    method LoadFavoriteReview(catalog: CatalogStore, fetched: Option<seq<Artifact>>, response: QuizFetch)
      modifies this, catalog
      ensures |favorites| > 0 ==>
                (favoriteArtifacts == GetArtifactsByIds(fetched, favorites)
                 && quizQuestions == ReviewQuiz(favoriteArtifacts, LoadedQuizzes(old(catalog.quizzesCache), response)))
      ensures |favorites| == 0 ==> favoriteArtifacts == old(favoriteArtifacts) && quizQuestions == old(quizQuestions)
      ensures (favorites, currentQuizStep, selectedAnswers, showResult, summaryText)
              == old((favorites, currentQuizStep, selectedAnswers, showResult, summaryText))
      ensures catalog.zodiacCache == old(catalog.zodiacCache)
    {
      assert this as object != catalog;
      var ids := favorites;
      if |ids| > 0 {
        var artifacts, quiz := LoadReview(catalog, fetched, ids, response);
        favoriteArtifacts, quizQuestions := artifacts, quiz;
      }
    }

    /** `fetchData`: the favorite ids, their artifacts in catalog order, and
        the first quiz of each, at most five. */
    method FetchData(store: BrowserStore, catalog: CatalogStore, fetched: Option<seq<Artifact>>,
                     response: QuizFetch)
      modifies this, catalog
      ensures favorites == old(FavoriteArtifactIds(store))
      ensures |favorites| > 0 ==>
                (favoriteArtifacts == GetArtifactsByIds(fetched, favorites)
                 && quizQuestions == ReviewQuiz(favoriteArtifacts, LoadedQuizzes(old(catalog.quizzesCache), response)))
      ensures |favorites| == 0 ==> favoriteArtifacts == old(favoriteArtifacts) && quizQuestions == old(quizQuestions)
      ensures (currentQuizStep, selectedAnswers, showResult, summaryText)
              == old((currentQuizStep, selectedAnswers, showResult, summaryText))
      ensures catalog.zodiacCache == old(catalog.zodiacCache)
    {
      assert this as object != catalog;
      favorites := FavoriteArtifactIds(store);
      LoadFavoriteReview(catalog, fetched, response);
    }

    /** `handleAnswerSelect`: records one answer, keeping every other. */
    method HandleAnswerSelect(questionId: string, answerId: string)
      modifies this
      ensures selectedAnswers == old(selectedAnswers)[questionId := answerId]
      ensures forall k :: k in old(selectedAnswers) && k != questionId ==> k in selectedAnswers && selectedAnswers[k] == old(selectedAnswers)[k]
      ensures favorites == old(favorites) && favoriteArtifacts == old(favoriteArtifacts)
      ensures quizQuestions == old(quizQuestions) && currentQuizStep == old(currentQuizStep)
      ensures showResult == old(showResult) && summaryText == old(summaryText)
    {
      selectedAnswers := selectedAnswers[questionId := answerId];
    }

    /** `generateSummary`. */
    method GenerateSummary()
      modifies this
      ensures summaryText == SummaryText(favoriteArtifacts,
                CountCorrect(quizQuestions, selectedAnswers), |quizQuestions|)
      ensures favorites == old(favorites) && favoriteArtifacts == old(favoriteArtifacts)
      ensures quizQuestions == old(quizQuestions) && currentQuizStep == old(currentQuizStep)
      ensures selectedAnswers == old(selectedAnswers) && showResult == old(showResult)
    {
      var correctCount := CorrectAnswersCount(quizQuestions, selectedAnswers);
      summaryText := BuildSummary(favoriteArtifacts, correctCount, |quizQuestions|);
    }

    /** `nextQuestion`: one step forward, or at the last question (or with
        no questions) the result and its summary. */
    method NextQuestion()
      modifies this
      ensures old(currentQuizStep) + 1 < |quizQuestions| ==>
                currentQuizStep == old(currentQuizStep) + 1 && showResult == old(showResult)
                && summaryText == old(summaryText)
      ensures old(currentQuizStep) + 1 >= |quizQuestions| ==>
                currentQuizStep == old(currentQuizStep) && showResult
                && summaryText == SummaryText(favoriteArtifacts,
                     CountCorrect(quizQuestions, selectedAnswers), |quizQuestions|)
      ensures favorites == old(favorites) && favoriteArtifacts == old(favoriteArtifacts)
      ensures quizQuestions == old(quizQuestions) && selectedAnswers == old(selectedAnswers)
    {
      if currentQuizStep + 1 < |quizQuestions| {
        currentQuizStep := currentQuizStep + 1;
      } else {
        showResult := true;
        GenerateSummary();
      }
    }

    /** `restartQuiz`: back to the first question with no answers. */
    method RestartQuiz()
      modifies this
      ensures currentQuizStep == 0 && selectedAnswers == map[] && !showResult
      ensures favorites == old(favorites) && favoriteArtifacts == old(favoriteArtifacts)
      ensures quizQuestions == old(quizQuestions) && summaryText == old(summaryText)
    {
      currentQuizStep := 0;
      selectedAnswers := map[];
      showResult := false;
    }
  }

  /** After a restart no question counts as correct. */
  lemma RestartScoresZero(questions: seq<Quiz>)
    ensures CountCorrect(questions, map[]) == 0
  {
  }
}
