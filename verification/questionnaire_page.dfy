/** The pre-visit interest questionnaire (`app/ai-guide/pre-visit/page.tsx`):
    recording single and multiple choices, moving between questions and the
    interest tally. Tallies are kept in half points so that the ½ bonuses of
    question q2 stay integers. */
module QuestionnairePage {
  import opened Wrappers
  import opened Seqs
  import Recommendation

  datatype QuestionKind = Single | Multiple | Scale

  /** A choice: its id within the question and the interest it signals. */
  datatype Choice = Choice(id: string, value: string)

  datatype Question = Question(id: string, choices: seq<Choice>, kind: QuestionKind)

  /** The choices made for one question. */
  datatype UserAnswer = UserAnswer(questionId: string, choices: seq<string>)

  const Questions: seq<Question> := [
    Question("q1", [Choice("c1", "ceramics"), Choice("c2", "paintings"), Choice("c3", "furniture"),
                    Choice("c4", "embroidery")], Multiple),
    Question("q2", [Choice("c1", "history"), Choice("c2", "art"), Choice("c3", "social"),
                    Choice("c4", "leisure")], Single),
    Question("q3", [Choice("c1", "5"), Choice("c2", "4"), Choice("c3", "3"), Choice("c4", "2"),
                    Choice("c5", "1")], Single),
    Question("q4", [Choice("c1", "ancient"), Choice("c2", "medieval"), Choice("c3", "tang-song"),
                    Choice("c4", "yuan-ming-qing"), Choice("c5", "modern")], Multiple),
    Question("q5", [Choice("c1", "systematic"), Choice("c2", "highlights"), Choice("c3", "explore"),
                    Choice("c4", "guided")], Single)
  ]

  // ---------------------------------------------------------------- answers

  /** Index of the first answer to question `qid`. */
  function FindAnswer(answers: seq<UserAnswer>, qid: string): (r: Option<nat>)
    ensures r.Some? ==> (r.value < |answers| && answers[r.value].questionId == qid
      && forall j :: 0 <= j < r.value ==> answers[j].questionId != qid)
    ensures r.None? ==> forall j :: 0 <= j < |answers| ==> answers[j].questionId != qid
  {
    if answers == [] then None
    else if answers[0].questionId == qid then Some(0)
    else match FindAnswer(answers[1..], qid)
      case None => None
      case Some(k) => Some(k + 1)
  }

  function NotFor(qid: string): UserAnswer -> bool {
    (a: UserAnswer) => a.questionId != qid
  }

  /** Every answer to `qid` gets the choice list `choices`. */
  function SetChoices(answers: seq<UserAnswer>, qid: string, choices: seq<string>): (r: seq<UserAnswer>)
    ensures |r| == |answers|
    ensures forall i :: 0 <= i < |answers| ==>
              r[i] == if answers[i].questionId == qid then answers[i].(choices := choices) else answers[i]
  {
    if answers == [] then []
    else [if answers[0].questionId == qid then answers[0].(choices := choices) else answers[0]]
         + SetChoices(answers[1..], qid, choices)
  }

  /** `handleChoice` on question `q`: a single-choice question replaces its
      answer, which moves to the end; otherwise the choice is toggled inside
      the existing answer, which keeps its place, or a new answer is
      appended. */
  function HandleChoice(answers: seq<UserAnswer>, q: Question, choiceId: string): (r: seq<UserAnswer>)
    ensures q.kind == Single ==>
              r == Filter(NotFor(q.id), answers) + [UserAnswer(q.id, [choiceId])]
    ensures q.kind != Single && FindAnswer(answers, q.id).None? ==>
              r == answers + [UserAnswer(q.id, [choiceId])]
    ensures q.kind != Single && FindAnswer(answers, q.id).Some? ==>
              var prior := answers[FindAnswer(answers, q.id).value].choices;
              |r| == |answers|
              && (forall i :: 0 <= i < |answers| && answers[i].questionId != q.id ==> r[i] == answers[i])
              && (forall i :: 0 <= i < |answers| && answers[i].questionId == q.id ==>
                    r[i] == answers[i].(choices := Recommendation.Toggle(prior, choiceId)))
  {
    if q.kind == Single then
      Filter(NotFor(q.id), answers) + [UserAnswer(q.id, [choiceId])]
    else match FindAnswer(answers, q.id)
      case None => answers + [UserAnswer(q.id, [choiceId])]
      case Some(k) =>
        var existing := answers[k].choices;
        var updated := if choiceId in existing then Filter(Recommendation.Other(choiceId), existing)
                       else existing + [choiceId];
        SetChoices(answers, q.id, updated)
  }

  /** No question has two answers. */
  predicate OneAnswerEach(answers: seq<UserAnswer>) {
    forall i, j :: 0 <= i < j < |answers| ==> answers[i].questionId != answers[j].questionId
  }

  /** Recording a choice keeps at most one answer per question, and leaves
      the question answered. */
  lemma HandleChoiceKeepsOneAnswerEach(answers: seq<UserAnswer>, q: Question, choiceId: string)
    requires OneAnswerEach(answers)
    ensures OneAnswerEach(HandleChoice(answers, q, choiceId))
    ensures FindAnswer(HandleChoice(answers, q, choiceId), q.id).Some?
  {
    var r := HandleChoice(answers, q, choiceId);
    if q.kind == Single {
      var kept := Filter(NotFor(q.id), answers);
      assert r[|r| - 1].questionId == q.id;
      forall i, j | 0 <= i < j < |r| ensures r[i].questionId != r[j].questionId {
        if j < |kept| {
          FilterKeepsOneAnswerEach(answers, q.id);
          assert r[i] == kept[i] && r[j] == kept[j];
        } else {
          assert r[i] == kept[i];
          assert NotFor(q.id)(kept[i]);
        }
      }
    } else if FindAnswer(answers, q.id).None? {
      assert r[|r| - 1].questionId == q.id;
    } else {
      var k := FindAnswer(answers, q.id).value;
      assert r[k].questionId == q.id;
    }
  }

  /** A filter keeps distinct question ids distinct. */
  lemma {:induction false} FilterKeepsOneAnswerEach(answers: seq<UserAnswer>, qid: string)
    requires OneAnswerEach(answers)
    ensures OneAnswerEach(Filter(NotFor(qid), answers))
  {
    if answers != [] {
      FilterKeepsOneAnswerEach(answers[1..], qid);
      var tail := Filter(NotFor(qid), answers[1..]);
      if NotFor(qid)(answers[0]) {
        var r := Filter(NotFor(qid), answers);
        assert r == [answers[0]] + tail;
        forall j | 0 < j < |r| ensures r[0].questionId != r[j].questionId {
          assert r[j] == tail[j - 1];
          assert r[j] in answers[1..];
          var k :| 0 <= k < |answers[1..]| && answers[1..][k] == r[j];
          assert answers[k + 1] == r[j];
        }
      }
    }
  }

  /** Choosing the same option twice on a multiple-choice question whose
      single answer does not hold it restores the answers. */
  lemma ChooseTwiceRestores(answers: seq<UserAnswer>, q: Question, choiceId: string)
    requires q.kind == Multiple
    requires OneAnswerEach(answers)
    requires FindAnswer(answers, q.id).Some?
    requires choiceId !in answers[FindAnswer(answers, q.id).value].choices
    ensures HandleChoice(HandleChoice(answers, q, choiceId), q, choiceId) == answers
  {
    var k := FindAnswer(answers, q.id).value;
    var existing := answers[k].choices;
    var once := HandleChoice(answers, q, choiceId);
    assert once[k] == answers[k].(choices := Recommendation.Toggle(existing, choiceId));
    assert FindAnswer(once, q.id) == Some(k) by {
      forall j | 0 <= j < k ensures once[j].questionId != q.id {
        assert once[j] == answers[j];
      }
    }
    Recommendation.ToggleTwice(existing, choiceId);
    var twice := HandleChoice(once, q, choiceId);
    forall i | 0 <= i < |answers| ensures twice[i] == answers[i] {
      if i != k {
        assert answers[i].questionId != q.id;
        assert once[i] == answers[i];
      }
    }
  }

  // ------------------------------------------------------------- the tally

  /** The eleven interests tallied, each starting at zero. */
  const InitialPrefs: map<string, int> := map[
    "ceramics" := 0, "paintings" := 0, "furniture" := 0, "embroidery" := 0, "history" := 0,
    "art" := 0, "ancient" := 0, "medieval" := 0, "tang-song" := 0, "yuan-ming-qing" := 0, "modern" := 0]

  function FindQuestion(questions: seq<Question>, id: string): (r: Option<Question>)
    ensures r.Some? ==> r.value in questions && r.value.id == id
    ensures r.None? ==> forall q :: q in questions ==> q.id != id
  {
    if questions == [] then None
    else if questions[0].id == id then Some(questions[0])
    else FindQuestion(questions[1..], id)
  }

  function FindChoice(choices: seq<Choice>, id: string): (r: Option<Choice>)
    ensures r.Some? ==> r.value in choices && r.value.id == id
    ensures r.None? ==> forall c :: c in choices ==> c.id != id
  {
    if choices == [] then None
    else if choices[0].id == id then Some(choices[0])
    else FindChoice(choices[1..], id)
  }

  /** Adds `n` half points to an interest that is tallied. */
  function Bump(prefs: map<string, int>, key: string, n: int): (r: map<string, int>)
    ensures r.Keys == prefs.Keys
    ensures forall k :: k in prefs ==> r[k] == prefs[k] + (if k == key then n else 0)
  {
    if key in prefs then prefs[key := prefs[key] + n] else prefs
  }

  /** What one choice of question `q` is worth to interest `key`, in half
      points: a whole point to its own value, and for q2 a half point to
      paintings and ceramics ("art") or to ancient and tang-song
      ("history"). An unknown choice is worth nothing. */
  function Gain(q: Question, choiceId: string, key: string): nat {
    match FindChoice(q.choices, choiceId)
    case None => 0
    case Some(c) =>
      (if c.value == key then 2 else 0)
      + (if q.id == "q2" && c.value == "art" && (key == "paintings" || key == "ceramics") then 1 else 0)
      + (if q.id == "q2" && c.value == "history" && (key == "ancient" || key == "tang-song") then 1 else 0)
  }

  /** The updates of one selected choice, in source order. */
  function AddChoice(prefs: map<string, int>, q: Question, choiceId: string): (r: map<string, int>)
    ensures r.Keys == prefs.Keys
    ensures forall k :: k in prefs ==> r[k] == prefs[k] + Gain(q, choiceId, k)
  {
    match FindChoice(q.choices, choiceId)
    case None => prefs
    case Some(c) =>
      var p1 := Bump(prefs, c.value, 2);
      var p2 := if q.id == "q2" && c.value == "art" then Bump(Bump(p1, "paintings", 1), "ceramics", 1) else p1;
      if q.id == "q2" && c.value == "history" then Bump(Bump(p2, "ancient", 1), "tang-song", 1) else p2
  }

  function AddChoices(prefs: map<string, int>, q: Question, choices: seq<string>): (r: map<string, int>)
    ensures r.Keys == prefs.Keys
    ensures forall k :: k in prefs ==> r[k] >= prefs[k]
  {
    if choices == [] then prefs
    else AddChoice(AddChoices(prefs, q, choices[..|choices| - 1]), q, choices[|choices| - 1])
  }

  /** One answer's contribution; an answer to an unknown question adds
      nothing. */
  function AddAnswer(prefs: map<string, int>, a: UserAnswer): (r: map<string, int>)
    ensures r.Keys == prefs.Keys
    ensures forall k :: k in prefs ==> r[k] >= prefs[k]
    ensures FindQuestion(Questions, a.questionId).None? ==> r == prefs
  {
    match FindQuestion(Questions, a.questionId)
    case None => prefs
    case Some(q) => AddChoices(prefs, q, a.choices)
  }

  function Tally(prefs: map<string, int>, answers: seq<UserAnswer>): (r: map<string, int>)
    ensures r.Keys == prefs.Keys
    ensures forall k :: k in prefs ==> r[k] >= prefs[k]
  {
    if answers == [] then prefs
    else AddAnswer(Tally(prefs, answers[..|answers| - 1]), answers[|answers| - 1])
  }

  /** `analyzePreferences`: the loop over the answers. The result tallies
      exactly the eleven interests, none negative. */
  method AnalyzePreferences(answers: seq<UserAnswer>) returns (prefs: map<string, int>)
    ensures prefs == Tally(InitialPrefs, answers)
    ensures prefs.Keys == InitialPrefs.Keys
    ensures forall k :: k in prefs ==> prefs[k] >= 0
  {
    prefs := InitialPrefs;
    var i := 0;
    while i < |answers|
      invariant 0 <= i <= |answers|
      invariant prefs == Tally(InitialPrefs, answers[..i])
    {
      var answer := answers[i];
      assert answers[..i + 1][..i] == answers[..i];
      var question := FindQuestion(Questions, answer.questionId);
      if question.Some? {
        prefs := AddAnswerChoices(prefs, question.value, answer.choices);
      }
      i := i + 1;
    }
    assert answers[..i] == answers;
  }

  /** The inner loop over one answer's choices. */
  method AddAnswerChoices(prefs0: map<string, int>, q: Question, choices: seq<string>)
    returns (prefs: map<string, int>)
    ensures prefs == AddChoices(prefs0, q, choices)
  {
    prefs := prefs0;
    var j := 0;
    while j < |choices|
      invariant 0 <= j <= |choices|
      invariant prefs == AddChoices(prefs0, q, choices[..j])
    {
      assert choices[..j + 1][..j] == choices[..j];
      prefs := ApplyChoice(prefs, q, choices[j]);
      j := j + 1;
    }
    assert choices[..j] == choices;
  }

  /** The body of the inner loop: the updates of one selected choice. */
  method ApplyChoice(prefs0: map<string, int>, q: Question, choiceId: string) returns (prefs: map<string, int>)
    ensures prefs == AddChoice(prefs0, q, choiceId)
  {
    prefs := prefs0;
    var choice := FindChoice(q.choices, choiceId);
    if choice.Some? {
      var c := choice.value;
      if c.value in prefs {
        prefs := prefs[c.value := prefs[c.value] + 2];
      }
      assert prefs == Bump(prefs0, c.value, 2);
      if q.id == "q2" && c.value == "art" {
        prefs := Bump(Bump(prefs, "paintings", 1), "ceramics", 1);
      }
      if q.id == "q2" && c.value == "history" {
        prefs := Bump(Bump(prefs, "ancient", 1), "tang-song", 1);
      }
    }
  }

  /** Choosing "art" for q2 gives a point to art and half a point each to
      paintings and ceramics, and nothing to history. */
  lemma ArtBonus(prefs: map<string, int>)
    requires "art" in prefs && "paintings" in prefs && "ceramics" in prefs && "history" in prefs
    ensures var t := AddAnswer(prefs, UserAnswer("q2", ["c2"]));
            t["art"] == prefs["art"] + 2 && t["paintings"] == prefs["paintings"] + 1
            && t["ceramics"] == prefs["ceramics"] + 1 && t["history"] == prefs["history"]
  {
    var q2 := Questions[1];
    assert FindQuestion(Questions, "q2") == Some(q2);
    assert FindChoice(q2.choices, "c2") == Some(Choice("c2", "art"));
    assert AddChoices(prefs, q2, ["c2"]) == AddChoice(prefs, q2, "c2") by {
      assert ["c2"][..0] == [];
    }
  }

  // --------------------------------------------------------------- stepping

  /** The page state. */
  class Survey {
    var currentIndex: nat
    var userAnswers: seq<UserAnswer>
    var preferences: map<string, int>
    var isCompleted: bool

    predicate Valid()
      reads this
    {
      currentIndex < |Questions|
    }

    constructor()
      ensures Valid() && currentIndex == 0 && userAnswers == [] && preferences == map[] && !isCompleted
    {
      currentIndex := 0;
      userAnswers := [];
      preferences := map[];
      isCompleted := false;
    }

    /** `handleChoice` on the current question. */
    method ChooseOption(choiceId: string)
      requires Valid()
      modifies this
      ensures Valid()
      ensures userAnswers == HandleChoice(old(userAnswers), Questions[currentIndex], choiceId)
      ensures currentIndex == old(currentIndex) && preferences == old(preferences)
      ensures isCompleted == old(isCompleted)
    {
      userAnswers := HandleChoice(userAnswers, Questions[currentIndex], choiceId);
    }

    /** `goToNext`: stays put while the current question has no choice;
        otherwise moves on, or after the last question runs the tally. */
    method GoToNext()
      requires Valid()
      modifies this
      ensures Valid()
      ensures userAnswers == old(userAnswers)
      ensures var k := FindAnswer(userAnswers, Questions[old(currentIndex)].id);
              k.None? || userAnswers[k.value].choices == [] ==>
                currentIndex == old(currentIndex) && preferences == old(preferences)
                && isCompleted == old(isCompleted)
      ensures var k := FindAnswer(userAnswers, Questions[old(currentIndex)].id);
              k.Some? && userAnswers[k.value].choices != [] && old(currentIndex) < |Questions| - 1 ==>
                currentIndex == old(currentIndex) + 1 && preferences == old(preferences)
                && isCompleted == old(isCompleted)
      ensures var k := FindAnswer(userAnswers, Questions[old(currentIndex)].id);
              k.Some? && userAnswers[k.value].choices != [] && old(currentIndex) == |Questions| - 1 ==>
                currentIndex == old(currentIndex) && preferences == Tally(InitialPrefs, userAnswers)
                && isCompleted
    {
      var currentAnswer := FindAnswer(userAnswers, Questions[currentIndex].id);
      if currentAnswer.None? || |userAnswers[currentAnswer.value].choices| == 0 {
        return;
      }
      if currentIndex < |Questions| - 1 {
        currentIndex := currentIndex + 1;
      } else {
        preferences := AnalyzePreferences(userAnswers);
        isCompleted := true;
      }
    }

    /** `goToPrevious`: one step back, never below the first question. */
    method GoToPrevious()
      requires Valid()
      modifies this
      ensures Valid()
      ensures old(currentIndex) > 0 ==> currentIndex == old(currentIndex) - 1
      ensures old(currentIndex) == 0 ==> currentIndex == 0
      ensures userAnswers == old(userAnswers) && preferences == old(preferences)
      ensures isCompleted == old(isCompleted)
    {
      if currentIndex > 0 {
        currentIndex := currentIndex - 1;
      }
    }
  }
}
