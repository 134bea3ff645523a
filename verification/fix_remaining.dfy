/** The second repair script (`fix_remaining_duplicates.py`): two more
    renaming passes over the names still shared, the rewrite of the artifact
    names that quiz texts refer to, the consistency check and the gate on
    the copy into the public data directory. The three regular expressions
    of the script are parameters: `features` lists the matches of the
    description-feature pattern, `sizeMatch` is the size pattern's first
    match and `findNames` lists the names written between 《 and 》. */
module FixRemaining {
  import opened Wrappers
  import opened Seqs
  import opened Strings
  import opened Catalog
  import opened NameGroups
  import opened FixDuplicates

  predicate NeverSkip(n: string) {
    false
  }

  // ------------------------------------------------------------ first pass

  /** The first feature found in the first 50 characters of a non-empty
      description, or "". */
  function Feature(a: Artifact, features: string -> seq<string>): string {
    if a.description != "" && features(Take(a.description, 50)) != [] then features(Take(a.description, 50))[0] else ""
  }

  /** The size found in non-empty dimensions, or "". */
  function Size(a: Artifact, sizeMatch: string -> Option<string>): string {
    if a.dimensions != "" && sizeMatch(a.dimensions).Some? then sizeMatch(a.dimensions).value else ""
  }

  /** The part of the location after its last 馆 (all of it when it holds
      none, and "" for an empty location). */
  function LocationPart(a: Artifact): string {
    AfterLast(a.location, '馆')
  }

  /** The distinguishing text of the member at index `i`: the first of the
      description feature, the size and the location part that is not
      empty, else a number. */
  function UniqueInfo(a: Artifact, i: nat, features: string -> seq<string>, sizeMatch: string -> Option<string>): (r: string)
    ensures r != ""
    ensures Feature(a, features) != "" ==> r == Feature(a, features)
    ensures Feature(a, features) == "" && Size(a, sizeMatch) != "" ==> r == Size(a, sizeMatch)
    ensures Feature(a, features) == "" && Size(a, sizeMatch) == "" && LocationPart(a) != "" ==> r == LocationPart(a)
    ensures Feature(a, features) == "" && Size(a, sizeMatch) == "" && LocationPart(a) == "" ==>
              r == "编号" + NatToString(i + 1)
  {
    var info := Feature(a, features);
    var info := if info == "" && a.dimensions != "" && sizeMatch(a.dimensions).Some? then sizeMatch(a.dimensions).value else info;
    var info := if info == "" && a.location != "" then (if '馆' in a.location then AfterLast(a.location, '馆') else a.location) else info;
    if info == "" then "编号" + NatToString(i + 1) else info
  }

  /** A location that ends in 馆, such as the museum's own name, yields
      nothing, so the number is used when nothing else is found. */
  lemma MuseumLocationFallsThrough(a: Artifact, i: nat, features: string -> seq<string>, sizeMatch: string -> Option<string>)
    requires a.location == "苏州博物馆" && a.description == "" && a.dimensions == ""
    ensures UniqueInfo(a, i, features, sizeMatch) == "编号" + NatToString(i + 1)
  {
    assert LocationPart(a) == [];
  }

  /** The first pass renames member `i > 0` of a group to
      `name（unique info）`. */
  function InfoName(name: string, info: string): (r: string)
    ensures |r| == |name| + |info| + 2 && r[..|name|] == name
    ensures r[|name|..] == "（" + info + "）"
  {
    var tail := "（" + info + "）";
    assert (name + tail)[..|name|] == name && (name + tail)[|name|..] == tail;
    name + tail
  }

  /** The informative rule, with the lookups of features and sizes fixed. */
  function InfoRule(features: string -> seq<string>, sizeMatch: string -> Option<string>)
    : (rule: (string, Artifact, nat) -> string)
    ensures forall n, x, i :: rule(n, x, i) == InfoName(n, UniqueInfo(x, i, features, sizeMatch))
  {
    (name: string, a: Artifact, i: nat) => InfoName(name, UniqueInfo(a, i, features, sizeMatch))
  }

  /** The second pass renames member `i > 0` of a group to `name #<i+1>`. */
  function NumberRule(name: string, a: Artifact, i: nat): (r: string)
    ensures r == name + " #" + NatToString(i + 1)
    ensures |r| > |name| && r[..|name|] == name
  {
    name + " #" + NatToString(i + 1)
  }

  /** The artifacts after `fix_remaining_duplicates`. */
  function FixedRemaining(xs: seq<Artifact>, features: string -> seq<string>, sizeMatch: string -> Option<string>): seq<Artifact> {
    Renamed(Renamed(xs, InfoRule(features, sizeMatch), NeverSkip), NumberRule, NeverSkip)
  }

  /** `fix_remaining_duplicates`: a pass with the informative rule over the
      duplicated names, then, when names are still shared, a numbering pass
      over the groups of the new names. */
  method FixRemainingDuplicates(a: array<Artifact>, features: string -> seq<string>, sizeMatch: string -> Option<string>)
    modifies a
    ensures a[..] == FixedRemaining(old(a[..]), features, sizeMatch)
  {
    RenameDuplicates(a, InfoRule(features, sizeMatch), NeverSkip);
    NumberRemaining(a);
  }

  /** The second part of `fix_remaining_duplicates`: the names still
      shared after the first pass get numbered; with none left, nothing
      changes. */
  method NumberRemaining(a: array<Artifact>)
    modifies a
    ensures a[..] == Renamed(old(a[..]), NumberRule, NeverSkip)
  {
    ghost var mid := a[..];
    var remaining, order := FindDuplicates(a);
    if remaining != map[] {
      RenameMembers(a, Names(mid), remaining, order, NumberRule, NeverSkip);
    } else {
      forall q | 0 <= q < a.Length
        ensures a[q] == AfterPass(mid, Names(mid), NumberRule, NeverSkip, q)
      {
        assert Names(mid)[q] in Names(mid);
      }
    }
    assert forall q :: 0 <= q < a.Length ==> a[..][q] == Renamed(mid, NumberRule, NeverSkip)[q];
  }

  /** A pass keeps every artifact whose name is held once, and the first
      member of every group; a later member of a group gets a name that
      extends the group's name; nothing but names changes. */
  lemma {:induction false} PassShape(xs: seq<Artifact>, rule: (string, Artifact, nat) -> string, q: nat)
    requires q < |xs|
    requires forall n, x, i :: |rule(n, x, i)| > |n| && rule(n, x, i)[..|n|] == n
    ensures var r := Renamed(xs, rule, NeverSkip)[q];
            r == xs[q].(name := r.name)
            && (Rank(Names(xs), q) == 0 || !IsDuplicate(Names(xs), xs[q].name) ==> r == xs[q])
            && (Rank(Names(xs), q) > 0 && IsDuplicate(Names(xs), xs[q].name) ==>
                  r.name == rule(xs[q].name, xs[q], Rank(Names(xs), q))
                  && |r.name| > |xs[q].name| && r.name[..|xs[q].name|] == xs[q].name)
  {
    assert Names(xs)[q] == xs[q].name;
  }

  /** Both rules extend the group's name. */
  lemma RulesExtendName(features: string -> seq<string>, sizeMatch: string -> Option<string>)
    ensures forall n, x, i :: var r := InfoRule(features, sizeMatch)(n, x, i); |r| > |n| && r[..|n|] == n
    ensures forall n, x, i :: var r := NumberRule(n, x, i); |r| > |n| && r[..|n|] == n
  {
    forall n, x, i
      ensures var r := InfoRule(features, sizeMatch)(n, x, i); |r| > |n| && r[..|n|] == n
    {
      assert InfoRule(features, sizeMatch)(n, x, i) == InfoName(n, UniqueInfo(x, i, features, sizeMatch));
    }
  }

  // -------------------------------------------------------- quiz references

  /** `{a['id']: a['name'] for a in artifacts}`: the last artifact with an id
      gives its name. */
  function IdToName(xs: seq<Artifact>): (m: map<string, string>)
    ensures m.Keys == IdToArtifact(xs).Keys
    ensures forall id :: id in m ==> m[id] == IdToArtifact(xs)[id].name
  {
    map id | id in IdToArtifact(xs) :: IdToArtifact(xs)[id].name
  }

  /** The pattern a reference is replaced by: `《name》` in a question, the bare
      name in option texts and explanations. */
  function Pattern(n: string, bracketed: bool): string {
    if bracketed then "《" + n + "》" else n
  }

  /** The text after the replacements made for `matches`, in order, and how
      many were counted: a match other than `name` that occurs in the current
      text has its pattern replaced by `name`'s. */
  function Rewritten(s: string, matches: seq<string>, name: string, bracketed: bool): (r: (string, nat))
    ensures r.1 <= |matches|
  {
    if matches == [] then (s, 0)
    else
      var k := |matches| - 1;
      RewriteStep(Rewritten(s, matches[..k], name, bracketed), matches[k], name, bracketed)
  }

  /** One replacement: a match other than `name` that occurs in the text
      has its pattern replaced by `name`'s, and is counted. */
  function RewriteStep(prev: (string, nat), stale: string, name: string, bracketed: bool): (r: (string, nat))
    ensures r.1 == prev.1 + (if stale != name && Contains(prev.0, stale) then 1 else 0)
    ensures r.1 == prev.1 ==> r == prev
    ensures Pattern(stale, bracketed) != "" && !Contains(prev.0, Pattern(stale, bracketed)) ==> r.0 == prev.0
  {
    if stale != name && Contains(prev.0, stale) then
      var p, q := Pattern(stale, bracketed), Pattern(name, bracketed);
      var t := ReplaceAll(prev.0, p, q);
      assert p != "" && !Contains(prev.0, p) ==> t == prev.0 by {
        if p != "" && !Contains(prev.0, p) {
          ReplaceAllAbsent(prev.0, p, q);
        }
      }
      (t, prev.1 + 1)
    else prev
  }

  /** A text whose references already all give the current name is left
      as it is, and nothing is counted. */
  lemma {:induction false} RewrittenCurrent(s: string, matches: seq<string>, name: string, bracketed: bool)
    requires forall i :: 0 <= i < |matches| ==> matches[i] == name
    ensures Rewritten(s, matches, name, bracketed) == (s, 0)
  {
    if matches != [] {
      RewrittenCurrent(s, matches[..|matches| - 1], name, bracketed);
    }
  }

  /** A single stale reference in a question is rewritten to the current
      name everywhere it is written between 《 and 》. */
  lemma RewrittenSingle(s: string, stale: string, name: string)
    requires stale != name && Contains(s, stale)
    ensures Rewritten(s, [stale], name, true) == (ReplaceAll(s, "《" + stale + "》", "《" + name + "》"), 1)
  {
    assert [stale][..0] == [];
  }

  /** The loops over the matches for one text. */
  method Rewrite(s: string, matches: seq<string>, name: string, bracketed: bool) returns (t: string, count: nat)
    ensures (t, count) == Rewritten(s, matches, name, bracketed)
  {
    t, count := s, 0;
    var k := 0;
    while k < |matches|
      invariant 0 <= k <= |matches|
      invariant (t, count) == Rewritten(s, matches[..k], name, bracketed)
    {
      assert matches[..k + 1][..k] == matches[..k];
      t, count := ReplaceOne(t, count, matches[k], name, bracketed);
      k := k + 1;
    }
    assert matches[..k] == matches;
  }

  /** The body of the loop over the matches. */
  method ReplaceOne(t0: string, count0: nat, stale: string, name: string, bracketed: bool) returns (t: string, count: nat)
    ensures (t, count) == RewriteStep((t0, count0), stale, name, bracketed)
  {
    t, count := t0, count0;
    if stale != name && Contains(t, stale) {
      t := ReplaceAll(t, Pattern(stale, bracketed), Pattern(name, bracketed));
      count := count + 1;
    }
  }

  /** The options with their texts rewritten, and the count of rewrites. */
  function RewrittenOptions(options: seq<QuizOption>, matches: seq<string>, name: string): (r: (seq<QuizOption>, nat))
    ensures |r.0| == |options|
    ensures forall i :: 0 <= i < |options| ==>
              r.0[i] == options[i].(text := Rewritten(options[i].text, matches, name, false).0)
  {
    if options == [] then ([], 0)
    else
      var k := |options| - 1;
      var prev := RewrittenOptions(options[..k], matches, name);
      var one := Rewritten(options[k].text, matches, name, false);
      (prev.0 + [options[k].(text := one.0)], prev.1 + one.1)
  }

  /** A quiz after `update_quizzes_with_artifact_names`, with the number of
      rewrites counted for it. */
  function UpdatedQuiz(q: Quiz, idToName: map<string, string>, findNames: string -> seq<string>): (r: (Quiz, nat))
    ensures r.0.id == q.id && r.0.artifactId == q.artifactId && r.0.correctAnswer == q.correctAnswer
    ensures |r.0.options| == |q.options|
    ensures forall i :: 0 <= i < |q.options| ==> r.0.options[i].id == q.options[i].id
    ensures q.artifactId !in idToName ==> r == (q, 0)
    ensures q.artifactId in idToName ==>
              r.0.question == Rewritten(q.question, findNames(q.question), idToName[q.artifactId], true).0
  {
    if q.artifactId !in idToName then (q, 0)
    else
      var name := idToName[q.artifactId];
      var matches := findNames(q.question);
      var question := Rewritten(q.question, matches, name, true);
      var options := RewrittenOptions(q.options, matches, name);
      var explanation := Rewritten(q.explanation, matches, name, false);
      (q.(question := question.0, options := options.0, explanation := explanation.0),
       question.1 + options.1 + explanation.1)
  }

  /** A quiz whose references already give its artifact's current name is
      unchanged. */
  lemma {:induction false} UpToDateQuizUnchanged(q: Quiz, idToName: map<string, string>, findNames: string -> seq<string>)
    requires q.artifactId in idToName
    requires forall i :: 0 <= i < |findNames(q.question)| ==> findNames(q.question)[i] == idToName[q.artifactId]
    ensures UpdatedQuiz(q, idToName, findNames) == (q, 0)
  {
    var name := idToName[q.artifactId];
    var matches := findNames(q.question);
    RewrittenCurrent(q.question, matches, name, true);
    RewrittenCurrent(q.explanation, matches, name, false);
    OptionsCurrent(q.options, matches, name);
  }

  lemma {:induction false} OptionsCurrent(options: seq<QuizOption>, matches: seq<string>, name: string)
    requires forall i :: 0 <= i < |matches| ==> matches[i] == name
    ensures RewrittenOptions(options, matches, name) == (options, 0)
  {
    if options != [] {
      var k := |options| - 1;
      OptionsCurrent(options[..k], matches, name);
      RewrittenCurrent(options[k].text, matches, name, false);
      assert options[..k] + [options[k]] == options;
    }
  }

  /** The loop over one quiz's options. */
  method RewriteOptions(options: seq<QuizOption>, matches: seq<string>, name: string)
    returns (result: seq<QuizOption>, count: nat)
    ensures (result, count) == RewrittenOptions(options, matches, name)
  {
    result, count := [], 0;
    var k := 0;
    while k < |options|
      invariant 0 <= k <= |options|
      invariant (result, count) == RewrittenOptions(options[..k], matches, name)
    {
      assert options[..k + 1][..k] == options[..k];
      var text, n := Rewrite(options[k].text, matches, name, false);
      assert RewrittenOptions(options[..k + 1], matches, name)
        == (result + [options[k].(text := text)], count + n);
      result := result + [options[k].(text := text)];
      count := count + n;
      k := k + 1;
    }
    assert options[..k] == options;
  }

  /** The rewrites of one quiz. */
  method UpdateQuiz(quiz: Quiz, idToName: map<string, string>, findNames: string -> seq<string>)
    returns (updated: Quiz, count: nat)
    ensures (updated, count) == UpdatedQuiz(quiz, idToName, findNames)
    ensures (updated, count) == QuizUpdate(idToName, findNames)(quiz)
  {
    updated, count := quiz, 0;
    if quiz.artifactId in idToName {
      var name := idToName[quiz.artifactId];
      var matches := findNames(quiz.question);
      var question, c1 := Rewrite(quiz.question, matches, name, true);
      var options, c2 := RewriteOptions(quiz.options, matches, name);
      var explanation, c3 := Rewrite(quiz.explanation, matches, name, false);
      updated := quiz.(question := question, options := options, explanation := explanation);
      count := c1 + c2 + c3;
    }
  }

  /** `f` applied to every element, in order, with the sum of the counts. */
  function MapCounted<T>(f: T -> (T, nat), xs: seq<T>): (r: (seq<T>, nat))
    ensures |r.0| == |xs|
  {
    if xs == [] then ([], 0)
    else
      var k := |xs| - 1;
      var prev := MapCounted(f, xs[..k]);
      var one := f(xs[k]);
      (prev.0 + [one.0], prev.1 + one.1)
  }

  /** One more element extends the result by its image and the count by
      its count. */
  lemma MapCountedSnoc<T>(f: T -> (T, nat), xs: seq<T>, k: nat, done: seq<T>, count: nat, y: T, n: nat)
    requires k < |xs| && MapCounted(f, xs[..k]) == (done, count) && f(xs[k]) == (y, n)
    ensures MapCounted(f, xs[..k + 1]) == (done + [y], count + n)
  {
    assert xs[..k + 1][..k] == xs[..k];
  }

  /** Each element of the result is `f` of the element at its position. */
  lemma {:induction false} MapCountedAt<T>(f: T -> (T, nat), xs: seq<T>)
    ensures forall i :: 0 <= i < |xs| ==> MapCounted(f, xs).0[i] == f(xs[i]).0
  {
    if xs != [] {
      var k := |xs| - 1;
      MapCountedAt(f, xs[..k]);
      var prev := MapCounted(f, xs[..k]).0;
      var all := MapCounted(f, xs).0;
      assert forall i :: 0 <= i < k ==> all[i] == prev[i] && xs[..k][i] == xs[i];
    }
  }

  /** The rewrite of one quiz, as a function value. */
  function QuizUpdate(idToName: map<string, string>, findNames: string -> seq<string>): Quiz -> (Quiz, nat) {
    q => UpdatedQuiz(q, idToName, findNames)
  }

  /** Every quiz rewritten, in order, with the total count of rewrites. */
  function UpdatedQuizzes(qs: seq<Quiz>, idToName: map<string, string>, findNames: string -> seq<string>): (r: (seq<Quiz>, nat))
    ensures |r.0| == |qs|
  {
    MapCounted(QuizUpdate(idToName, findNames), qs)
  }

  /** Each quiz of the result is the rewrite of the quiz at its position. */
  lemma UpdatedQuizzesAt(qs: seq<Quiz>, idToName: map<string, string>, findNames: string -> seq<string>)
    ensures forall i :: 0 <= i < |qs| ==> UpdatedQuizzes(qs, idToName, findNames).0[i] == UpdatedQuiz(qs[i], idToName, findNames).0
  {
    MapCountedAt(QuizUpdate(idToName, findNames), qs);
  }

  /** `update_quizzes_with_artifact_names` on the quiz array: every quiz is
      rewritten in place; `updatedCount` is the number of rewrites made. */
  method UpdateQuizzesWithArtifactNames(artifacts: seq<Artifact>, quizzes: array<Quiz>, findNames: string -> seq<string>)
    returns (updatedCount: nat)
    modifies quizzes
    ensures (quizzes[..], updatedCount) == UpdatedQuizzes(old(quizzes[..]), IdToName(artifacts), findNames)
  {
    var idToName := IdToName(artifacts);
    updatedCount := UpdateQuizzes(quizzes, idToName, findNames);
  }

  /** The loop over the quizzes, given the id-to-name map. */
  method UpdateQuizzes(quizzes: array<Quiz>, idToName: map<string, string>, findNames: string -> seq<string>)
    returns (updatedCount: nat)
    modifies quizzes
    ensures (quizzes[..], updatedCount) == UpdatedQuizzes(old(quizzes[..]), idToName, findNames)
  {
    ghost var update := QuizUpdate(idToName, findNames);
    ghost var before := quizzes[..];
    updatedCount := 0;
    var p := 0;
    while p < quizzes.Length
      invariant 0 <= p <= quizzes.Length
      invariant (quizzes[..p], updatedCount) == MapCounted(update, before[..p])
      invariant quizzes[p..] == before[p..]
    {
      assert quizzes[p] == quizzes[p..][0] == before[p];
      ghost var done := quizzes[..p];
      var quiz, n := UpdateQuiz(quizzes[p], idToName, findNames);
      MapCountedSnoc(update, before, p, done, updatedCount, quiz, n);
      quizzes[p] := quiz;
      assert quizzes[..p + 1] == done + [quiz];
      assert quizzes[p + 1..] == before[p + 1..];
      updatedCount := updatedCount + n;
      p := p + 1;
    }
    assert before[..p] == before && quizzes[..p] == quizzes[..];
  }

  // ------------------------------------------------------------ validation

  /** The check of `validate_artifacts_quizzes_mapping`: every artifact has a
      quiz, every quiz refers to an artifact, and no name is shared. */
  function Consistent(artifacts: seq<Artifact>, quizzes: seq<Quiz>): (b: bool)
    ensures b <==> (forall a :: a in artifacts ==> exists q :: q in quizzes && q.artifactId == a.id)
                   && (forall q :: q in quizzes ==> exists a :: a in artifacts && a.id == q.artifactId)
                   && Distinct(Names(artifacts))
  {
    CoveredIff(artifacts, quizzes);
    LinkedIff(artifacts, quizzes);
    var covered := MissingIds(artifacts, quizzes) == {};
    var linked := QuizArtifactIds(quizzes) - ArtifactIdSet(artifacts) == {};
    covered && linked && Distinct(Names(artifacts))
  }

  /** No id is missing exactly when every artifact has a quiz. */
  lemma CoveredIff(artifacts: seq<Artifact>, quizzes: seq<Quiz>)
    ensures MissingIds(artifacts, quizzes) == {}
        <==> forall a :: a in artifacts ==> exists q :: q in quizzes && q.artifactId == a.id
  {
    var covered := MissingIds(artifacts, quizzes) == {};
    assert covered <==> forall a :: a in artifacts ==> exists q :: q in quizzes && q.artifactId == a.id by {
      if covered {
        forall a | a in artifacts ensures exists q :: q in quizzes && q.artifactId == a.id {
          assert a.id in ArtifactIdSet(artifacts) && a.id !in MissingIds(artifacts, quizzes);
        }
      } else {
        var id :| id in MissingIds(artifacts, quizzes);
        var a :| a in artifacts && a.id == id;
        assert id !in QuizArtifactIds(quizzes);
      }
    }
  }

  /** No quiz refers outside the list exactly when every quiz has its
      artifact. */
  lemma LinkedIff(artifacts: seq<Artifact>, quizzes: seq<Quiz>)
    ensures QuizArtifactIds(quizzes) - ArtifactIdSet(artifacts) == {}
        <==> forall q :: q in quizzes ==> exists a :: a in artifacts && a.id == q.artifactId
  {
    var linked := QuizArtifactIds(quizzes) - ArtifactIdSet(artifacts) == {};
    assert linked <==> forall q :: q in quizzes ==> exists a :: a in artifacts && a.id == q.artifactId by {
      if linked {
        forall q | q in quizzes ensures exists a :: a in artifacts && a.id == q.artifactId {
          assert q.artifactId in QuizArtifactIds(quizzes);
          assert q.artifactId !in QuizArtifactIds(quizzes) - ArtifactIdSet(artifacts);
          assert q.artifactId in ArtifactIdSet(artifacts);
        }
      } else {
        var id :| id in QuizArtifactIds(quizzes) - ArtifactIdSet(artifacts);
        var q :| q in quizzes && q.artifactId == id;
        assert id !in ArtifactIdSet(artifacts);
      }
    }
  }

  /** `validate_artifacts_quizzes_mapping`, grouping the names as the script
      does. */
  method ValidateMapping(a: array<Artifact>, quizzes: seq<Quiz>) returns (ok: bool)
    ensures ok <==> Consistent(a[..], quizzes)
  {
    var artifactIds := ArtifactIdSet(a[..]);
    var quizArtifactIds := QuizArtifactIds(quizzes);
    var withoutQuiz := artifactIds - quizArtifactIds;
    var withoutArtifact := quizArtifactIds - artifactIds;
    var duplicates, order := FindDuplicates(a);
    ok := |withoutQuiz| == 0 && |withoutArtifact| == 0 && |duplicates| == 0;
    NoDuplicatesIffDistinct(Names(a[..]), duplicates, order);
  }

  /** No name is duplicated exactly when the names are distinct. */
  lemma NoDuplicatesIffDistinct(names: seq<string>, dups: map<string, seq<nat>>, order: seq<string>)
    requires DuplicatesOf(names, dups, order)
    ensures |dups| == 0 <==> Distinct(names)
  {
    DistinctIffSingletons(names);
    if |dups| == 0 {
      forall q | 0 <= q < |names|
        ensures |Positions(names, names[q])| == 1
      {
        assert names[q] !in dups;
        PositionsComplete(names, names[q], q);
      }
    } else {
      var n :| n in dups;
      var q := Positions(names, n)[0];
      assert names[q] == n;
    }
  }

  // ---------------------------------------------------------------- main

  /** The data `main` publishes: the repaired artifacts and quizzes, but
      only when the check passes. */
  method RepairAndPublish(a: array<Artifact>, quizzes: array<Quiz>, features: string -> seq<string>,
                          sizeMatch: string -> Option<string>, findNames: string -> seq<string>)
    returns (published: Option<(seq<Artifact>, seq<Quiz>)>)
    modifies a, quizzes
    ensures a[..] == FixedRemaining(old(a[..]), features, sizeMatch)
    ensures forall i :: 0 <= i < quizzes.Length ==>
              quizzes[i] == UpdatedQuiz(old(quizzes[i]), IdToName(a[..]), findNames).0
    ensures published.Some? <==> Consistent(a[..], quizzes[..])
    ensures published.Some? ==> published.value == (a[..], quizzes[..])
  {
    FixRemainingDuplicates(a, features, sizeMatch);
    var updatedCount := UpdateQuizzesWithArtifactNames(a[..], quizzes, findNames);
    UpdatedQuizzesAt(old(quizzes[..]), IdToName(a[..]), findNames);
    var ok := ValidateMapping(a, quizzes[..]);
    if ok {
      published := Some((a[..], quizzes[..]));
    } else {
      published := None;
    }
  }
}
