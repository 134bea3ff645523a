/** The first repair script (`fix_duplicate_artifacts.py`): artifacts that
    share a name get distinguishing names, and every artifact without a quiz
    gets a generic one. The artifact list is an array that the passes update
    in place; reading and writing the JSON files, and the copy into the
    public data directory, are not modelled. */
module FixDuplicates {
  import opened Wrappers
  import opened Seqs
  import opened Strings
  import opened Catalog
  import opened NameGroups

  /** The name the scraper left on records whose title cell was the header. */
  const Placeholder := "名称"

  predicate IsPlaceholder(n: string) {
    n == Placeholder
  }

  // ------------------------------------------------------- placeholder pass

  /** The full name without its 【 】 brackets. */
  function StripBrackets(s: string): (r: string)
    ensures '【' !in r && '】' !in r
  {
    var t := ReplaceAll(s, "【", "");
    ReplaceAllRemovesChar(s, '【');
    ReplaceAllChars(t, "】", "", '【');
    ReplaceAllRemovesChar(t, '】');
    ReplaceAll(t, "】", "")
  }

  /** An artifact named by the placeholder takes its bracket-free full name
      when it has one; any other artifact is kept. */
  function PlaceholderFixed(x: Artifact): (r: Artifact)
    ensures r == x.(name := r.name)
    ensures x.name != Placeholder ==> r == x
    ensures x.name == Placeholder && x.fullName != "" ==> '【' !in r.name && '】' !in r.name
  {
    if x.name == Placeholder && x.fullName != "" then x.(name := StripBrackets(x.fullName)) else x
  }

  function PlaceholdersFixed(xs: seq<Artifact>): (r: seq<Artifact>)
    ensures |r| == |xs|
    ensures forall i :: 0 <= i < |xs| ==> r[i] == PlaceholderFixed(xs[i])
  {
    if xs == [] then [] else [PlaceholderFixed(xs[0])] + PlaceholdersFixed(xs[1..])
  }

  /** The loop over all artifacts that renames the placeholder records. */
  method FixPlaceholders(a: array<Artifact>)
    modifies a
    ensures forall q :: 0 <= q < a.Length ==> a[q] == PlaceholderFixed(old(a[q]))
  {
    var p := 0;
    while p < a.Length
      invariant 0 <= p <= a.Length
      invariant forall q :: 0 <= q < p ==> a[q] == PlaceholderFixed(old(a[q]))
      invariant forall q :: p <= q < a.Length ==> a[q] == old(a[q])
    {
      if a[p].name == Placeholder && a[p].fullName != "" {
        a[p] := a[p].(name := StripBrackets(a[p].fullName));
      }
      p := p + 1;
    }
  }

  // ---------------------------------------------------------- rename rule

  /** The size part of a dimensions text: its second and third
      space-separated words when it has more than two, else all of it. */
  function SizeString(dimensions: string): (r: string)
    ensures |SplitOn(dimensions, ' ')| <= 2 ==> r == dimensions
    ensures |SplitOn(dimensions, ' ')| > 2 ==>
              r == SplitOn(dimensions, ' ')[1] + " " + SplitOn(dimensions, ' ')[2]
  {
    var parts := SplitOn(dimensions, ' ');
    if |parts| > 2 then
      var two := parts[1..3];
      assert two[0] == parts[1] && two[1..] == [parts[2]];
      assert Join(two[1..], " ") == parts[2];
      Join(two, " ")
    else dimensions
  }

  /** The new name of the member at index `i` of a group: a number when the
      name already holds the period, else the period in brackets, else the
      size in brackets, else a number. */
  function Distinguished(group: string, a: Artifact, i: nat): (r: string)
    ensures |r| > |a.name| && r[..|a.name|] == a.name
  {
    if a.period != "" && Contains(a.name, a.period) then a.name + NatToString(i + 1)
    else if a.period != "" then a.name + "（" + a.period + "）"
    else if a.dimensions != "" then a.name + "（" + SizeString(a.dimensions) + "）"
    else a.name + NatToString(i + 1)
  }

  /** Artifact `q` after `fix_duplicate_names`: the groups are those of the
      original names; the placeholder records are fixed first, and the
      placeholder group is not renamed. */
  function FixedAt(xs: seq<Artifact>, q: nat): Artifact
    requires q < |xs|
  {
    AfterPass(PlaceholdersFixed(xs), Names(xs), Distinguished, IsPlaceholder, q)
  }

  /** `fix_duplicate_names` on the artifact array. */
  method FixDuplicateNames(a: array<Artifact>)
    modifies a
    ensures forall q :: 0 <= q < a.Length ==> a[q] == FixedAt(old(a[..]), q)
  {
    ghost var names := Names(a[..]);
    var dups, order := FindDuplicates(a);
    FixPlaceholders(a);
    assert a[..] == PlaceholdersFixed(old(a[..]));
    RenameMembers(a, names, dups, order, Distinguished, IsPlaceholder);
  }

  /** Only the name of an artifact changes. */
  lemma OnlyNameChanges(xs: seq<Artifact>, q: nat)
    requires q < |xs|
    ensures FixedAt(xs, q) == xs[q].(name := FixedAt(xs, q).name)
  {
  }

  /** A name held once, and the first member of every group, is kept
      (the placeholder aside). */
  lemma FirstMemberKept(xs: seq<Artifact>, q: nat)
    requires q < |xs| && xs[q].name != Placeholder
    requires Rank(Names(xs), q) == 0 || !IsDuplicate(Names(xs), xs[q].name)
    ensures FixedAt(xs, q) == xs[q]
  {
  }

  /** A placeholder record only gets its full name. */
  lemma PlaceholderRule(xs: seq<Artifact>, q: nat)
    requires q < |xs| && xs[q].name == Placeholder
    ensures FixedAt(xs, q) == PlaceholderFixed(xs[q])
  {
  }

  /** Every later member of a duplicated group gets a name that extends the
      group's name, so it no longer carries that name. */
  lemma LaterMembersRenamed(xs: seq<Artifact>, q: nat)
    requires q < |xs| && xs[q].name != Placeholder
    requires IsDuplicate(Names(xs), xs[q].name) && Rank(Names(xs), q) > 0
    ensures var n := FixedAt(xs, q).name;
            |n| > |xs[q].name| && n[..|xs[q].name|] == xs[q].name
    ensures FixedAt(xs, q).name == Distinguished(xs[q].name, xs[q], Rank(Names(xs), q))
  {
    var names, ys := Names(xs), PlaceholdersFixed(xs);
    assert names[q] == xs[q].name;
    assert ys[q] == xs[q];
    assert Renames(names, IsPlaceholder, q);
    assert FixedAt(xs, q).name == Distinguished(names[q], ys[q], Rank(names, q));
  }

  /** Within a duplicated group, exactly its first member keeps the name. */
  lemma OnlyFirstKeepsName(xs: seq<Artifact>, q: nat)
    requires q < |xs| && xs[q].name != Placeholder && IsDuplicate(Names(xs), xs[q].name)
    ensures FixedAt(xs, q).name == xs[q].name <==> Rank(Names(xs), q) == 0
  {
    if Rank(Names(xs), q) > 0 {
      LaterMembersRenamed(xs, q);
    }
  }

  // -------------------------------------------------------- missing quizzes

  /** `{a['id']: a for a in artifacts}`: every id maps to the last artifact
      carrying it. */
  function IdToArtifact(xs: seq<Artifact>): (m: map<string, Artifact>)
    ensures forall id :: id in m <==> exists i :: 0 <= i < |xs| && xs[i].id == id
    ensures forall id :: id in m ==> m[id].id == id
  {
    if xs == [] then map[]
    else
      var k := |xs| - 1;
      var m := IdToArtifact(xs[..k]);
      assert forall i :: 0 <= i < k ==> xs[..k][i] == xs[i];
      m[xs[k].id := xs[k]]
  }

  /** An id maps to the last artifact carrying it. */
  lemma {:induction false} IdToArtifactLast(xs: seq<Artifact>, i: nat)
    requires i < |xs| && forall j :: i < j < |xs| ==> xs[j].id != xs[i].id
    ensures xs[i].id in IdToArtifact(xs) && IdToArtifact(xs)[xs[i].id] == xs[i]
  {
    var k := |xs| - 1;
    if i < k {
      IdToArtifactLast(xs[..k], i);
    }
  }

  /** Every id of the list is a key of the map. */
  lemma IdMapped(xs: seq<Artifact>, id: string)
    requires id in ArtifactIdSet(xs)
    ensures id in IdToArtifact(xs)
  {
    var a :| a in xs && a.id == id;
    var i := IndexIn(xs, a);
    assert xs[i].id == id;
  }

  function ArtifactIdSet(xs: seq<Artifact>): set<string> {
    set a | a in xs :: a.id
  }

  function QuizArtifactIds(qs: seq<Quiz>): set<string> {
    set q | q in qs :: q.artifactId
  }

  /** The period, or `fallback` when it is empty. */
  function PeriodOr(a: Artifact, fallback: string): string {
    if a.period != "" then a.period else fallback
  }

  /** The generic quiz written for an artifact without one. */
  function GenericQuiz(id: string, a: Artifact): (q: Quiz)
    ensures q.artifactId == id && q.id == "quiz_" + id + "_1"
    ensures |q.options| == 4 && q.options[0].id == q.correctAnswer
    ensures forall i, j :: 0 <= i < j < |q.options| ==> q.options[i].id != q.options[j].id
  {
    var era := PeriodOr(a, "古代");
    Quiz(
      "quiz_" + id + "_1",
      id,
      "关于" + PeriodOr(a, "") + "《" + a.name + "》的特点，以下哪项描述是正确的？",
      [ QuizOption("a", a.name + "是" + era + "的一件重要文物，反映了当时的艺术水平和文化背景。"),
        QuizOption("b", a.name + "主要用于宗教仪式，是佛教艺术的重要代表。"),
        QuizOption("c", a.name + "的制作技艺主要受到了西方文化的影响，融合了多种风格。"),
        QuizOption("d", a.name + "是皇家专用的礼器，象征着皇权和地位。") ],
      "a",
      "正确答案是选项A。" + a.name + "是" + era + "的文物，" + a.description
        + "这件文物的发现和保存对于我们了解" + era + "的文化和艺术有着重要的意义。")
  }

  /** The generic quizzes of `ids`, in order. */
  function GenericQuizzes(ids: seq<string>, m: map<string, Artifact>): (r: seq<Quiz>)
    requires forall id :: id in ids ==> id in m
    ensures |r| == |ids|
    ensures forall k :: 0 <= k < |ids| ==> r[k] == GenericQuiz(ids[k], m[ids[k]])
  {
    if ids == [] then []
    else
      var k := |ids| - 1;
      GenericQuizzes(ids[..k], m) + [GenericQuiz(ids[k], m[ids[k]])]
  }

  /** The loop of `add_missing_quizzes`: a generic quiz for each missing id,
      taken in the unspecified order of a Python set; `added` records that
      order. */
  method AppendGenericQuizzes(missing: set<string>, idToArtifact: map<string, Artifact>, quizzes: seq<Quiz>)
    returns (result: seq<Quiz>, ghost added: seq<string>)
    requires missing <= idToArtifact.Keys
    ensures Distinct(added) && (forall id :: id in added <==> id in missing)
    ensures result == quizzes + GenericQuizzes(added, idToArtifact)
  {
    var rest := missing;
    result := quizzes;
    added := [];
    while rest != {}
      invariant rest <= missing
      invariant forall id :: id in added <==> id in missing && id !in rest
      invariant Distinct(added)
      invariant result == quizzes + GenericQuizzes(added, idToArtifact)
      decreases |rest|
    {
      var id :| id in rest;
      result := result + [GenericQuiz(id, idToArtifact[id])];
      assert (added + [id])[..|added|] == added;
      added := added + [id];
      rest := rest - {id};
    }
  }

  /** The ids of artifacts that no quiz refers to. */
  function MissingIds(artifacts: seq<Artifact>, quizzes: seq<Quiz>): set<string> {
    ArtifactIdSet(artifacts) - QuizArtifactIds(quizzes)
  }

  /** `add_missing_quizzes`: one generic quiz is appended for every artifact
      id that no quiz refers to, in the unspecified order of a Python set;
      `written` says whether the quiz file is written. */
  method AddMissingQuizzes(artifacts: seq<Artifact>, quizzes: seq<Quiz>) returns (result: seq<Quiz>, written: bool)
    ensures written <==> MissingIds(artifacts, quizzes) != {}
    ensures !written ==> result == quizzes
    ensures |result| == |quizzes| + |MissingIds(artifacts, quizzes)|
    ensures result[..|quizzes|] == quizzes
    ensures forall i :: |quizzes| <= i < |result| ==>
              var id := result[i].artifactId;
              id in MissingIds(artifacts, quizzes) && id in IdToArtifact(artifacts)
              && result[i] == GenericQuiz(id, IdToArtifact(artifacts)[id])
    ensures forall i, j :: |quizzes| <= i < j < |result| ==> result[i].artifactId != result[j].artifactId
    ensures forall a :: a in artifacts ==> exists q :: q in result && q.artifactId == a.id
  {
    var missing := MissingIds(artifacts, quizzes);
    written := missing != {};
    result := quizzes;
    // with no id missing the source returns the quizzes unchanged
    if written {
      var idToArtifact := IdToArtifact(artifacts);
      MissingMapped(artifacts, quizzes);
      ghost var added;
      result, added := AppendGenericQuizzes(missing, idToArtifact, quizzes);
      AppendedQuizzes(missing, idToArtifact, quizzes, added, result);
    }
    EveryArtifactCovered(artifacts, quizzes, result);
  }

  /** Every missing id is a key of the id map. */
  lemma MissingMapped(artifacts: seq<Artifact>, quizzes: seq<Quiz>)
    ensures MissingIds(artifacts, quizzes) <= IdToArtifact(artifacts).Keys
  {
    forall id | id in MissingIds(artifacts, quizzes)
      ensures id in IdToArtifact(artifacts)
    {
      IdMapped(artifacts, id);
    }
  }

  /** What appending one generic quiz per missing id, in any order, gives. */
  lemma AppendedQuizzes(missing: set<string>, m: map<string, Artifact>, quizzes: seq<Quiz>,
                        added: seq<string>, result: seq<Quiz>)
    requires missing <= m.Keys
    requires Distinct(added) && forall id :: id in added <==> id in missing
    requires result == quizzes + GenericQuizzes(added, m)
    ensures |result| == |quizzes| + |missing|
    ensures result[..|quizzes|] == quizzes
    ensures forall i :: |quizzes| <= i < |result| ==>
              result[i].artifactId in missing && result[i].artifactId in m
              && result[i] == GenericQuiz(result[i].artifactId, m[result[i].artifactId])
    ensures forall i, j :: |quizzes| <= i < j < |result| ==> result[i].artifactId != result[j].artifactId
    ensures forall id :: id in missing ==> exists i :: |quizzes| <= i < |result| && result[i].artifactId == id
  {
    assert missing == set id | id in added;
    DistinctSetSize(added);
    var made := GenericQuizzes(added, m);
    assert result[..|quizzes|] == quizzes;
    assert forall i :: |quizzes| <= i < |result| ==> result[i] == made[i - |quizzes|];
    forall id | id in missing
      ensures exists i :: |quizzes| <= i < |result| && result[i].artifactId == id
    {
      var k :| 0 <= k < |added| && added[k] == id;
      assert result[|quizzes| + k].artifactId == id;
    }
  }

  /** Once every missing id has a new quiz, every artifact has a quiz. */
  lemma EveryArtifactCovered(artifacts: seq<Artifact>, quizzes: seq<Quiz>, result: seq<Quiz>)
    requires |quizzes| <= |result| && result[..|quizzes|] == quizzes
    requires forall id :: id in MissingIds(artifacts, quizzes) ==>
               exists i :: |quizzes| <= i < |result| && result[i].artifactId == id
    ensures forall a :: a in artifacts ==> exists q :: q in result && q.artifactId == a.id
  {
    forall a | a in artifacts
      ensures exists q :: q in result && q.artifactId == a.id
    {
      assert a.id in ArtifactIdSet(artifacts);
      if a.id !in QuizArtifactIds(quizzes) {
        assert a.id in MissingIds(artifacts, quizzes);
        var i :| |quizzes| <= i < |result| && result[i].artifactId == a.id;
        assert result[i] in result;
      } else {
        var q :| q in quizzes && q.artifactId == a.id;
        var k := IndexIn(quizzes, q);
        assert result[k] == q;
      }
    }
  }

  /** The position of an element of a sequence. */
  function IndexIn<T(==)>(s: seq<T>, x: T): (i: nat)
    requires x in s
    ensures i < |s| && s[i] == x
  {
    if s[0] == x then 0 else 1 + IndexIn(s[1..], x)
  }

  /** `main`: the names are fixed first, and the quizzes completed against
      the fixed artifacts. */
  method FixAndComplete(a: array<Artifact>, quizzes: seq<Quiz>) returns (result: seq<Quiz>, written: bool)
    modifies a
    ensures forall q :: 0 <= q < a.Length ==> a[q] == FixedAt(old(a[..]), q)
    ensures forall x :: x in a[..] ==> exists q :: q in result && q.artifactId == x.id
  {
    FixDuplicateNames(a);
    result, written := AddMissingQuizzes(a[..], quizzes);
  }
}
