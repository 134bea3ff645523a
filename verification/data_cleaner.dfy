/** The record cleaner (`data_processing/data_cleaner.py`): text
    normalisation, id derivation, image-URL validation and the two cleaning
    passes over artifact and quiz records. Raw records come from JSON, so a
    field may be absent, a string, or some other value. */
module DataCleaner {
  import opened Wrappers
  import opened Seqs
  import opened Strings

  /** A raw field: absent from the record, a string, or a value of another
      type, which is hashable (a number, `null`, a boolean) or not (a list,
      an object). */
  datatype Field = Absent | Str(s: string) | Other(hashable: bool)

  // ----------------------------------------------------------------- text

  /** A cleaned text: no whitespace at either end, whitespace only as
      single spaces between words. */
  predicate SingleSpaced(t: string) {
    (t == [] || (!IsPyWhitespace(t[0]) && !IsPyWhitespace(t[|t| - 1])))
    && (forall k :: 0 <= k < |t| ==> t[k] == ' ' || !IsPyWhitespace(t[k]))
    && (forall k :: 0 <= k < |t| - 1 ==> !(t[k] == ' ' && t[k + 1] == ' '))
  }

  /** Words joined by single spaces are single-spaced. */
  lemma {:induction false} JoinWordsSingleSpaced(ws: seq<string>)
    requires forall k :: 0 <= k < |ws| ==> IsWord(ws[k])
    ensures SingleSpaced(Join(ws, " "))
    ensures ws != [] ==> Join(ws, " ") != []
  {
    if |ws| == 1 {
      assert Join(ws, " ") == ws[0];
    } else if |ws| > 1 {
      var w, tail := ws[0], Join(ws[1..], " ");
      JoinWordsSingleSpaced(ws[1..]);
      var t := w + " " + tail;
      assert Join(ws, " ") == t;
      assert IsWord(w);
      assert forall k :: 0 <= k < |w| ==> t[k] == w[k];
      assert t[|w|] == ' ';
      assert forall k :: |w| < k < |t| ==> t[k] == tail[k - |w| - 1];
      assert t[|t| - 1] == tail[|tail| - 1];
    }
  }

  /** A single-spaced text holds no line break, carriage return or tab. */
  lemma SingleSpacedHasNo(t: string, c: char)
    requires SingleSpaced(t) && IsPyWhitespace(c) && c != ' '
    ensures !Contains(t, [c])
  {
  }

  /** `_clean_text` on a string: split on whitespace and rejoin with single
      spaces, replace line breaks, carriage returns and tabs by spaces, and
      strip. The replacements and the strip change nothing: the result is
      the words of the input joined by single spaces. */
  function CleanText(text: string): (r: string)
    ensures r == Join(Words(text), " ")
  {
    var joined := Join(Words(text), " ");
    JoinWordsSingleSpaced(Words(text));
    SingleSpacedHasNo(joined, '\n');
    ReplaceAllAbsent(joined, "\n", " ");
    SingleSpacedHasNo(joined, '\r');
    ReplaceAllAbsent(joined, "\r", " ");
    SingleSpacedHasNo(joined, '\t');
    ReplaceAllAbsent(joined, "\t", " ");
    StripNoEnds(joined, IsPyWhitespace);
    PyStrip(ReplaceAll(ReplaceAll(ReplaceAll(joined, "\n", " "), "\r", " "), "\t", " "))
  }

  /** A cleaned text has no whitespace at its ends, no line break,
      carriage return or tab, and no two spaces in a row. */
  lemma CleanTextShape(text: string)
    ensures SingleSpaced(CleanText(text))
    ensures '\n' !in CleanText(text) && '\r' !in CleanText(text) && '\t' !in CleanText(text)
  {
    var joined := Join(Words(text), " ");
    JoinWordsSingleSpaced(Words(text));
    SingleSpacedHasNo(joined, '\n');
    SingleSpacedHasNo(joined, '\r');
    SingleSpacedHasNo(joined, '\t');
  }

  /** Cleaning twice is cleaning once. */
  lemma CleanTextIdempotent(text: string)
    ensures CleanText(CleanText(text)) == CleanText(text)
  {
    WordsOfJoin(Words(text));
  }

  /** `_clean_text` on a raw field: anything but a string is "". An absent
      field reads as "". */
  function CleanField(f: Field): (r: string)
    ensures SingleSpaced(r)
    ensures !f.Str? ==> r == ""
    ensures f.Str? ==> r == Join(Words(f.s), " ")
  {
    match f
    case Str(s) =>
      CleanTextShape(s);
      CleanText(s)
    case _ => ""
  }

  // ------------------------------------------------------------------- id

  /** Python `s.replace(c, d)` for single characters maps each character. */
  lemma {:induction false} ReplaceCharMaps(s: string, c: char, d: char)
    ensures |ReplaceAll(s, [c], [d])| == |s|
    ensures forall i :: 0 <= i < |s| ==> ReplaceAll(s, [c], [d])[i] == (if s[i] == c then d else s[i])
    decreases |s|
  {
    if |s| >= 1 {
      ReplaceCharMaps(s[1..], c, d);
      assert s[..1] == [s[0]];
      var r := ReplaceAll(s, [c], [d]);
      assert r == [if s[0] == c then d else s[0]] + ReplaceAll(s[1..], [c], [d]);
    }
  }

  /** `_generate_id`: lower-case and every space replaced by "_". */
  function GenerateId(text: string): (r: string)
    ensures |r| == |text|
    ensures forall i :: 0 <= i < |text| ==> r[i] == (if text[i] == ' ' then '_' else LowerChar(text[i]))
    ensures ' ' !in r
  {
    ReplaceCharMaps(Lower(text), ' ', '_');
    ReplaceAll(Lower(text), " ", "_")
  }

  /** An id is its own id. */
  lemma GenerateIdIdempotent(text: string)
    ensures GenerateId(GenerateId(text)) == GenerateId(text)
  {
  }

  // ------------------------------------------------------------ image URLs

  /** `_validate_image_url`, with the HEAD request as `reachable` (status
      200 and no exception): an empty or missing URL is "" without a
      request; otherwise the URL itself or "". */
  function ValidateImageUrl(url: Field, reachable: string -> bool): (r: string)
    ensures url.Absent? || url.Other? || url == Str("") ==> r == ""
    ensures url.Str? && url.s != "" ==> (r == url.s <==> reachable(url.s))
    ensures r == "" || (url.Str? && r == url.s)
  {
    match url
    case Str(s) => if s == "" then "" else if reachable(s) then s else ""
    case _ => ""
  }

  // -------------------------------------------------------------- records

  datatype RawArtifact = RawArtifact(
    name: Field, category: Field, period: Field, image: Field, largeImage: Field,
    description: Field, location: Field, interestingFacts: Field, culturalContext: Field)

  datatype CleanArtifact = CleanArtifact(
    id: string, name: string, category: string, period: string, image: string,
    largeImage: string, description: string, location: string,
    interestingFacts: string, culturalContext: string)

  /** `_generate_id` receives the raw name: absent reads as "", and a
      value that is not a string makes `lower()` raise. */
  function RawText(f: Field): Option<string> {
    match f
    case Absent => Some("")
    case Str(s) => Some(s)
    case Other(_) => None
  }

  /** One cleaned artifact: the id from the raw name, every text field
      cleaned and both image URLs validated; None when the name is not a
      string, where deriving the id raises. */
  function CleanArtifactOf(item: RawArtifact, reachable: string -> bool): (r: Option<CleanArtifact>)
    ensures r.Some? <==> !item.name.Other?
  {
    match RawText(item.name)
    case None => None
    case Some(name) =>
      Some(CleanArtifact(
        id := GenerateId(name),
        name := CleanField(item.name),
        category := CleanField(item.category),
        period := CleanField(item.period),
        image := ValidateImageUrl(item.image, reachable),
        largeImage := ValidateImageUrl(item.largeImage, reachable),
        description := CleanField(item.description),
        location := CleanField(item.location),
        interestingFacts := CleanField(item.interestingFacts),
        culturalContext := CleanField(item.culturalContext)))
  }

  /** A cleaned artifact has an id without spaces derived from its raw
      name, single-spaced text and image URLs that are either empty or the
      raw ones. */
  lemma CleanArtifactShape(item: RawArtifact, reachable: string -> bool)
    requires !item.name.Other?
    ensures var c := CleanArtifactOf(item, reachable).value;
            c.id == GenerateId(RawText(item.name).value) && ' ' !in c.id
            && SingleSpaced(c.name) && SingleSpaced(c.category) && SingleSpaced(c.period)
            && SingleSpaced(c.description) && SingleSpaced(c.location)
            && SingleSpaced(c.interestingFacts) && SingleSpaced(c.culturalContext)
            && (c.image == "" || Str(c.image) == item.image)
            && (c.largeImage == "" || Str(c.largeImage) == item.largeImage)
  {
  }

  /** `f` applied to every element, in order; None as soon as one
      application gives None. */
  function AllSome<A, B>(f: A -> Option<B>, xs: seq<A>): Option<seq<B>> {
    if xs == [] then Some([])
    else
      var k := |xs| - 1;
      match AllSome(f, xs[..k])
      case None => None
      case Some(prefix) =>
        match f(xs[k])
        case None => None
        case Some(y) => Some(prefix + [y])
  }

  lemma {:induction false} AllSomeShape<A, B>(f: A -> Option<B>, xs: seq<A>)
    ensures AllSome(f, xs).None? <==> exists i :: 0 <= i < |xs| && f(xs[i]).None?
    ensures AllSome(f, xs).Some? ==>
              |AllSome(f, xs).value| == |xs| && forall i :: 0 <= i < |xs| ==> f(xs[i]) == Some(AllSome(f, xs).value[i])
  {
    if xs != [] {
      var k := |xs| - 1;
      AllSomeShape(f, xs[..k]);
      assert forall i :: 0 <= i < k ==> xs[..k][i] == xs[i];
      if AllSome(f, xs[..k]).Some? && f(xs[k]).Some? {
        var prefix := AllSome(f, xs[..k]).value;
        var all := AllSome(f, xs).value;
        assert all == prefix + [f(xs[k]).value];
        assert forall i :: 0 <= i < k ==> all[i] == prefix[i];
      }
    }
  }

  /** Once a prefix gives None, every longer prefix does. */
  lemma {:induction false} AllSomeNoneStays<A, B>(f: A -> Option<B>, xs: seq<A>, k: nat)
    requires k <= |xs| && AllSome(f, xs[..k]).None?
    ensures AllSome(f, xs).None?
  {
    if k < |xs| {
      var n := |xs| - 1;
      assert xs[..n][..k] == xs[..k];
      AllSomeNoneStays(f, xs[..n], k);
    } else {
      assert xs[..k] == xs;
    }
  }

  function CleanWith(reachable: string -> bool): RawArtifact -> Option<CleanArtifact> {
    item => CleanArtifactOf(item, reachable)
  }

  /** The pass fails exactly when some name is not a string; otherwise it
      yields one cleaned record per input, in input order. */
  lemma CleanAllShape(raw: seq<RawArtifact>, reachable: string -> bool)
    ensures AllSome(CleanWith(reachable), raw).None? <==> exists i :: 0 <= i < |raw| && raw[i].name.Other?
    ensures AllSome(CleanWith(reachable), raw).Some? ==>
              |AllSome(CleanWith(reachable), raw).value| == |raw|
              && forall i :: 0 <= i < |raw| ==> CleanArtifactOf(raw[i], reachable) == Some(AllSome(CleanWith(reachable), raw).value[i])
  {
    AllSomeShape(CleanWith(reachable), raw);
  }

  /** `clean_artifact_data`: one cleaned record per input, in input order;
      a record whose name is not a string stops the pass with an error. */
  method CleanArtifactData(raw: seq<RawArtifact>, reachable: string -> bool) returns (r: Option<seq<CleanArtifact>>)
    ensures r == AllSome(CleanWith(reachable), raw)
  {
    var clean := CleanWith(reachable);
    var cleaned: seq<CleanArtifact> := [];
    var k := 0;
    while k < |raw|
      invariant 0 <= k <= |raw|
      invariant AllSome(clean, raw[..k]) == Some(cleaned)
    {
      assert raw[..k + 1][..k] == raw[..k];
      var c := CleanArtifactOf(raw[k], reachable);
      assert c == clean(raw[k]);
      if c.None? {
        AllSomeNoneStays(clean, raw, k + 1);
        return None;
      }
      cleaned := cleaned + [c.value];
      k := k + 1;
    }
    assert raw[..k] == raw;
    return Some(cleaned);
  }

  datatype RawOption = RawOption(id: Field, text: Field)

  datatype RawQuiz = RawQuiz(
    id: Field, artifactId: Field, question: Field, options: seq<RawOption>,
    correctAnswer: Field, explanation: Field)

  datatype CleanOption = CleanOption(id: Field, text: string)

  datatype CleanQuiz = CleanQuiz(
    id: string, artifactId: string, question: string, options: seq<CleanOption>,
    correctAnswer: Field, explanation: string)

  /** The quiz's artifact id is a list or an object, which the set lookup
      rejects by raising. */
  predicate Unhashable(q: RawQuiz) {
    q.artifactId.Other? && !q.artifactId.hashable
  }

  /** The quiz names one of the given artifact ids; an artifact id that is
      not a string is never among them. */
  predicate Linked(ids: set<string>, q: RawQuiz) {
    q.artifactId.Str? && q.artifactId.s in ids
  }

  function LinkedTo(ids: set<string>): RawQuiz -> bool {
    (q: RawQuiz) => Linked(ids, q)
  }

  /** An option keeps its id (absent reads as "") and has its text cleaned. */
  function CleanOptionOf(o: RawOption): CleanOption {
    CleanOption(if o.id.Absent? then Str("") else o.id, CleanField(o.text))
  }

  /** Every option of a quiz cleaned, in order. */
  function CleanOptions(os: seq<RawOption>): (r: seq<CleanOption>)
    ensures |r| == |os|
    ensures forall i :: 0 <= i < |os| ==> r[i] == CleanOptionOf(os[i])
  {
    if os == [] then [] else [CleanOptionOf(os[0])] + CleanOptions(os[1..])
  }

  /** One cleaned quiz: the id from the raw question, the artifact id and
      the answer kept (an absent answer reads as ""), every option kept with
      its text cleaned; None when the question is not a string, where
      deriving the id raises (or, for a quiz that was not kept, when its
      artifact id is not a string). */
  function CleanQuizOf(q: RawQuiz): (r: Option<CleanQuiz>)
    ensures r.Some? <==> q.artifactId.Str? && !q.question.Other?
  {
    match (q.artifactId, RawText(q.question))
    case (Str(artifactId), Some(question)) =>
      Some(CleanQuiz(
        id := GenerateId(question),
        artifactId := artifactId,
        question := CleanField(q.question),
        options := CleanOptions(q.options),
        correctAnswer := if q.correctAnswer.Absent? then Str("") else q.correctAnswer,
        explanation := CleanField(q.explanation)))
    case _ => None
  }

  /** A cleaned quiz keeps its artifact id and its number of options, has
      an id without spaces and single-spaced texts. */
  lemma CleanQuizShape(q: RawQuiz)
    ensures CleanQuizOf(q).Some? ==>
            var c := CleanQuizOf(q).value;
            c.artifactId == q.artifactId.s && ' ' !in c.id && |c.options| == |q.options|
            && SingleSpaced(c.question) && SingleSpaced(c.explanation)
            && forall i :: 0 <= i < |c.options| ==> SingleSpaced(c.options[i].text)
  {
  }

  function ArtifactIds(artifacts: seq<CleanArtifact>): set<string> {
    set a | a in artifacts :: a.id
  }

  /** `clean_quiz_data`: keeps, in order, exactly the quizzes naming a
      known artifact and cleans each; an artifact id that cannot be looked
      up in a set, or a kept quiz whose question is not a string, stops the
      pass with an error. */
  method CleanQuizData(raw: seq<RawQuiz>, artifacts: seq<CleanArtifact>) returns (r: Option<seq<CleanQuiz>>)
    ensures var kept := Filter(LinkedTo(ArtifactIds(artifacts)), raw);
            r.None? <==> (exists i :: 0 <= i < |raw| && Unhashable(raw[i]))
                         || exists i :: 0 <= i < |kept| && kept[i].question.Other?
    ensures var kept := Filter(LinkedTo(ArtifactIds(artifacts)), raw);
            r.Some? ==> |r.value| == |kept|
                        && forall i :: 0 <= i < |kept| ==> CleanQuizOf(kept[i]) == Some(r.value[i])
  {
    var ids := ArtifactIds(artifacts);
    var cleaned: seq<CleanQuiz> := [];
    var k := 0;
    while k < |raw|
      invariant 0 <= k <= |raw|
      invariant forall i :: 0 <= i < k ==> !Unhashable(raw[i])
      invariant |cleaned| == |Filter(LinkedTo(ids), raw[..k])|
      invariant forall i :: 0 <= i < |cleaned| ==>
                  CleanQuizOf(Filter(LinkedTo(ids), raw[..k])[i]) == Some(cleaned[i])
    {
      var item := raw[k];
      if item.artifactId.Other? && !item.artifactId.hashable {
        assert Unhashable(raw[k]);
        return None;
      }
      FilterSnoc(LinkedTo(ids), raw[..k], item);
      assert raw[..k + 1] == raw[..k] + [item];
      if !(item.artifactId.Str? && item.artifactId.s in ids) {
        k := k + 1;
        continue;
      }
      var c := CleanQuizOf(item);
      if c.None? {
        KeptLater(LinkedTo(ids), raw, k);
        assert exists i :: 0 <= i < |Filter(LinkedTo(ids), raw)| && Filter(LinkedTo(ids), raw)[i].question.Other?;
        return None;
      }
      cleaned := cleaned + [c.value];
      k := k + 1;
    }
    assert raw[..k] == raw;
    return Some(cleaned);
  }

  /** A quiz the filter keeps is kept in the filtered whole input too. */
  lemma KeptLater(f: RawQuiz -> bool, raw: seq<RawQuiz>, k: nat)
    requires k < |raw| && f(raw[k])
    ensures exists i :: 0 <= i < |Filter(f, raw)| && Filter(f, raw)[i] == raw[k]
  {
    var front, back := raw[..k], raw[k + 1..];
    assert raw == (front + [raw[k]]) + back;
    FilterAppend(f, front + [raw[k]], back);
    FilterSnoc(f, front, raw[k]);
    var j := |Filter(f, front)|;
    assert Filter(f, raw)[j] == raw[k];
  }

  /** The cleaned quizzes all name a cleaned artifact, and every quiz
      naming one is kept. */
  lemma CleanQuizzesLinked(raw: seq<RawQuiz>, artifacts: seq<CleanArtifact>)
    ensures forall q :: q in Filter(LinkedTo(ArtifactIds(artifacts)), raw) <==>
              q in raw && q.artifactId.Str? && exists a :: a in artifacts && a.id == q.artifactId.s
  {
  }
}
