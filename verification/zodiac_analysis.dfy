/** The zodiac tagging script (`data_processing/zodiac/analyze_zodiac_artifacts.py`):
    artifacts are sent in batches to a language model that names the
    zodiac signs each one relates to, with a confidence; confident answers
    are collected per sign and as a list of tagged artifacts, then the
    per-sign lists are de-duplicated and counted. The model call is the
    parameter `gpt`; the prompt text, the pause between calls, the progress
    bars and the file output are not modelled. Confidences are `real`s. */
module ZodiacAnalysis {
  import opened Wrappers
  import opened Seqs
  import opened Catalog

  /** The keys of the script's sign-name table, in its order. */
  const Signs: seq<string> :=
    ["rat", "ox", "tiger", "rabbit", "dragon", "snake", "horse", "goat", "monkey", "rooster", "dog", "pig"]

  /** The Chinese name of each sign. */
  const ChineseNames: map<string, string> :=
    map["rat" := "鼠", "ox" := "牛", "tiger" := "虎", "rabbit" := "兔", "dragon" := "龙", "snake" := "蛇",
        "horse" := "马", "goat" := "羊", "monkey" := "猴", "rooster" := "鸡", "dog" := "狗", "pig" := "猪"]

  /** Twelve different signs, exactly the keys of the name table. */
  lemma SignTable()
    ensures |Signs| == 12 && Distinct(Signs)
    ensures ChineseNames.Keys == set z | z in Signs
  {
  }

  // --------------------------------------------------------------- answers

  /** The parsed JSON answer; a field the answer leaves out is `None`. */
  datatype Analysis = Analysis(relatedZodiacs: Option<seq<string>>, confidence: Option<real>, reasoning: Option<string>)

  /** What `analyze_artifact_with_gpt` got: an answer, or the message of the
      exception raised by the call or by the parse. */
  datatype Reply = Answered(analysis: Analysis) | Failed(error: string)

  /** `result.get("related_zodiacs", [])`. */
  function Related(x: Analysis): seq<string> {
    x.relatedZodiacs.GetOr([])
  }

  /** `result.get("confidence", 0)`. */
  function Confidence(x: Analysis): real {
    x.confidence.GetOr(0.0)
  }

  /** The result of `analyze_artifact_with_gpt`: a failure becomes an answer
      with no sign and confidence 0. */
  function AnalysisOf(reply: Reply): (x: Analysis)
    ensures reply.Failed? ==> Confidence(x) == 0.0 && Related(x) == []
    ensures reply.Answered? ==> x == reply.analysis
  {
    match reply
    case Answered(x) => x
    case Failed(e) => Analysis(Some([]), Some(0.0), Some("分析失败: " + e))
  }

  /** An answer is kept when its confidence reaches the threshold and it
      names at least one sign. */
  function Recorded(x: Analysis, threshold: real): (b: bool)
    ensures b ==> x.relatedZodiacs.Some? && x.relatedZodiacs.value != []
    ensures x.confidence.None? ==> (b <==> threshold <= 0.0 && Related(x) != [])
  {
    Confidence(x) >= threshold && Related(x) != []
  }

  /** A failed call is never kept, whatever the threshold. */
  lemma FailureNeverRecorded(error: string, threshold: real)
    ensures !Recorded(AnalysisOf(Failed(error)), threshold)
  {
  }

  // --------------------------------------------------------------- entries

  /** `[ZODIAC_CHINESE_NAMES[z] for z in zodiacs if z in ZODIAC_CHINESE_NAMES]`. */
  function KnownNames(zodiacs: seq<string>): (r: seq<string>)
    ensures |r| <= |zodiacs|
    ensures forall i :: 0 <= i < |r| ==> r[i] in ChineseNames.Values
    ensures (forall i :: 0 <= i < |zodiacs| ==> zodiacs[i] !in ChineseNames) ==> r == []
    ensures (forall i :: 0 <= i < |zodiacs| ==> zodiacs[i] in ChineseNames) ==> |r| == |zodiacs|
  {
    if zodiacs == [] then []
    else
      var rest := KnownNames(zodiacs[1..]);
      if zodiacs[0] in ChineseNames then [ChineseNames[zodiacs[0]]] + rest else rest
  }

  /** A tagged artifact as written to `artifactsWithZodiac`. */
  datatype Entry = Entry(
    id: string, name: string, fullName: string, period: string, image: string, localImage: string,
    zodiacs: seq<string>, zodiacNames: seq<string>, confidence: real, reasoning: string)

  function EntryOf(a: Artifact, x: Analysis): Entry {
    Entry(a.id, a.name, a.fullName, a.period, a.image, a.localImage,
          Related(x), KnownNames(Related(x)), Confidence(x), x.reasoning.GetOr(""))
  }

  /** The tagged artifacts, in list order. */
  function Entries(xs: seq<Artifact>, gpt: Artifact -> Reply, threshold: real): (r: seq<Entry>)
    ensures |r| <= |xs|
  {
    if xs == [] then []
    else
      var k := |xs| - 1;
      var x := AnalysisOf(gpt(xs[k]));
      Entries(xs[..k], gpt, threshold) + (if Recorded(x, threshold) then [EntryOf(xs[k], x)] else [])
  }

  /** Every entry is that of a kept answer, and every kept answer has its
      entry, with the names of only the known signs. */
  lemma {:induction false} EntriesExactlyRecorded(xs: seq<Artifact>, gpt: Artifact -> Reply, threshold: real)
    ensures forall e :: e in Entries(xs, gpt, threshold) ==>
              exists i :: 0 <= i < |xs| && Recorded(AnalysisOf(gpt(xs[i])), threshold)
                          && e == EntryOf(xs[i], AnalysisOf(gpt(xs[i])))
    ensures forall i :: 0 <= i < |xs| && Recorded(AnalysisOf(gpt(xs[i])), threshold) ==>
              EntryOf(xs[i], AnalysisOf(gpt(xs[i]))) in Entries(xs, gpt, threshold)
  {
    if xs != [] {
      var k := |xs| - 1;
      EntriesExactlyRecorded(xs[..k], gpt, threshold);
      assert forall i :: 0 <= i < k ==> xs[..k][i] == xs[i];
    }
  }

  /** An artifact whose confident answer names only unknown signs is still
      listed, with no sign name, and joins no per-sign list. */
  lemma UnknownSignsStillListed(m: map<string, seq<string>>, a: Artifact, x: Analysis)
    requires Related(x) != [] && forall i :: 0 <= i < |Related(x)| ==> Related(x)[i] !in ChineseNames
    ensures EntryOf(a, x).zodiacNames == []
    ensures AddIds(m, Related(x), a.id) == m
  {
    UnknownSignsIgnored(m, Related(x), a.id);
  }

  // ------------------------------------------------------- per-sign lists

  /** The dictionary the script starts from: every sign with an empty list. */
  function InitialLists(): (m: map<string, seq<string>>)
    ensures m.Keys == ChineseNames.Keys
    ensures forall z :: z in m ==> m[z] == []
  {
    map z | z in ChineseNames :: []
  }

  /** The loop over the signs of one answer: the id is appended to the list
      of each known sign, once per time the sign is named. */
  function AddIds(m: map<string, seq<string>>, zodiacs: seq<string>, id: string): (r: map<string, seq<string>>)
    ensures m.Keys == ChineseNames.Keys ==> r.Keys == m.Keys
  {
    if zodiacs == [] then m
    else
      var k := |zodiacs| - 1;
      var prev := AddIds(m, zodiacs[..k], id);
      var z := zodiacs[k];
      if z in ChineseNames then prev[z := (if z in prev then prev[z] else []) + [id]] else prev
  }

  lemma {:induction false} UnknownSignsIgnored(m: map<string, seq<string>>, zodiacs: seq<string>, id: string)
    requires forall i :: 0 <= i < |zodiacs| ==> zodiacs[i] !in ChineseNames
    ensures AddIds(m, zodiacs, id) == m
  {
    if zodiacs != [] {
      UnknownSignsIgnored(m, zodiacs[..|zodiacs| - 1], id);
    }
  }

  /** Appending ids only adds the given id, and only to the lists of the
      signs named; it adds it to each known sign named. */
  lemma {:induction false} AddIdsEffect(m: map<string, seq<string>>, zodiacs: seq<string>, id: string)
    requires m.Keys == ChineseNames.Keys
    ensures forall z, y :: z in m && y in AddIds(m, zodiacs, id)[z] ==> y in m[z] || (y == id && z in zodiacs)
    ensures forall z :: z in m ==> forall y :: y in m[z] ==> y in AddIds(m, zodiacs, id)[z]
    ensures forall z :: z in zodiacs && z in ChineseNames ==> id in AddIds(m, zodiacs, id)[z]
  {
    if zodiacs != [] {
      var k := |zodiacs| - 1;
      AddIdsEffect(m, zodiacs[..k], id);
      assert forall z :: z in zodiacs <==> z in zodiacs[..k] || z == zodiacs[k];
    }
  }

  /** The per-sign lists after the given artifacts were analysed. */
  function SignLists(xs: seq<Artifact>, gpt: Artifact -> Reply, threshold: real): (m: map<string, seq<string>>)
    ensures m.Keys == ChineseNames.Keys
  {
    if xs == [] then InitialLists()
    else
      var k := |xs| - 1;
      var x := AnalysisOf(gpt(xs[k]));
      var prev := SignLists(xs[..k], gpt, threshold);
      if Recorded(x, threshold) then AddIds(prev, Related(x), xs[k].id) else prev
  }

  /** A sign's list holds exactly the ids of the artifacts whose kept answer
      names that sign. */
  lemma SignListsExact(xs: seq<Artifact>, gpt: Artifact -> Reply, threshold: real)
    ensures forall z, id :: z in ChineseNames && id in SignLists(xs, gpt, threshold)[z] ==>
              exists i :: 0 <= i < |xs| && xs[i].id == id && Recorded(AnalysisOf(gpt(xs[i])), threshold)
                          && z in Related(AnalysisOf(gpt(xs[i])))
    ensures forall i, z :: 0 <= i < |xs| && Recorded(AnalysisOf(gpt(xs[i])), threshold)
                           && z in Related(AnalysisOf(gpt(xs[i]))) && z in ChineseNames ==>
              xs[i].id in SignLists(xs, gpt, threshold)[z]
  {
    SignListsSound(xs, gpt, threshold);
    SignListsComplete(xs, gpt, threshold);
  }

  /** Every id in a sign's list comes from an artifact whose kept answer
      names that sign. */
  lemma {:induction false} SignListsSound(xs: seq<Artifact>, gpt: Artifact -> Reply, threshold: real)
    ensures forall z, id :: z in ChineseNames && id in SignLists(xs, gpt, threshold)[z] ==>
              exists i :: 0 <= i < |xs| && xs[i].id == id && Recorded(AnalysisOf(gpt(xs[i])), threshold)
                          && z in Related(AnalysisOf(gpt(xs[i])))
  {
    if xs != [] {
      var k := |xs| - 1;
      SignListsSound(xs[..k], gpt, threshold);
      assert forall i :: 0 <= i < k ==> xs[..k][i] == xs[i];
      var x := AnalysisOf(gpt(xs[k]));
      if Recorded(x, threshold) {
        AddIdsEffect(SignLists(xs[..k], gpt, threshold), Related(x), xs[k].id);
      }
    }
  }

  /** Every artifact whose kept answer names a sign has its id in that
      sign's list. */
  lemma {:induction false} SignListsComplete(xs: seq<Artifact>, gpt: Artifact -> Reply, threshold: real)
    ensures forall i, z :: 0 <= i < |xs| && Recorded(AnalysisOf(gpt(xs[i])), threshold)
                           && z in Related(AnalysisOf(gpt(xs[i]))) && z in ChineseNames ==>
              xs[i].id in SignLists(xs, gpt, threshold)[z]
  {
    if xs != [] {
      var k := |xs| - 1;
      SignListsComplete(xs[..k], gpt, threshold);
      assert forall i :: 0 <= i < k ==> xs[..k][i] == xs[i];
      var x := AnalysisOf(gpt(xs[k]));
      if Recorded(x, threshold) {
        AddIdsEffect(SignLists(xs[..k], gpt, threshold), Related(x), xs[k].id);
      }
    }
  }

  /** `list(set(ids))` for every sign; the order of a Python set is not
      specified, and the model keeps the order of first appearance. */
  function DedupLists(m: map<string, seq<string>>): (r: map<string, seq<string>>)
    ensures r.Keys == m.Keys
    ensures forall z :: z in r ==> Distinct(r[z]) && forall id :: id in r[z] <==> id in m[z]
  {
    map z | z in m :: Dedup(m[z])
  }

  // ----------------------------------------------------------------- batches

  /** Python's `//`, which rounds toward minus infinity for either sign of
      the divisor. */
  function FloorDiv(a: int, b: int): (q: int)
    requires b != 0
    ensures b > 0 ==> b * q <= a < b * q + b
    ensures b < 0 ==> b * q + b < a <= b * q
  {
    if b > 0 then a / b else (-a) / (-b)
  }

  /** `(n + batch_size - 1) // batch_size`: the number of batches. */
  function BatchCount(n: nat, batchSize: int): (r: int)
    requires batchSize != 0
    ensures batchSize > 0 ==> 0 <= r <= n
  {
    if batchSize > 0 then
      BatchCountAtMost(n, batchSize);
      (n + batchSize - 1) / batchSize
    else FloorDiv(n + batchSize - 1, batchSize)
  }

  /** No more batches than artifacts, for a positive batch size. */
  lemma BatchCountAtMost(n: nat, b: int)
    requires b > 0
    ensures 0 <= (n + b - 1) / b <= n
  {
    var q, r := (n + b - 1) / b, (n + b - 1) % b;
    assert n + b - 1 == q * b + r && 0 <= r < b;
    if q > n {
      var d: nat := q - n - 1;
      MulDistributes(n + 1, d, b);
      MulDistributes(n, 1, b);
      assert d * b >= 0;
      assert n * b >= n by {
        MulDistributes(n, 0, b);
        MulAtLeastSelf(n, b);
      }
      assert false;
    }
  }

  /** Where a bound `i` of a Python slice of a length-`n` list falls: a
      negative bound counts from the end, and either is clamped to the list. */
  function SliceIndex(i: int, n: nat): (r: nat)
    ensures r <= n
    ensures 0 <= i <= n ==> r == i
  {
    if i < 0 then (if i + n < 0 then 0 else i + n)
    else if i < n then i else n
  }

  /** With a negative batch size there is a batch only for a list of at
      most one artifact, and every batch `artifacts[start:end]` is empty. */
  lemma NegativeBatchesEmpty(b: nat, n: nat, batchSize: int)
    requires batchSize < 0 && b < BatchCount(n, batchSize)
    ensures n <= 1
    ensures SliceIndex(b * batchSize, n) == 0
    ensures SliceIndex(Min(b * batchSize + batchSize, n), n) == 0
  {
    var k := -batchSize;
    var num := k + 1 - n;
    assert BatchCount(n, batchSize) == num / k;
    if n > 1 {
      assert num < k;
      DivBelowOne(num, k);
    }
    if b > 0 {
      MulNegative(b, batchSize);
    }
  }

  /** A numerator below the divisor has a quotient below one. */
  lemma DivBelowOne(a: int, k: int)
    requires 0 < k && a < k
    ensures a / k < 1
  {
    var q, r := a / k, a % k;
    assert a == k * q + r;
    if q >= 1 {
      MulAtLeast(k, q);
    }
  }

  lemma MulAtLeastSelf(n: nat, b: int)
    requires b >= 1
    ensures n * b >= n
  {
    assert n * b == n * (b - 1) + n;
  }

  lemma MulAtLeast(k: int, q: int)
    requires k > 0 && q >= 1
    ensures k * q >= k
  {
    assert k * q == k * (q - 1) + k;
  }

  lemma MulNegative(b: int, c: int)
    requires b >= 1 && c < 0
    ensures b * c <= c
  {
    assert b * c == (b - 1) * c + c;
  }

  /** The batches start below `n` and together reach exactly `n`: every
      artifact is in exactly one batch. */
  lemma BatchesCover(n: nat, batchSize: nat)
    requires batchSize > 0
    ensures BatchCount(n, batchSize) * batchSize >= n
    ensures BatchCount(n, batchSize) > 0 ==> (BatchCount(n, batchSize) - 1) * batchSize < n
  {
    var t := BatchCount(n, batchSize);
    var r := (n + batchSize - 1) % batchSize;
    assert n + batchSize - 1 == t * batchSize + r;
    if t > 0 {
      assert (t - 1) * batchSize == t * batchSize - batchSize;
    }
  }

  /** Batch `b` of the loop starts below `n`, and the next one starts one
      batch further. */
  lemma BatchStart(b: nat, n: nat, batchSize: nat)
    requires batchSize > 0 && b < BatchCount(n, batchSize)
    ensures b * batchSize < n
    ensures (b + 1) * batchSize == b * batchSize + batchSize
  {
    BatchesCover(n, batchSize);
    var t := BatchCount(n, batchSize);
    var d := t - 1 - b;
    MulDistributes(b, d, batchSize);
    MulDistributes(b, 1, batchSize);
    assert d * batchSize >= 0;
  }

  lemma MulDistributes(x: nat, y: nat, c: nat)
    ensures (x + y) * c == x * c + y * c
  {
  }

  function Min(a: int, b: int): int {
    if a < b then a else b
  }

  // ------------------------------------------------------------------ report

  datatype Stats = Stats(totalArtifacts: nat, totalZodiacArtifacts: nat, countByZodiac: map<string, nat>)

  datatype Report = Report(zodiacArtifacts: map<string, seq<string>>, artifactsWithZodiac: seq<Entry>, stats: Stats)

  /** The loop over the signs of one kept answer. */
  method AddToLists(m: map<string, seq<string>>, zodiacs: seq<string>, id: string) returns (r: map<string, seq<string>>)
    ensures r == AddIds(m, zodiacs, id)
  {
    r := m;
    var k := 0;
    while k < |zodiacs|
      invariant 0 <= k <= |zodiacs|
      invariant r == AddIds(m, zodiacs[..k], id)
    {
      assert zodiacs[..k + 1][..k] == zodiacs[..k];
      var z := zodiacs[k];
      if z in ChineseNames {
        r := r[z := (if z in r then r[z] else []) + [id]];
      }
      k := k + 1;
    }
    assert zodiacs[..k] == zodiacs;
  }

  /** The handling of one artifact: its answer is kept when confident and
      naming a sign. */
  method AnalyzeOne(artifacts: seq<Artifact>, p: nat, gpt: Artifact -> Reply, threshold: real,
                    lists: map<string, seq<string>>, withZodiac: seq<Entry>)
    returns (lists': map<string, seq<string>>, withZodiac': seq<Entry>)
    requires p < |artifacts|
    requires lists == SignLists(artifacts[..p], gpt, threshold)
    requires withZodiac == Entries(artifacts[..p], gpt, threshold)
    ensures lists' == SignLists(artifacts[..p + 1], gpt, threshold)
    ensures withZodiac' == Entries(artifacts[..p + 1], gpt, threshold)
  {
    assert artifacts[..p + 1][..p] == artifacts[..p];
    var artifact := artifacts[p];
    lists', withZodiac' := lists, withZodiac;
    var analysis := AnalysisOf(gpt(artifact));
    if Confidence(analysis) >= threshold {
      var related := Related(analysis);
      if related != [] {
        lists' := AddToLists(lists, related, artifact.id);
        withZodiac' := withZodiac + [EntryOf(artifact, analysis)];
      }
    }
  }

  /** The loop over one batch, `artifacts[start..end]`. */
  method AnalyzeBatch(artifacts: seq<Artifact>, start: nat, end: nat, gpt: Artifact -> Reply, threshold: real,
                      lists: map<string, seq<string>>, withZodiac: seq<Entry>)
    returns (lists': map<string, seq<string>>, withZodiac': seq<Entry>)
    requires start <= end <= |artifacts|
    requires lists == SignLists(artifacts[..start], gpt, threshold)
    requires withZodiac == Entries(artifacts[..start], gpt, threshold)
    ensures lists' == SignLists(artifacts[..end], gpt, threshold)
    ensures withZodiac' == Entries(artifacts[..end], gpt, threshold)
  {
    lists', withZodiac' := lists, withZodiac;
    var p := start;
    while p < end
      invariant start <= p <= end
      invariant lists' == SignLists(artifacts[..p], gpt, threshold)
      invariant withZodiac' == Entries(artifacts[..p], gpt, threshold)
    {
      lists', withZodiac' := AnalyzeOne(artifacts, p, gpt, threshold, lists', withZodiac');
      p := p + 1;
    }
  }

  /** The de-duplication loop, over a list of distinct signs. */
  method DedupEach(lists: map<string, seq<string>>, signs: seq<string>) returns (r: map<string, seq<string>>)
    requires Distinct(signs) && forall z :: z in signs ==> z in lists
    ensures r.Keys == lists.Keys
    ensures forall z :: z in r ==> r[z] == if z in signs then Dedup(lists[z]) else lists[z]
  {
    r := lists;
    var k := 0;
    while k < |signs|
      invariant 0 <= k <= |signs|
      invariant r.Keys == lists.Keys
      invariant forall z :: z in r ==> r[z] == if z in signs[..k] then Dedup(lists[z]) else lists[z]
    {
      var z := signs[k];
      assert signs[..k + 1] == signs[..k] + [z];
      DistinctNotBefore(signs, k);
      r := r[z := Dedup(r[z])];
      k := k + 1;
    }
    assert signs[..k] == signs;
  }

  /** The de-duplication of every sign's list. */
  method DedupSignLists(lists: map<string, seq<string>>) returns (r: map<string, seq<string>>)
    requires lists.Keys == ChineseNames.Keys
    ensures r == DedupLists(lists)
  {
    SignTable();
    r := DedupEach(lists, Signs);
  }

  /** `analyze_zodiac_artifacts`: the batches are analysed in order, then
      each sign's list is de-duplicated and the statistics are taken. */
  method AnalyzeZodiacArtifacts(artifacts: seq<Artifact>, gpt: Artifact -> Reply, threshold: real, batchSize: int)
    returns (report: Report)
    requires batchSize != 0
    ensures batchSize > 0 ==> report.zodiacArtifacts == DedupLists(SignLists(artifacts, gpt, threshold))
    ensures batchSize > 0 ==> report.artifactsWithZodiac == Entries(artifacts, gpt, threshold)
    ensures batchSize < 0 ==> report.zodiacArtifacts == InitialLists() && report.artifactsWithZodiac == []
    ensures report.stats.totalArtifacts == |artifacts|
    ensures report.stats.totalZodiacArtifacts == |report.artifactsWithZodiac|
    ensures report.stats.countByZodiac.Keys == ChineseNames.Keys
    ensures forall z :: z in report.stats.countByZodiac ==> report.stats.countByZodiac[z] == |report.zodiacArtifacts[z]|
  {
    var n := |artifacts|;
    var lists := InitialLists();
    var withZodiac: seq<Entry> := [];
    var totalBatches := FloorDiv(n + batchSize - 1, batchSize);
    if batchSize > 0 {
      BatchesCover(n, batchSize);
    }
    var b: nat, done: nat := 0, 0;
    while b < totalBatches
      invariant totalBatches >= 0 ==> b <= totalBatches
      invariant done <= n
      invariant batchSize > 0 ==> done == Min(b * batchSize, n)
      invariant batchSize < 0 ==> done == 0
      invariant lists == SignLists(artifacts[..done], gpt, threshold)
      invariant withZodiac == Entries(artifacts[..done], gpt, threshold)
    {
      if batchSize > 0 {
        BatchStart(b, n, batchSize);
      } else {
        NegativeBatchesEmpty(b, n, batchSize);
      }
      var start := b * batchSize;
      var end := Min(start + batchSize, n);
      var lo, hi := SliceIndex(start, n), SliceIndex(end, n);
      lists, withZodiac := AnalyzeBatch(artifacts, lo, hi, gpt, threshold, lists, withZodiac);
      b, done := b + 1, hi;
    }
    if batchSize > 0 {
      assert artifacts[..done] == artifacts;
    } else {
      assert artifacts[..done] == [];
      assert DedupLists(lists) == InitialLists();
    }
    var deduped := DedupSignLists(lists);
    var counts := map z | z in deduped :: |deduped[z]|;
    report := Report(deduped, withZodiac, Stats(n, |withZodiac|, counts));
  }
}
