/** The importer into the museum app (`data_processing/import_to_museum_system.py`):
    the recommended subset shown before a visit, the placeholder image files
    and the import record. Reading and writing JSON files is not modelled;
    the data read is a parameter and the data written is a result. */
module MuseumImport {
  import opened Seqs
  import opened Strings
  import opened Catalog

  const MaxRecommended := 12
  const MaxDescription := 150

  /** A recommended entry: five fields of an artifact. */
  datatype Recommended = Recommended(id: string, name: string, period: string, image: string, description: string)

  /** A description over 150 characters becomes its first 150 followed by
      "..."; a shorter one is kept. */
  function Abbreviate(d: string): (r: string)
    ensures |d| <= MaxDescription ==> r == d
    ensures |d| > MaxDescription ==> |r| == MaxDescription + 3 && r[..MaxDescription] == d[..MaxDescription]
                                     && r[MaxDescription..] == "..."
    ensures |r| <= MaxDescription + 3
  {
    if |d| > MaxDescription then d[..MaxDescription] + "..." else d
  }

  function RecommendedOf(a: Artifact): Recommended {
    Recommended(a.id, a.name, a.period, a.image, Abbreviate(a.description))
  }

  predicate HasImage(a: Artifact) {
    a.image != ""
  }

  /** The entry of every artifact, in order. */
  function Summaries(xs: seq<Artifact>): (r: seq<Recommended>)
    ensures |r| == |xs|
    ensures forall i :: 0 <= i < |xs| ==> r[i] == RecommendedOf(xs[i])
  {
    if xs == [] then [] else [RecommendedOf(xs[0])] + Summaries(xs[1..])
  }

  /** The recommended subset as the loop of `import_artifacts` builds it:
      an artifact with an image is appended while fewer than 12 are held. */
  function Recommend(xs: seq<Artifact>): (r: seq<Recommended>)
    ensures |r| <= MaxRecommended
  {
    if xs == [] then []
    else
      var prev := Recommend(xs[..|xs| - 1]);
      var a := xs[|xs| - 1];
      if HasImage(a) && |prev| < MaxRecommended then prev + [RecommendedOf(a)] else prev
  }

  lemma SummariesSnoc(xs: seq<Artifact>, a: Artifact)
    ensures Summaries(xs + [a]) == Summaries(xs) + [RecommendedOf(a)]
  {
    var l, r := Summaries(xs + [a]), Summaries(xs) + [RecommendedOf(a)];
    assert forall i :: 0 <= i < |xs| ==> (xs + [a])[i] == xs[i];
    assert forall i :: 0 <= i < |l| ==> l[i] == r[i];
  }

  /** Appending while fewer than `n` are held keeps the first `n`. */
  lemma TakeStep<T>(prev: seq<T>, s: seq<T>, x: T, n: nat)
    requires prev == Take(s, n)
    ensures (if |prev| < n then prev + [x] else prev) == Take(s + [x], n)
  {
    if |s| >= n {
      assert (s + [x])[..n] == s[..n];
    }
  }

  /** The recommended subset is the entries of the first twelve artifacts
      that have an image, in catalog order. */
  lemma {:induction false} RecommendFirstTwelve(xs: seq<Artifact>)
    ensures Recommend(xs) == Take(Summaries(Filter(HasImage, xs)), MaxRecommended)
  {
    if xs != [] {
      var front, a := xs[..|xs| - 1], xs[|xs| - 1];
      assert xs == front + [a];
      RecommendFirstTwelve(front);
      FilterSnoc(HasImage, front, a);
      var kept, prev := Filter(HasImage, front), Recommend(front);
      if HasImage(a) {
        SummariesSnoc(kept, a);
        TakeStep(prev, Summaries(kept), RecommendedOf(a), MaxRecommended);
      }
    }
  }

  /** Every recommended entry comes from an artifact with an image, and the
      entries keep the catalog order. */
  lemma RecommendedFromImages(xs: seq<Artifact>)
    ensures forall i :: 0 <= i < |Recommend(xs)| ==>
              Recommend(xs)[i].image != "" && |Recommend(xs)[i].description| <= MaxDescription + 3
    ensures |Recommend(xs)| == if |Filter(HasImage, xs)| < MaxRecommended then |Filter(HasImage, xs)| else MaxRecommended
  {
    RecommendFirstTwelve(xs);
    var kept := Filter(HasImage, xs);
    forall i | 0 <= i < |Recommend(xs)|
      ensures Recommend(xs)[i].image != "" && |Recommend(xs)[i].description| <= MaxDescription + 3
    {
      assert Recommend(xs)[i] == Summaries(kept)[i] == RecommendedOf(kept[i]);
    }
  }

  /** `import_artifacts`: the collection is saved unchanged, the
      recommended subset is built and the placeholder images are made. */
  method ImportArtifacts(artifacts: seq<Artifact>, existingFiles: set<string>)
    returns (saved: seq<Artifact>, recommended: seq<Recommended>, imageNames: map<string, string>, written: seq<string>)
    ensures saved == artifacts
    ensures recommended == Recommend(artifacts)
    ensures imageNames == ImageNames(artifacts)
    ensures written == Placeholders(artifacts, existingFiles)
  {
    saved := artifacts;
    recommended := [];
    var k := 0;
    while k < |artifacts|
      invariant 0 <= k <= |artifacts|
      invariant recommended == Recommend(artifacts[..k])
    {
      assert artifacts[..k + 1][..k] == artifacts[..k];
      var artifact := artifacts[k];
      if artifact.image != "" && |recommended| < MaxRecommended {
        recommended := recommended + [RecommendedOf(artifact)];
      }
      k := k + 1;
    }
    assert artifacts[..k] == artifacts;
    imageNames, written := CopyImages(artifacts, existingFiles);
  }

  // ------------------------------------------------------------- images

  /** The placeholder file name of an artifact: the last path segment of
      its local image when that holds a "/", else the last segment of its
      image URL when that holds one, else `artifact_<id>.jpg`. */
  function ImageFileName(a: Artifact): (r: string)
    ensures a.localImage != "" && '/' in a.localImage ==> r == AfterLast(a.localImage, '/') && '/' !in r
    ensures !(a.localImage != "" && '/' in a.localImage) && '/' in a.image ==> r == AfterLast(a.image, '/') && '/' !in r
    ensures !(a.localImage != "" && '/' in a.localImage) && '/' !in a.image ==> r == "artifact_" + a.id + ".jpg"
  {
    if a.localImage != "" && '/' in a.localImage then AfterLast(a.localImage, '/')
    else if '/' in a.image then AfterLast(a.image, '/')
    else "artifact_" + a.id + ".jpg"
  }

  /** The URL-to-file map of `_copy_images`: artifacts without an image
      are skipped, and a URL already in the map keeps its first file. */
  function ImageNames(xs: seq<Artifact>): (m: map<string, string>)
    ensures forall url :: url in m ==> url != ""
  {
    if xs == [] then map[]
    else
      var prev := ImageNames(xs[..|xs| - 1]);
      var a := xs[|xs| - 1];
      if a.image == "" || a.image in prev then prev else prev[a.image := ImageFileName(a)]
  }

  /** The files `_copy_images` writes, in order: one per newly mapped URL
      whose file does not exist yet. */
  function Placeholders(xs: seq<Artifact>, existingFiles: set<string>): (r: seq<string>)
    ensures |r| <= |xs|
  {
    if xs == [] then []
    else
      var prevNames := ImageNames(xs[..|xs| - 1]);
      var prev := Placeholders(xs[..|xs| - 1], existingFiles);
      var a := xs[|xs| - 1];
      if a.image == "" || a.image in prevNames then prev
      else
        var name := ImageFileName(a);
        if name in existingFiles || name in prev then prev else prev + [name]
  }

  /** Exactly the non-empty image URLs are mapped, each to the file name of
      the first artifact carrying it. */
  lemma {:induction false} ImageNamesFirst(xs: seq<Artifact>)
    ensures forall url :: url in ImageNames(xs) <==> url != "" && exists i :: 0 <= i < |xs| && xs[i].image == url
    ensures forall i :: 0 <= i < |xs| && xs[i].image != "" && (forall j :: 0 <= j < i ==> xs[j].image != xs[i].image) ==>
              ImageNames(xs)[xs[i].image] == ImageFileName(xs[i])
  {
    if xs != [] {
      var front := xs[..|xs| - 1];
      ImageNamesFirst(front);
      assert forall i :: 0 <= i < |front| ==> front[i] == xs[i];
      var last := |xs| - 1;
      forall i | 0 <= i < |xs| && xs[i].image != "" && (forall j :: 0 <= j < i ==> xs[j].image != xs[i].image)
        ensures ImageNames(xs)[xs[i].image] == ImageFileName(xs[i])
      {
        if i == last {
          assert xs[i].image !in ImageNames(front);
        }
      }
    }
  }

  /** After copying, every mapped file name exists (it existed before or
      was written), and no file is written twice or over an existing one. */
  lemma {:induction false} PlaceholdersCover(xs: seq<Artifact>, existingFiles: set<string>)
    ensures forall url :: url in ImageNames(xs) ==>
              ImageNames(xs)[url] in existingFiles || ImageNames(xs)[url] in Placeholders(xs, existingFiles)
    ensures Distinct(Placeholders(xs, existingFiles))
    ensures forall name :: name in Placeholders(xs, existingFiles) ==> name !in existingFiles
  {
    if xs != [] {
      var front := xs[..|xs| - 1];
      PlaceholdersCover(front, existingFiles);
      var prev := Placeholders(front, existingFiles);
      var a := xs[|xs| - 1];
      if !(a.image == "" || a.image in ImageNames(front)) {
        var name := ImageFileName(a);
        if !(name in existingFiles || name in prev) {
          var next := prev + [name];
          assert forall i :: 0 <= i < |prev| ==> next[i] == prev[i];
        }
      }
    }
  }

  /** `_copy_images`: builds the URL-to-file map and writes the missing
      placeholder files. */
  method CopyImages(artifacts: seq<Artifact>, existingFiles: set<string>)
    returns (imageUrlToFilename: map<string, string>, written: seq<string>)
    ensures imageUrlToFilename == ImageNames(artifacts)
    ensures written == Placeholders(artifacts, existingFiles)
  {
    imageUrlToFilename := map[];
    written := [];
    var k := 0;
    while k < |artifacts|
      invariant 0 <= k <= |artifacts|
      invariant imageUrlToFilename == ImageNames(artifacts[..k])
      invariant written == Placeholders(artifacts[..k], existingFiles)
    {
      assert artifacts[..k + 1][..k] == artifacts[..k];
      var artifact := artifacts[k];
      k := k + 1;
      if artifact.image == "" {
        continue;
      }
      var imageUrl := artifact.image;
      var filename := ImageFileName(artifact);
      if imageUrl in imageUrlToFilename {
        continue;
      }
      imageUrlToFilename := imageUrlToFilename[imageUrl := filename];
      if !(filename in existingFiles || filename in written) {
        written := written + [filename];
      }
    }
    assert artifacts[..k] == artifacts;
  }

  // -------------------------------------------------------------- config

  /** The import record of `update_system_config`; the timestamp is a
      parameter. */
  datatype ImportConfig = ImportConfig(timestamp: string, artifactsCount: nat, quizzesCount: nat)

  function SystemConfig<Q>(artifacts: seq<Artifact>, quizzes: seq<Q>, timestamp: string): (c: ImportConfig)
    ensures c.artifactsCount == |artifacts| && c.quizzesCount == |quizzes| && c.timestamp == timestamp
  {
    ImportConfig(timestamp, |artifacts|, |quizzes|)
  }
}
