/** The favorites view during a visit (`app/during-visit/collections/page.tsx`):
    the image path it shows, the favorites it loads and how a toggle updates
    the displayed list and the detail dialog. */
module FavoritesPage {
  import opened Wrappers
  import opened Seqs
  import opened Strings
  import opened Catalog
  import opened UserService
  import opened Recommendation

  const Placeholder := "/placeholder-image.jpg"

  /** `getImagePath`: a web `image` as is; else a `localImage` holding the
      image directory with its first occurrence cut out; else the first
      non-empty of `localImage`, `image` and the placeholder. */
  function GetImagePath(a: Artifact): (r: string)
    ensures a.image != "" && StartsWith(a.image, "http") ==> r == a.image
    ensures !(a.image != "" && StartsWith(a.image, "http")) && a.localImage != "" && Contains(a.localImage, ImageDir) ==>
              |r| == |a.localImage| - |ImageDir|
              && exists i :: 0 <= i <= |a.localImage| - |ImageDir|
                   && r == a.localImage[..i] + a.localImage[i + |ImageDir|..]
    ensures !(a.image != "" && StartsWith(a.image, "http")) && a.localImage != "" && Contains(a.localImage, ImageDir) ==>
              exists i: nat :: ContainsAt(a.localImage, ImageDir, i)
                && (forall j: nat :: j < i ==> !ContainsAt(a.localImage, ImageDir, j))
                && r == a.localImage[..i] + a.localImage[i + |ImageDir|..]
    ensures !Contains(a.localImage, ImageDir) ==> r != ""
    ensures !(a.image != "" && StartsWith(a.image, "http")) && !(a.localImage != "" && Contains(a.localImage, ImageDir)) ==>
              r == (if a.localImage != "" then a.localImage else if a.image != "" then a.image else Placeholder)
  {
    if a.image != "" && StartsWith(a.image, "http") then a.image
    else if a.localImage != "" && Contains(a.localImage, ImageDir) then
      ReplaceFirst(a.localImage, ImageDir, "")
    else if a.localImage != "" then a.localImage
    else if a.image != "" then a.image
    else Placeholder
  }

  /** A local path that is only the image directory becomes the empty path:
      the fallback to the placeholder covers only the last branch. */
  lemma BareDirectoryGivesEmptyPath(a: Artifact)
    requires a.localImage == ImageDir && !StartsWith(a.image, "http")
    ensures GetImagePath(a) == ""
  {
    assert ContainsAt(a.localImage, ImageDir, 0);
  }

  // ------------------------------------------------------------- favorites

  /** The values `f` gives for the elements of `xs`, in order, where it
      gives one. */
  function FilterMap<A, B>(f: A -> Option<B>, xs: seq<A>): seq<B> {
    if xs == [] then []
    else
      var rest := FilterMap(f, xs[1..]);
      match f(xs[0])
      case Some(y) => [y] + rest
      case None => rest
  }

  function HasValue<A, B>(f: A -> Option<B>): A -> bool {
    (x: A) => f(x).Some?
  }

  /** One value per element that has one, in element order. */
  lemma {:induction false} FilterMapShape<A(!new), B>(f: A -> Option<B>, xs: seq<A>)
    ensures var r, kept := FilterMap(f, xs), Filter(HasValue(f), xs);
            |r| == |kept| && forall i :: 0 <= i < |r| ==> f(kept[i]) == Some(r[i])
  {
    if xs != [] {
      FilterMapShape(f, xs[1..]);
      var rest, kept := FilterMap(f, xs[1..]), Filter(HasValue(f), xs[1..]);
      var r, k := FilterMap(f, xs), Filter(HasValue(f), xs);
      if f(xs[0]).Some? {
        assert r == [f(xs[0]).value] + rest;
        assert k == [xs[0]] + kept;
        forall i | 1 <= i < |r|
          ensures f(k[i]) == Some(r[i])
        {
          assert r[i] == rest[i - 1] && k[i] == kept[i - 1];
        }
      } else {
        assert r == rest && k == kept;
      }
    }
  }

  function Lookup(fetched: Option<seq<Artifact>>): string -> Option<Artifact> {
    (id: string) => GetArtifactById(fetched, id)
  }

  /** `loadFavoriteArtifacts`: one `getArtifactById` per favorite id, in
      favorite order, with the misses dropped. */
  function LoadedFavorites(fetched: Option<seq<Artifact>>, ids: seq<string>): seq<Artifact> {
    FilterMap(Lookup(fetched), ids)
  }

  /** The ids shown are the known favorite ids in favorite order, each
      with the artifact `getArtifactById` gives for it. */
  lemma LoadedFavoritesShape(fetched: Option<seq<Artifact>>, ids: seq<string>)
    ensures var r, known := LoadedFavorites(fetched, ids), Filter(HasValue(Lookup(fetched)), ids);
            |r| == |known|
            && (forall i :: 0 <= i < |r| ==> Some(r[i]) == GetArtifactById(fetched, known[i]))
            && (forall i :: 0 <= i < |r| ==> r[i].id == known[i])
  {
    FilterMapShape(Lookup(fetched), ids);
    var r, known := LoadedFavorites(fetched, ids), Filter(HasValue(Lookup(fetched)), ids);
    forall i | 0 <= i < |r|
      ensures Some(r[i]) == GetArtifactById(fetched, known[i]) && r[i].id == known[i]
    {
      assert Lookup(fetched)(known[i]) == Some(r[i]);
      GetArtifactByIdHasId(fetched, known[i]);
    }
  }

  function InFavorites(favorites: seq<string>): Artifact -> bool {
    (a: Artifact) => a.id in favorites
  }

  /** The displayed list after a toggle: the previous list cut down to ids
      in the new favorites, in the same order. */
  function AfterToggle(prev: seq<Artifact>, newFavorites: seq<string>): (r: seq<Artifact>)
    ensures Subsequence(r, prev)
    ensures forall a :: a in r <==> a in prev && a.id in newFavorites
  {
    FilterSubsequence(InFavorites(newFavorites), prev);
    Filter(InFavorites(newFavorites), prev)
  }

  function NotId(id: string): Artifact -> bool {
    (a: Artifact) => a.id != id
  }

  /** Un-favoriting an artifact shown in the view removes exactly that
      artifact's entries and keeps the rest in order. */
  lemma UnfavoriteRemovesOnlyIt(prev: seq<Artifact>, favorites: seq<string>, id: string)
    requires id in favorites
    requires forall a :: a in prev ==> a.id in favorites
    ensures AfterToggle(prev, Toggle(favorites, id)) == Filter(NotId(id), prev)
  {
    FilterCongruent(InFavorites(Toggle(favorites, id)), NotId(id), prev);
  }

  /** The page state. */
  class FavoritesView {
    var favoriteArtifacts: seq<Artifact>
    var selectedArtifact: Option<Artifact>
    var detailDialogOpen: bool

    constructor()
      ensures favoriteArtifacts == [] && selectedArtifact == None && !detailDialogOpen
    {
      favoriteArtifacts := [];
      selectedArtifact := None;
      detailDialogOpen := false;
    }

    /** `loadFavoriteArtifacts`: an empty favorites list empties the view;
        otherwise the view shows the favorites that exist. */
    method LoadFavoriteArtifacts(store: BrowserStore, fetched: Option<seq<Artifact>>)
      modifies this
      ensures FavoriteArtifactIds(store) == [] ==> favoriteArtifacts == []
      ensures favoriteArtifacts == LoadedFavorites(fetched, FavoriteArtifactIds(store))
      ensures selectedArtifact == old(selectedArtifact) && detailDialogOpen == old(detailDialogOpen)
    {
      var favoriteIds := FavoriteArtifactIds(store);
      if |favoriteIds| == 0 {
        favoriteArtifacts := [];
        return;
      }
      favoriteArtifacts := LoadedFavorites(fetched, favoriteIds);
    }

    /** `viewArtifactDetail`. */
    method ViewArtifactDetail(a: Artifact)
      modifies this
      ensures selectedArtifact == Some(a) && detailDialogOpen
      ensures favoriteArtifacts == old(favoriteArtifacts)
    {
      selectedArtifact := Some(a);
      detailDialogOpen := true;
    }

    /** `handleFavoriteToggle`: toggles and stores the favorite, cuts the
        view down to the new favorites and closes the detail dialog when the
        toggled artifact is the one selected. */
    method HandleFavoriteToggle(store: BrowserStore, artifactId: string, now: int)
      modifies this, store
      ensures store.isBrowser ==>
                favoriteArtifacts == AfterToggle(old(favoriteArtifacts),
                                                 Toggle(old(FavoriteArtifactIds(store)), artifactId))
      ensures store.isBrowser ==>
                store.Snapshot() == FavoritesSaved(old(store.Snapshot()),
                                                   Toggle(old(FavoriteArtifactIds(store)), artifactId), now)
      ensures !store.isBrowser ==> favoriteArtifacts == [] && store.Snapshot() == old(store.Snapshot())
      ensures old(selectedArtifact).Some? && old(selectedArtifact).value.id == artifactId ==> !detailDialogOpen
      ensures !(old(selectedArtifact).Some? && old(selectedArtifact).value.id == artifactId) ==>
                detailDialogOpen == old(detailDialogOpen)
      ensures selectedArtifact == old(selectedArtifact)
    {
      var newFavorites := ToggleFavoriteArtifact(store, artifactId, now);
      favoriteArtifacts := AfterToggle(favoriteArtifacts, newFavorites);
      if !store.isBrowser {
        FilterNone(InFavorites(newFavorites), old(favoriteArtifacts));
      }
      if selectedArtifact.Some? && artifactId == selectedArtifact.value.id {
        detailDialogOpen := false;
      }
    }
  }
}
