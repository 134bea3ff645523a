/** Favorites, pre-visit selections and recommendations
    (`lib/recommendation-service.ts`). The id lists live in the current
    profile when there is one and always also under a legacy storage key;
    recommendations combine the catalog service with shuffles. */
module Recommendation {
  import opened Wrappers
  import opened Seqs
  import opened Shuffling
  import opened UserModel
  import opened UserService
  import opened Catalog

  // ---------------------------------------------------------------- shuffle

  /** `shuffleArray`: copies the input and, for `i` from the last index down
      to 1, swaps position `i` with a position `j <= i` drawn from the
      oracle. The input is not modified. */
  method ShuffleArray<T>(input: seq<T>, rolls: nat -> nat) returns (r: seq<T>)
    ensures r == Shuffle(input, rolls)
    ensures multiset(r) == multiset(input)
  {
    var a := new T[|input|](k requires 0 <= k < |input| => input[k]);
    assert a[..] == input;
    var i := a.Length - 1;
    while i > 0
      invariant -1 <= i < a.Length
      invariant ShuffleDown(a[..], i, rolls) == Shuffle(input, rolls)
    {
      var j := rolls(i) % (i + 1);
      ghost var before := a[..];
      a[i], a[j] := a[j], a[i];
      assert a[..] == Swap(before, i, j);
      i := i - 1;
    }
    r := a[..];
    ShufflePermutes(input, rolls);
  }

  // ---------------------------------------------------- favorites and picks

  /** The profile the current-user id names: `userId ? getUserById(userId) : null`. */
  function PointedUser(store: BrowserStore): (r: Option<User>)
    reads store
    ensures r.Some? ==> r.value in store.AllUsers()
  {
    match store.CurrentUserId()
    case None => None
    case Some(id) => if id != "" then UserById(store.AllUsers(), id) else None
  }

  /** `getFavoriteArtifactIds`: the current profile's favorites, else the
      legacy list, else nothing; always nothing outside a browser. */
  function FavoriteArtifactIds(store: BrowserStore): (r: seq<string>)
    reads store
    ensures !store.isBrowser ==> r == []
    ensures store.isBrowser && PointedUser(store).Some? ==> r == PointedUser(store).value.favoriteArtifacts
    ensures store.isBrowser && PointedUser(store).None? ==> r == store.legacyFavorites.GetOr([])
  {
    if !store.isBrowser then []
    else match PointedUser(store)
      case Some(u) => u.favoriteArtifacts
      case None => store.legacyFavorites.GetOr([])
  }

  /** `getPreVisitSelectedIds`: the same rule for the pre-visit selection. */
  function PreVisitSelectedIds(store: BrowserStore): (r: seq<string>)
    reads store
    ensures !store.isBrowser ==> r == []
    ensures store.isBrowser && PointedUser(store).Some? ==> r == PointedUser(store).value.selectedArtifacts
    ensures store.isBrowser && PointedUser(store).None? ==> r == store.legacySelected.GetOr([])
  {
    if !store.isBrowser then []
    else match PointedUser(store)
      case Some(u) => u.selectedArtifacts
      case None => store.legacySelected.GetOr([])
  }

  /** The user list after rewriting the profile the current-user id names, if any. */
  function UpdatePointed(users: seq<User>, current: Option<string>, change: User -> User): seq<User> {
    if current.Some? && current.value != "" && FindUser(users, current.value).Some? then
      var i := FindUser(users, current.value).value;
      users[i := change(users[i])]
    else users
  }

  function SetFavorites(ids: seq<string>, now: int): User -> User {
    (u: User) => u.(favoriteArtifacts := ids, updatedAt := now)
  }

  function SetSelected(ids: seq<string>, now: int): User -> User {
    (u: User) => u.(selectedArtifacts := ids, updatedAt := now)
  }

  /** The storage after `ids` is saved as the favorites: the current
      profile, if any, gets the list and the time stamp, and the legacy key
      gets the list. */
  function FavoritesSaved(before: Storage, ids: seq<string>, now: int): (after: Storage)
    ensures after.currentUserId == before.currentUserId && after.legacySelected == before.legacySelected
    ensures after.legacyFavorites == Some(ids) && |after.users| == |before.users|
  {
    before.(users := UpdatePointed(before.users, before.currentUserId, SetFavorites(ids, now)),
            legacyFavorites := Some(ids))
  }

  /** `setFavoriteArtifactIds`: updates the pointed profile, if any, and
      always writes the legacy key; a later read gives back `ids`. */
  method SetFavoriteArtifactIds(store: BrowserStore, ids: seq<string>, now: int)
    modifies store
    ensures !store.isBrowser ==> store.Snapshot() == old(store.Snapshot())
    ensures store.isBrowser ==> store.Snapshot() == old(store.Snapshot()).(
      users := UpdatePointed(old(store.users), old(store.currentUserId), SetFavorites(ids, now)),
      legacyFavorites := Some(ids))
    ensures store.isBrowser ==> FavoriteArtifactIds(store) == ids
  {
    if !store.isBrowser {
      return;
    }
    var userId := store.CurrentUserId();
    if userId.Some? && userId.value != "" {
      var updated := store.UpdateUserFavoriteArtifacts(userId.value, ids, now);
      if FindUser(old(store.users), userId.value).Some? {
        FindUserAfterUpdate(old(store.users), userId.value, updated.value);
      }
    }
    store.legacyFavorites := Some(ids);
  }

  /** `setPreVisitSelectedIds`: the same rule for the selection. */
  method SetPreVisitSelectedIds(store: BrowserStore, ids: seq<string>, now: int)
    modifies store
    ensures !store.isBrowser ==> store.Snapshot() == old(store.Snapshot())
    ensures store.isBrowser ==> store.Snapshot() == old(store.Snapshot()).(
      users := UpdatePointed(old(store.users), old(store.currentUserId), SetSelected(ids, now)),
      legacySelected := Some(ids))
    ensures store.isBrowser ==> PreVisitSelectedIds(store) == ids
  {
    if !store.isBrowser {
      return;
    }
    var userId := store.CurrentUserId();
    if userId.Some? && userId.value != "" {
      var updated := store.UpdateUserSelectedArtifacts(userId.value, ids, now);
      if FindUser(old(store.users), userId.value).Some? {
        FindUserAfterUpdate(old(store.users), userId.value, updated.value);
      }
    }
    store.legacySelected := Some(ids);
  }

  function Other(id: string): string -> bool {
    (x: string) => x != id
  }

  /** Removing an id keeps every copy of every other id. */
  lemma DropsOnlyId(favorites: seq<string>, id: string)
    ensures multiset(Filter(Other(id), favorites)) == multiset(favorites)[id := 0]
  {
    forall x: string
      ensures multiset(Filter(Other(id), favorites))[x] == multiset(favorites)[id := 0][x]
    {
      FilterMultiplicity(Other(id), favorites, x);
    }
  }

  /** The toggle rule: a listed id is removed everywhere it occurs, an
      unlisted one is appended. */
  function Toggle(favorites: seq<string>, id: string): (r: seq<string>)
    ensures id in favorites ==> id !in r && forall x :: x in r <==> x in favorites && x != id
    ensures id in favorites ==> Subsequence(r, favorites) && multiset(r) == multiset(favorites)[id := 0]
    ensures id !in favorites ==> r == favorites + [id]
  {
    if id in favorites then
      FilterSubsequence(Other(id), favorites);
      DropsOnlyId(favorites, id);
      Filter(Other(id), favorites)
    else favorites + [id]
  }

  /** Toggling an unlisted id twice restores the list. */
  lemma ToggleTwice(favorites: seq<string>, id: string)
    requires id !in favorites
    ensures Toggle(Toggle(favorites, id), id) == favorites
  {
    FilterAppend(Other(id), favorites, [id]);
    FilterAll(Other(id), favorites);
  }

  /** `toggleFavoriteArtifact`: toggles the id in the current favorites and
      stores the new list, which is returned; outside a browser it returns
      [] and stores nothing. */
  method ToggleFavoriteArtifact(store: BrowserStore, id: string, now: int) returns (r: seq<string>)
    modifies store
    ensures !store.isBrowser ==> r == [] && store.Snapshot() == old(store.Snapshot())
    ensures store.isBrowser ==> r == Toggle(old(FavoriteArtifactIds(store)), id)
    ensures store.isBrowser ==> FavoriteArtifactIds(store) == r
    ensures store.isBrowser ==> store.Snapshot() == FavoritesSaved(old(store.Snapshot()), r, now)
  {
    if !store.isBrowser {
      return [];
    }
    var favorites := FavoriteArtifactIds(store);
    r := Toggle(favorites, id);
    SetFavoriteArtifactIds(store, r, now);
  }

  // -------------------------------------------------------- recommendations

  /** The blend `getPersonalizedArtifacts` gives for a profile's period and
      sign. */
  function BlendFor(u: User, count: int, cache: Option<map<string, seq<string>>>, response: ZodiacFetch,
                    fetched: Option<seq<Artifact>>, zodiacRolls: nat -> nat, rolls: nat -> nat): (r: seq<Artifact>)
    ensures count >= 0 ==> |r| <= count
    ensures var first := PeriodPart(fetched, u.preferences.visitPeriod, count);
      |first| <= |r| && r[..|first|] == FixAll(first)
    ensures u.preferences.zodiacSign == "" ==>
      r == Personalized(fetched, u.preferences.visitPeriod, "", count, [], rolls)
  {
    var sign := u.preferences.zodiacSign;
    var zodiac := if sign != "" then ArtifactsByZodiac(LoadedZodiac(cache, response), sign, fetched, zodiacRolls)
                  else [];
    Personalized(fetched, u.preferences.visitPeriod, sign, count, zodiac, rolls)
  }

  /** A profile that states a period or a sign. */
  predicate HasTasteHints(u: User) {
    u.preferences.visitPeriod != "" || u.preferences.zodiacSign != ""
  }

  /** `getRecommendedArtifacts`: the personalized blend for a current
      profile with a period or sign, when it is non-empty; otherwise the
      first `count` items of a shuffled catalog. */
  method GetRecommendedArtifacts(store: BrowserStore, catalog: CatalogStore, count: int, response: ZodiacFetch,
                                 fetched: Option<seq<Artifact>>, zodiacRolls: nat -> nat,
                                 blendRolls: nat -> nat, rolls: nat -> nat) returns (r: seq<Artifact>)
    modifies catalog
    ensures var u := old(PointedUser(store));
      var blend := if u.Some? && HasTasteHints(u.value)
        then BlendFor(u.value, count, old(catalog.zodiacCache), response, fetched, zodiacRolls, blendRolls)
        else [];
      r == if blend != [] then blend else SliceTo(Shuffle(LoadArtifacts(fetched), rolls), count)
    ensures var u := old(PointedUser(store));
      catalog.zodiacCache == if u.Some? && HasTasteHints(u.value) && u.value.preferences.zodiacSign != ""
        then ZodiacCacheAfter(old(catalog.zodiacCache), response)
        else old(catalog.zodiacCache)
    ensures catalog.quizzesCache == old(catalog.quizzesCache)
  {
    var user := PointedUser(store);
    ghost var cache0 := catalog.zodiacCache;
    var personalized: seq<Artifact> := [];
    if user.Some? && HasTasteHints(user.value) {
      var prefs := user.value.preferences;
      personalized := catalog.GetPersonalizedArtifacts(prefs.visitPeriod, prefs.zodiacSign, count, response,
                                                       fetched, zodiacRolls, blendRolls);
      assert personalized == BlendFor(user.value, count, cache0, response, fetched, zodiacRolls, blendRolls);
    }
    if |personalized| > 0 {
      r := personalized;
    } else {
      var all := LoadArtifacts(fetched);
      var shuffled := ShuffleArray(all, rolls);
      r := SliceTo(shuffled, count);
    }
  }

  /** Without a usable blend the recommendation is `min(count, n)`
      catalog artifacts, each from the catalog. */
  lemma RandomRecommendationSize(all: seq<Artifact>, count: int, rolls: nat -> nat)
    requires count >= 0
    ensures var r := SliceTo(Shuffle(all, rolls), count);
      |r| == (if count < |all| then count else |all|) && multiset(r) <= multiset(all)
  {
    var s := Shuffle(all, rolls);
    ShufflePermutes(all, rolls);
    assert s == SliceTo(s, count) + s[|SliceTo(s, count)|..];
  }

  /** The rule of `getZodiacRecommendedArtifacts` once the matches are
      known: enough matches give a shuffled `count` of them; otherwise all
      matches come first, then shuffled non-matching catalog artifacts up to
      `count`. */
  function ZodiacTopUp(zodiac: seq<Artifact>, all: seq<Artifact>, count: int,
                       pickRolls: nat -> nat, fillRolls: nat -> nat): (r: seq<Artifact>)
    ensures count <= |zodiac| ==> multiset(r) <= multiset(zodiac)
    ensures 0 <= count <= |zodiac| ==> |r| == count
    ensures |zodiac| < count ==> |zodiac| <= |r| <= count && r[..|zodiac|] == zodiac
    ensures |zodiac| < count ==> forall k :: |zodiac| <= k < |r| ==>
      r[k] in all && forall z :: z in zodiac ==> z.id != r[k].id
    ensures |zodiac| < count ==> var pool := Filter(NotChosen(zodiac), all);
      |r| == |zodiac| + (if count - |zodiac| < |pool| then count - |zodiac| else |pool|)
      && multiset(r[|zodiac|..]) <= multiset(pool)
  {
    if |zodiac| >= count then
      var s := Shuffle(zodiac, pickRolls);
      ShufflePermutes(zodiac, pickRolls);
      assert s == SliceTo(s, count) + s[|SliceTo(s, count)|..];
      SliceTo(s, count)
    else
      var pool := Filter(NotChosen(zodiac), all);
      var s := Shuffle(pool, fillRolls);
      ShufflePermutes(pool, fillRolls);
      var r := zodiac + SliceTo(s, count - |zodiac|);
      assert forall k :: |zodiac| <= k < |r| ==> r[k] in s;
      assert r[|zodiac|..] == SliceTo(s, count - |zodiac|);
      assert s == SliceTo(s, count - |zodiac|) + s[|SliceTo(s, count - |zodiac|)|..];
      r
  }

  /** The second half of `getZodiacRecommendedArtifacts`: a shuffled
      prefix of the sign's artifacts, or all of them topped up from a shuffle
      of the rest of the catalog. */
  method TopUpZodiac(zodiac: seq<Artifact>, all: seq<Artifact>, count: int,
                     pickRolls: nat -> nat, fillRolls: nat -> nat) returns (r: seq<Artifact>)
    ensures r == ZodiacTopUp(zodiac, all, count, pickRolls, fillRolls)
  {
    if |zodiac| >= count {
      var picked := ShuffleArray(zodiac, pickRolls);
      r := SliceTo(picked, count);
    } else {
      var pool := Filter(NotChosen(zodiac), all);
      var filler := ShuffleArray(pool, fillRolls);
      r := zodiac + SliceTo(filler, count - |zodiac|);
    }
  }

  /** `getZodiacRecommendedArtifacts`. */
  method GetZodiacRecommendedArtifacts(catalog: CatalogStore, sign: string, count: int, response: ZodiacFetch,
                                       fetched: Option<seq<Artifact>>, zodiacRolls: nat -> nat,
                                       pickRolls: nat -> nat, fillRolls: nat -> nat) returns (r: seq<Artifact>)
    modifies catalog
    ensures r == ZodiacTopUp(ArtifactsByZodiac(LoadedZodiac(old(catalog.zodiacCache), response), sign, fetched,
                                               zodiacRolls), LoadArtifacts(fetched), count, pickRolls, fillRolls)
    ensures catalog.zodiacCache == ZodiacCacheAfter(old(catalog.zodiacCache), response)
    ensures catalog.quizzesCache == old(catalog.quizzesCache)
  {
    var zodiac := catalog.GetArtifactsByZodiac(sign, response, fetched, zodiacRolls);
    r := TopUpZodiac(zodiac, LoadArtifacts(fetched), count, pickRolls, fillRolls);
  }

  /** What `getMbtiRecommendedArtifacts` reports. */
  datatype MbtiRecommendation = MbtiRecommendation(artifacts: seq<Artifact>, hasSimilarUsers: bool)

  /** `getMbtiRecommendedArtifacts`: the type is not consulted; the answer
      is a shuffled prefix of the catalog and never reports similar users. */
  function MbtiRecommended(mbtiType: string, count: int, fetched: Option<seq<Artifact>>,
                           rolls: nat -> nat): (r: MbtiRecommendation)
    ensures !r.hasSimilarUsers
    ensures 0 <= count ==> |r.artifacts| == if count < |LoadArtifacts(fetched)| then count else |LoadArtifacts(fetched)|
    ensures multiset(r.artifacts) <= multiset(LoadArtifacts(fetched))
    ensures count >= |LoadArtifacts(fetched)| ==> multiset(r.artifacts) == multiset(LoadArtifacts(fetched))
    ensures fetched.None? ==> r.artifacts == []
  {
    var all := LoadArtifacts(fetched);
    var s := Shuffle(all, rolls);
    ShufflePermutes(all, rolls);
    assert s == SliceTo(s, count) + s[|SliceTo(s, count)|..];
    MbtiRecommendation(SliceTo(s, count), false)
  }
}
