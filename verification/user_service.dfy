/** The profile store (`lib/user-service.ts`): the user list and the
    current-user id kept in browser storage, profile creation with
    nickname de-duplication, field updates and cross-profile favorites.
    `uuid()` and `Date.now()` are parameters (`freshId`, `now`). */
module UserService {
  import opened Wrappers
  import opened Seqs
  import opened Strings
  import opened UserModel

  // ---------------------------------------------------------------- lookups

  /** `findIndex(user => user.id === id)`, as an option. */
  function FindUser(users: seq<User>, id: string): (r: Option<nat>)
    ensures r.Some? ==> (r.value < |users| && users[r.value].id == id
      && forall j :: 0 <= j < r.value ==> users[j].id != id)
    ensures r.None? ==> forall j :: 0 <= j < |users| ==> users[j].id != id
  {
    if users == [] then None
    else if users[0].id == id then Some(0)
    else match FindUser(users[1..], id)
      case None => None
      case Some(k) => Some(k + 1)
  }

  /** `getUserById` on a user list: the first user with that id. */
  function UserById(users: seq<User>, id: string): (r: Option<User>)
    ensures r.None? <==> forall u :: u in users ==> u.id != id
    ensures r.Some? ==> exists i :: (0 <= i < |users| && users[i] == r.value && r.value.id == id
      && forall j :: 0 <= j < i ==> users[j].id != id)
  {
    match FindUser(users, id)
    case None => None
    case Some(i) => Some(users[i])
  }

  /** `getUserByNickname` on a user list: the first user with that nickname. */
  function UserByNickname(users: seq<User>, nickname: string): (r: Option<User>)
    ensures r.None? <==> forall u :: u in users ==> u.nickname != nickname
    ensures r.Some? ==> exists i :: (0 <= i < |users| && users[i] == r.value && r.value.nickname == nickname
      && forall j :: 0 <= j < i ==> users[j].nickname != nickname)
  {
    if users == [] then None
    else if users[0].nickname == nickname then Some(users[0])
    else
      var r := UserByNickname(users[1..], nickname);
      if r.Some? then
        var i :| 0 <= i < |users[1..]| && users[1..][i] == r.value && r.value.nickname == nickname
          && forall j :: 0 <= j < i ==> users[1..][j].nickname != nickname;
        assert users[i + 1] == r.value;
        r
      else r
  }

  /** Some user already has this nickname. */
  predicate Taken(users: seq<User>, nickname: string) {
    exists u :: u in users && u.nickname == nickname
  }

  // ------------------------------------------------------- unique nicknames

  /** The `k`-th nickname tried: the input itself, then `${input}_k`. */
  function Candidate(nickname: string, k: nat): string {
    if k == 0 then nickname else nickname + "_" + NatToString(k)
  }

  lemma CandidateInjective(nickname: string, a: nat, b: nat)
    requires Candidate(nickname, a) == Candidate(nickname, b)
    ensures a == b
  {
    var n := |nickname| + 1;
    if a != 0 && b != 0 {
      assert Candidate(nickname, a)[n..] == NatToString(a);
      assert Candidate(nickname, b)[n..] == NatToString(b);
      NatToStringInjective(a, b);
    }
  }

  /** The first `k` candidates are `k` different strings. */
  lemma {:induction false} CandidatesSize(nickname: string, k: nat)
    ensures |set j | 0 <= j < k :: Candidate(nickname, j)| == k
  {
    if k > 0 {
      CandidatesSize(nickname, k - 1);
      var before := set j | 0 <= j < k - 1 :: Candidate(nickname, j);
      assert (set j | 0 <= j < k :: Candidate(nickname, j)) == before + {Candidate(nickname, k - 1)};
      forall j | 0 <= j < k - 1 ensures Candidate(nickname, j) != Candidate(nickname, k - 1) {
        if Candidate(nickname, j) == Candidate(nickname, k - 1) {
          CandidateInjective(nickname, j, k - 1);
        }
      }
    }
  }

  lemma {:induction false} NicknamesSize(users: seq<User>)
    ensures |set u | u in users :: u.nickname| <= |users|
  {
    if users != [] {
      NicknamesSize(users[1..]);
      assert (set u | u in users :: u.nickname)
        == (set u | u in users[1..] :: u.nickname) + {users[0].nickname};
    }
  }

  /** If the first `k` candidates are all taken, there are at least `k`
      users: the search of `createUserWithUniqueNickname` ends. */
  lemma TakenBound(users: seq<User>, nickname: string, k: nat)
    requires forall j :: 0 <= j < k ==> Taken(users, Candidate(nickname, j))
    ensures k <= |users|
  {
    var tried := set j | 0 <= j < k :: Candidate(nickname, j);
    var names := set u | u in users :: u.nickname;
    CandidatesSize(nickname, k);
    forall c | c in tried ensures c in names {
      var j :| 0 <= j < k && c == Candidate(nickname, j);
      assert Taken(users, Candidate(nickname, j));
    }
    SubsetSize(tried, names);
    NicknamesSize(users);
  }

  /** The first free candidate at or after `k`, given that those before
      `k` are taken. */
  function FirstFreeFrom(users: seq<User>, nickname: string, k: nat): (r: nat)
    requires forall j :: 0 <= j < k ==> Taken(users, Candidate(nickname, j))
    ensures k <= r && !Taken(users, Candidate(nickname, r))
    ensures forall j :: 0 <= j < r ==> Taken(users, Candidate(nickname, j))
    decreases |users| + 1 - k
  {
    TakenBound(users, nickname, k);
    if !Taken(users, Candidate(nickname, k)) then k
    else FirstFreeFrom(users, nickname, k + 1)
  }

  /** The nickname `createUserWithUniqueNickname` assigns: the input when it
      is free, else `${input}_k` for the least `k >= 1` that is free. */
  function UniqueNickname(users: seq<User>, nickname: string): (r: string)
    ensures !Taken(users, r)
    ensures !Taken(users, nickname) ==> r == nickname
    ensures Taken(users, nickname) ==> exists k: nat :: (1 <= k && r == nickname + "_" + NatToString(k)
      && forall j: nat :: 1 <= j < k ==> Taken(users, nickname + "_" + NatToString(j)))
  {
    var k := FirstFreeFrom(users, nickname, 0);
    FirstFreeIsSuffix(users, nickname, k);
    Candidate(nickname, k)
  }

  lemma FirstFreeIsSuffix(users: seq<User>, nickname: string, k: nat)
    requires k == FirstFreeFrom(users, nickname, 0)
    ensures Taken(users, nickname) ==> (1 <= k && Candidate(nickname, k) == nickname + "_" + NatToString(k)
      && forall j: nat :: 1 <= j < k ==> Taken(users, nickname + "_" + NatToString(j)))
  {
    if Taken(users, nickname) {
      forall j: nat | 1 <= j < k ensures Taken(users, nickname + "_" + NatToString(j)) {
        assert Candidate(nickname, j) == nickname + "_" + NatToString(j);
      }
    }
  }

  // --------------------------------------------------------------- profiles

  const DefaultPreference := Preference("", "", "", 60)

  /** A fresh profile: default preferences, empty lists, no summary, both
      timestamps `now`. */
  function NewUser(id: string, nickname: string, now: int): (u: User)
    ensures u.id == id && u.nickname == nickname
    ensures u.preferences.visitPeriod == "" && u.preferences.zodiacSign == "" && u.preferences.mbtiType == ""
    ensures u.preferences.visitDuration == 60
    ensures u.selectedArtifacts == [] && u.favoriteArtifacts == [] && u.visitSummary.None?
    ensures u.createdAt == now && u.updatedAt == now
  {
    User(id, nickname, DefaultPreference, [], [], None, now, now)
  }

  /** A `Partial<UserPreference>`: absent fields are `None`. */
  datatype PreferencePatch = PreferencePatch(
    visitPeriod: Option<string>,
    zodiacSign: Option<string>,
    mbtiType: Option<string>,
    visitDuration: Option<int>)

  /** `{...p, ...patch}`: each field present in the patch overrides, every
      other field is kept. */
  function MergePreference(p: Preference, patch: PreferencePatch): (r: Preference)
    ensures r.visitPeriod == if patch.visitPeriod.Some? then patch.visitPeriod.value else p.visitPeriod
    ensures r.zodiacSign == if patch.zodiacSign.Some? then patch.zodiacSign.value else p.zodiacSign
    ensures r.mbtiType == if patch.mbtiType.Some? then patch.mbtiType.value else p.mbtiType
    ensures r.visitDuration == if patch.visitDuration.Some? then patch.visitDuration.value else p.visitDuration
  {
    Preference(
      patch.visitPeriod.GetOr(p.visitPeriod),
      patch.zodiacSign.GetOr(p.zodiacSign),
      patch.mbtiType.GetOr(p.mbtiType),
      patch.visitDuration.GetOr(p.visitDuration))
  }

  /** Applying the same patch twice is applying it once, and an empty patch
      changes nothing. */
  lemma MergePreferenceLaws(p: Preference, patch: PreferencePatch)
    ensures MergePreference(MergePreference(p, patch), patch) == MergePreference(p, patch)
    ensures MergePreference(p, PreferencePatch(None, None, None, None)) == p
  {
  }

  /** The id lists of the given users, one per user. */
  function FavoriteLists(users: seq<User>): (r: seq<seq<string>>)
    ensures |r| == |users|
    ensures forall i :: 0 <= i < |users| ==> r[i] == users[i].favoriteArtifacts
  {
    seq(|users|, i requires 0 <= i < |users| => users[i].favoriteArtifacts)
  }

  /** Every favorite of the given users, user by user, repeats included. */
  function AllFavorites(users: seq<User>): seq<string> {
    Flatten(FavoriteLists(users))
  }

  /** `[...new Set(users.filter(keep).flatMap(u => u.favoriteArtifacts))]`:
      the union of the kept users' favorites, first occurrence first. */
  function SimilarFavorites(users: seq<User>, keep: User -> bool): (r: seq<string>)
    ensures Distinct(r)
    ensures forall x :: x in r <==> exists u :: u in users && keep(u) && x in u.favoriteArtifacts
    ensures InFirstOccurrenceOrder(r, AllFavorites(Filter(keep, users)))
  {
    var similar := Filter(keep, users);
    var lists := FavoriteLists(similar);
    var r := Dedup(Flatten(lists));
    DedupOrder(Flatten(lists));
    forall x | x in r ensures exists u :: u in users && keep(u) && x in u.favoriteArtifacts {
      var i :| 0 <= i < |lists| && x in lists[i];
      assert similar[i] in similar;
    }
    forall x, u | u in users && keep(u) && x in u.favoriteArtifacts ensures x in r {
      var i :| 0 <= i < |similar| && similar[i] == u;
      assert x in lists[i];
    }
    r
  }

  function SameMbti(mbtiType: string): User -> bool {
    (u: User) => u.preferences.mbtiType == mbtiType
  }

  function SameZodiac(zodiacSign: string): User -> bool {
    (u: User) => u.preferences.zodiacSign == zodiacSign
  }

  /** `getSimilarMbtiFavorites` on a user list. */
  function SimilarMbtiFavorites(users: seq<User>, mbtiType: string): (r: seq<string>)
    ensures Distinct(r)
    ensures forall x :: x in r <==>
      exists u :: u in users && u.preferences.mbtiType == mbtiType && x in u.favoriteArtifacts
    ensures InFirstOccurrenceOrder(r, AllFavorites(Filter(SameMbti(mbtiType), users)))
  {
    SimilarFavorites(users, SameMbti(mbtiType))
  }

  /** `getSimilarZodiacFavorites` on a user list. */
  function SimilarZodiacFavorites(users: seq<User>, zodiacSign: string): (r: seq<string>)
    ensures Distinct(r)
    ensures forall x :: x in r <==>
      exists u :: u in users && u.preferences.zodiacSign == zodiacSign && x in u.favoriteArtifacts
    ensures InFirstOccurrenceOrder(r, AllFavorites(Filter(SameZodiac(zodiacSign), users)))
  {
    SimilarFavorites(users, SameZodiac(zodiacSign))
  }

  /** A created profile can be found again by its nickname and, when its id
      is fresh, by its id. */
  lemma CreatedUserIsFound(users: seq<User>, nickname: string, freshId: string, now: int)
    requires forall u :: u in users ==> u.id != freshId
    ensures var u := NewUser(freshId, UniqueNickname(users, nickname), now);
      UserByNickname(users + [u], u.nickname) == Some(u) && UserById(users + [u], freshId) == Some(u)
  {
    var u := NewUser(freshId, UniqueNickname(users, nickname), now);
    var all := users + [u];
    assert all[|users|] == u;
    forall j | 0 <= j < |users| ensures all[j].nickname != u.nickname && all[j].id != freshId {
      assert all[j] in users;
    }
    assert FindUser(all, freshId) == Some(|users|);
  }

  /** Rewriting the profile found for an id, keeping its id, leaves it the
      profile found for that id. */
  lemma FindUserAfterUpdate(users: seq<User>, id: string, u: User)
    requires FindUser(users, id).Some? && u.id == id
    ensures var i := FindUser(users, id).value;
      FindUser(users[i := u], id) == Some(i) && UserById(users[i := u], id) == Some(u)
  {
    var i := FindUser(users, id).value;
    var after := users[i := u];
    assert after[i].id == id;
  }

  // ----------------------------------------------------------------- storage

  /** The storage keys this service and the favorites service use, as one
      value. */
  datatype Storage = Storage(
    users: seq<User>,
    currentUserId: Option<string>,
    legacySelected: Option<seq<string>>,
    legacyFavorites: Option<seq<string>>)

  /** Browser `localStorage` as the services see it: the user list
      (`museum_users`), the current-user id (`museum_current_user`)
      and the two legacy id lists (`preVisitSelectedArtifacts`,
      `favoriteArtifacts`). Outside a browser (`isBrowser` false) reads see
      nothing and writes are dropped. */
  class BrowserStore {
    const isBrowser: bool
    var users: seq<User>
    var currentUserId: Option<string>
    var legacySelected: Option<seq<string>>
    var legacyFavorites: Option<seq<string>>

    constructor(isBrowser: bool, initial: Storage)
      ensures this.isBrowser == isBrowser && Snapshot() == initial
    {
      this.isBrowser := isBrowser;
      users := initial.users;
      currentUserId := initial.currentUserId;
      legacySelected := initial.legacySelected;
      legacyFavorites := initial.legacyFavorites;
    }

    function Snapshot(): Storage
      reads this
    {
      Storage(users, currentUserId, legacySelected, legacyFavorites)
    }

    /** `getAllUsers`. */
    function AllUsers(): (r: seq<User>)
      reads this
      ensures !isBrowser ==> r == []
    {
      if isBrowser then users else []
    }

    /** `getCurrentUserId`. */
    function CurrentUserId(): (r: Option<string>)
      reads this
      ensures !isBrowser ==> r.None?
    {
      if isBrowser then currentUserId else None
    }

    /** `saveUsers`: replaces the whole stored list. */
    method SaveUsers(list: seq<User>)
      modifies this
      ensures Snapshot() == if isBrowser then old(Snapshot()).(users := list) else old(Snapshot())
    {
      if isBrowser {
        users := list;
      }
    }

    /** `setCurrentUserId`. */
    method SetCurrentUserId(id: string)
      modifies this
      ensures Snapshot() == if isBrowser then old(Snapshot()).(currentUserId := Some(id)) else old(Snapshot())
    {
      if isBrowser {
        currentUserId := Some(id);
      }
    }

    /** `createUser`: refuses a taken nickname; otherwise appends a fresh
        profile and makes it current. */
    method CreateUser(nickname: string, freshId: string, now: int) returns (u: Option<User>)
      modifies this
      ensures Taken(old(AllUsers()), nickname) ==> u.None? && Snapshot() == old(Snapshot())
      ensures !Taken(old(AllUsers()), nickname) ==> u == Some(NewUser(freshId, nickname, now))
      ensures !Taken(old(AllUsers()), nickname) ==> (Snapshot() ==
        if isBrowser then old(Snapshot()).(users := old(users) + [u.value], currentUserId := Some(freshId))
        else old(Snapshot()))
    {
      if UserByNickname(AllUsers(), nickname).Some? {
        return None;
      }
      var user := NewUser(freshId, nickname, now);
      var list := AllUsers();
      SaveUsers(list + [user]);
      SetCurrentUserId(user.id);
      u := Some(user);
    }

    /** `createUserWithUniqueNickname`: tries the nickname, then
        `${nickname}_1`, `${nickname}_2`, ... until one is free, and creates
        the profile under it. */
    method CreateUserWithUniqueNickname(nickname: string, freshId: string, now: int) returns (u: User)
      modifies this
      ensures u == NewUser(freshId, UniqueNickname(old(AllUsers()), nickname), now)
      ensures Snapshot() ==
        if isBrowser then old(Snapshot()).(users := old(users) + [u], currentUserId := Some(freshId))
        else old(Snapshot())
    {
      var unique := nickname;
      var counter: nat := 1;
      while UserByNickname(AllUsers(), unique).Some?
        invariant Snapshot() == old(Snapshot())
        invariant 1 <= counter <= |AllUsers()| + 1
        invariant unique == Candidate(nickname, counter - 1)
        invariant forall j :: 0 <= j < counter - 1 ==> Taken(AllUsers(), Candidate(nickname, j))
        decreases |AllUsers()| + 1 - counter
      {
        TakenBound(AllUsers(), nickname, counter);
        unique := nickname + "_" + NatToString(counter);
        counter := counter + 1;
      }
      assert unique == UniqueNickname(AllUsers(), nickname) by {
        var k := FirstFreeFrom(AllUsers(), nickname, 0);
        assert !Taken(AllUsers(), Candidate(nickname, counter - 1));
      }
      u := NewUser(freshId, unique, now);
      var list := AllUsers();
      SaveUsers(list + [u]);
      SetCurrentUserId(u.id);
    }

    /** `updateUserPreferences`: merges the patch into the first profile
        with that id and stamps it; an unknown id changes nothing. */
    method UpdateUserPreferences(userId: string, patch: PreferencePatch, now: int) returns (u: Option<User>)
      modifies this
      ensures FindUser(old(AllUsers()), userId).None? ==> u.None? && Snapshot() == old(Snapshot())
      ensures FindUser(old(AllUsers()), userId).Some? ==>
        var i := FindUser(old(AllUsers()), userId).value;
        var before := old(AllUsers())[i];
        u == Some(before.(preferences := MergePreference(before.preferences, patch), updatedAt := now))
        && Snapshot() == old(Snapshot()).(users := old(users)[i := u.value])
    {
      var list := AllUsers();
      var index := FindUser(list, userId);
      if index.None? {
        return None;
      }
      var i := index.value;
      var updated := list[i].(preferences := MergePreference(list[i].preferences, patch), updatedAt := now);
      SaveUsers(list[i := updated]);
      u := Some(updated);
    }

    /** `updateUserSelectedArtifacts`: replaces the selection list. */
    method UpdateUserSelectedArtifacts(userId: string, ids: seq<string>, now: int) returns (u: Option<User>)
      modifies this
      ensures FindUser(old(AllUsers()), userId).None? ==> u.None? && Snapshot() == old(Snapshot())
      ensures FindUser(old(AllUsers()), userId).Some? ==>
        var i := FindUser(old(AllUsers()), userId).value;
        u == Some(old(AllUsers())[i].(selectedArtifacts := ids, updatedAt := now))
        && Snapshot() == old(Snapshot()).(users := old(users)[i := u.value])
    {
      var list := AllUsers();
      var index := FindUser(list, userId);
      if index.None? {
        return None;
      }
      var i := index.value;
      var updated := list[i].(selectedArtifacts := ids, updatedAt := now);
      SaveUsers(list[i := updated]);
      u := Some(updated);
    }

    /** `updateUserFavoriteArtifacts`: replaces the favorites list. */
    method UpdateUserFavoriteArtifacts(userId: string, ids: seq<string>, now: int) returns (u: Option<User>)
      modifies this
      ensures FindUser(old(AllUsers()), userId).None? ==> u.None? && Snapshot() == old(Snapshot())
      ensures FindUser(old(AllUsers()), userId).Some? ==>
        var i := FindUser(old(AllUsers()), userId).value;
        u == Some(old(AllUsers())[i].(favoriteArtifacts := ids, updatedAt := now))
        && Snapshot() == old(Snapshot()).(users := old(users)[i := u.value])
    {
      var list := AllUsers();
      var index := FindUser(list, userId);
      if index.None? {
        return None;
      }
      var i := index.value;
      var updated := list[i].(favoriteArtifacts := ids, updatedAt := now);
      SaveUsers(list[i := updated]);
      u := Some(updated);
    }

    /** `updateUserVisitSummary`: sets the summary text. */
    method UpdateUserVisitSummary(userId: string, summary: string, now: int) returns (u: Option<User>)
      modifies this
      ensures FindUser(old(AllUsers()), userId).None? ==> u.None? && Snapshot() == old(Snapshot())
      ensures FindUser(old(AllUsers()), userId).Some? ==>
        var i := FindUser(old(AllUsers()), userId).value;
        u == Some(old(AllUsers())[i].(visitSummary := Some(summary), updatedAt := now))
        && Snapshot() == old(Snapshot()).(users := old(users)[i := u.value])
    {
      var list := AllUsers();
      var index := FindUser(list, userId);
      if index.None? {
        return None;
      }
      var i := index.value;
      var updated := list[i].(visitSummary := Some(summary), updatedAt := now);
      SaveUsers(list[i := updated]);
      u := Some(updated);
    }
  }
}
