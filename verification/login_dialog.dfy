/** The nickname dialog (`components/UserLoginDialog.tsx`): validation of
    the typed nickname, creation of the profile under a unique nickname and
    the notice shown when the nickname had to change. */
module LoginDialog {
  import opened Wrappers
  import opened Strings
  import opened UserModel
  import opened UserService

  const EmptyError := "请输入昵称"
  const ShortError := "昵称至少需要2个字符"
  const LongError := "昵称不能超过20个字符"

  /** The guard sequence of `handleSubmit`: blank after trimming, then the
      untrimmed length below 2, then above 20. */
  function NicknameError(nickname: string): (r: Option<string>)
    ensures r.None? <==> JsTrim(nickname) != "" && 2 <= |nickname| <= 20
    ensures JsTrim(nickname) == "" ==> r == Some(EmptyError)
    ensures JsTrim(nickname) != "" && |nickname| < 2 ==> r == Some(ShortError)
    ensures JsTrim(nickname) != "" && |nickname| > 20 ==> r == Some(LongError)
  {
    if JsTrim(nickname) == "" then Some(EmptyError)
    else if |nickname| < 2 then Some(ShortError)
    else if |nickname| > 20 then Some(LongError)
    else None
  }

  /** The length bounds apply before trimming, so a padded one-character
      nickname passes and the profile gets a one-character name. */
  lemma PaddedNicknamePasses()
    ensures NicknameError(" a") == None
    ensures JsTrim(" a") == "a"
  {
    var padded := " a";
    assert padded[1..] == "a";
    assert !IsJsWhitespace('a');
    assert TrimStart("a", IsJsWhitespace) == "a";
    assert TrimStart(padded, IsJsWhitespace) == "a";
    assert TrimEnd("a", IsJsWhitespace) == "a";
  }

  /** The notice shown when the nickname had to change. */
  function RenameNotice(typed: string, granted: string): string {
    "昵称 \"" + typed + "\" 已被使用，已为您分配昵称 \"" + granted + "\""
  }

  /** The granted nickname differs from the requested one exactly when the
      requested one is taken. */
  lemma RenamedIffTaken(users: seq<User>, nickname: string)
    ensures UniqueNickname(users, nickname) != nickname <==> Taken(users, nickname)
  {
  }

  /** The nickname a submission is granted: the trimmed one, with a
      numeric suffix when that one is taken. */
  function Granted(users: seq<User>, typed: string): string {
    UniqueNickname(users, JsTrim(typed))
  }

  /** The error after a valid submission: the rename notice when the
      granted nickname differs from the trimmed one, else the previous one. */
  function Notice(users: seq<User>, typed: string, previous: Option<string>): (r: Option<string>)
    ensures !Taken(users, JsTrim(typed)) ==> r == previous
    ensures Taken(users, JsTrim(typed)) ==> r == Some(RenameNotice(typed, Granted(users, typed)))
  {
    RenamedIffTaken(users, JsTrim(typed));
    if Granted(users, typed) != JsTrim(typed) then Some(RenameNotice(typed, Granted(users, typed)))
    else previous
  }

  /** The storage once a profile is saved and made current; outside a
      browser nothing is written. */
  function Registered(before: Storage, isBrowser: bool, created: User): (r: Storage)
    ensures isBrowser ==> r.users == before.users + [created] && r.currentUserId == Some(created.id)
    ensures !isBrowser ==> r == before
  {
    if isBrowser then before.(users := before.users + [created], currentUserId := Some(created.id))
    else before
  }

  /** The dialog state. */
  class Dialog {
    var nickname: string
    var error: Option<string>
    var isSubmitting: bool

    constructor()
      ensures nickname == "" && error == None && !isSubmitting
    {
      nickname := "";
      error := None;
      isSubmitting := false;
    }

    /** The state a valid submission leaves: a profile created from the
        trimmed nickname under a unique nickname and saved as current, the
        dialog submitting, and the rename notice shown exactly when the
        granted nickname differs from the trimmed one. */
    twostate predicate Submitted(store: BrowserStore, created: User, freshId: string, now: int)
      reads this, store
    {
      && created == NewUser(freshId, Granted(old(store.AllUsers()), old(nickname)), now)
      && nickname == old(nickname) && isSubmitting
      && store.Snapshot() == Registered(old(store.Snapshot()), store.isBrowser, created)
      && error == Notice(old(store.AllUsers()), old(nickname), old(error))
    }

    /** The state a failed check leaves: its error is shown and nothing
        else changes. */
    twostate predicate Rejected(store: BrowserStore, problem: Option<string>)
      reads this, store
    {
      && error == problem && nickname == old(nickname) && isSubmitting == old(isSubmitting)
      && store.Snapshot() == old(store.Snapshot())
    }

    /** The part of `handleSubmit` after validation. */
    method SubmitValid(store: BrowserStore, freshId: string, now: int) returns (created: User)
      modifies this, store
      ensures Submitted(store, created, freshId, now)
    {
      assert this as object != store;
      var typed := nickname;
      isSubmitting := true;
      var trimmed := JsTrim(typed);
      created := store.CreateUserWithUniqueNickname(trimmed, freshId, now);
      if created.nickname != trimmed {
        error := Some(RenameNotice(typed, created.nickname));
      }
    }

    /** The validation failure of `handleSubmit`. */
    method Reject(store: BrowserStore, problem: Option<string>)
      modifies this
      ensures Rejected(store, problem)
    {
      error := problem;
    }

    /** `handleSubmit`: an invalid nickname sets its error and creates
        nothing; a valid one creates and saves a profile from the trimmed
        nickname. */
    method HandleSubmit(store: BrowserStore, freshId: string, now: int) returns (created: Option<User>)
      modifies this, store
      ensures created.None? <==> NicknameError(old(nickname)).Some?
      ensures created.None? ==> Rejected(store, NicknameError(old(nickname)))
      ensures created.Some? ==> Submitted(store, created.value, freshId, now)
    {
      var problem := NicknameError(nickname);
      if problem.Some? {
        Reject(store, problem);
        created := None;
      } else {
        var user := SubmitValid(store, freshId, now);
        created := Some(user);
      }
    }

    /** The input's change handler: the typed text replaces the nickname
        and any error is cleared. */
    method HandleChange(value: string)
      modifies this
      ensures nickname == value && error == None && isSubmitting == old(isSubmitting)
    {
      nickname := value;
      error := None;
    }

    /** The delayed success callback of `handleSubmit`. */
    method FinishSubmit()
      modifies this
      ensures !isSubmitting && nickname == old(nickname) && error == old(error)
    {
      isSubmitting := false;
    }

    /** `handleClose`: closing while not submitting clears the nickname and
        the error; otherwise nothing changes. */
    method HandleClose(open: bool)
      modifies this
      ensures !open && !old(isSubmitting) ==> nickname == "" && error == None
      ensures open || old(isSubmitting) ==> nickname == old(nickname) && error == old(error)
      ensures isSubmitting == old(isSubmitting)
    {
      if !open && !isSubmitting {
        nickname := "";
        error := None;
      }
    }
  }
}
