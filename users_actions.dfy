/** The server actions on user profiles. The reads are functions of the
    `user_profiles` rows; `createUserProfile`, `updateUserProfile`,
    `updateUserRole` and `deactivateUser` are methods on the repository
    object. An id or username that is empty or white space only is rejected
    before the repository is called. */
module UsersActions {
  import opened Wrappers
  import opened Text
  import opened Seqs
  import opened Entities
  import opened Envelope
  import UsersRepository
  import TitlesActions

  /** `getUsers`. */
  function GetUsers(profiles: seq<UserProfile>, fault: Option<string>): (r: ActionResult<seq<UserProfile>>)
    ensures fault.Some? ==> r == Fail("Failed to fetch users")
    ensures fault.None? ==> r.success && r.data.Some? && multiset(r.data.value) == multiset(profiles)
  {
    Catch(UsersRepository.FindAll(profiles, fault), "Failed to fetch users")
  }

  /** `getUserById`: the id is looked up exactly as given, untrimmed. */
  function GetUserById(profiles: seq<UserProfile>, id: string, fault: Option<string>): (r: ActionResult<Option<UserProfile>>)
    ensures IsBlank(id) ==> r == Fail("Invalid user ID")
    ensures !IsBlank(id) && fault.Some? ==> r == Fail("Failed to fetch user")
    ensures !IsBlank(id) && fault.None? ==> r.success && r.data.Some?
    ensures r.success && r.data.value.Some? ==> r.data.value.value in profiles && r.data.value.value.id == id
    ensures r.success && UsersRepository.UniqueProfileIds(profiles) ==>
      (r.data.value.Some? <==> UsersRepository.HasProfile(profiles, id))
  {
    if IsBlank(id) then Fail("Invalid user ID")
    else Catch(UsersRepository.FindByStringId(profiles, id, fault), "Failed to fetch user")
  }

  /** `getUserByUsername`: the trimmed username is looked up, case-sensitively. */
  function GetUserByUsername(profiles: seq<UserProfile>, username: string, fault: Option<string>)
    : (r: ActionResult<Option<UserProfile>>)
    ensures IsBlank(username) ==> r == Fail("Invalid username")
    ensures !IsBlank(username) && fault.Some? ==> r == Fail("Failed to fetch user by username")
    ensures !IsBlank(username) && fault.None? ==>
      r == Succeed(UsersRepository.FindByUsername(profiles, Trim(username), None).value)
    ensures r.success && r.data.value.Some? ==>
      r.data.value.value in profiles && r.data.value.value.username == Trim(username)
  {
    if IsBlank(username) then Fail("Invalid username")
    else Catch(UsersRepository.FindByUsername(profiles, Trim(username), fault), "Failed to fetch user by username")
  }

  /** `getUsersByRole`. */
  function GetUsersByRole(profiles: seq<UserProfile>, role: Role, fault: Option<string>): (r: ActionResult<seq<UserProfile>>)
    ensures fault.Some? ==> r == Fail("Failed to fetch users by role")
    ensures fault.None? ==> r.success && r.data.Some?
    ensures r.success ==>
      forall u :: u in r.data.value <==> u in profiles && u.role == role && UsersRepository.IsActive(u)
    ensures r.success ==> SortedBy(r.data.value, UserNewestFirst)
  {
    Catch(UsersRepository.FindByRole(profiles, role, fault), "Failed to fetch users by role")
  }

  /** `getActiveUsers`. */
  function GetActiveUsers(profiles: seq<UserProfile>, fault: Option<string>): (r: ActionResult<seq<UserProfile>>)
    ensures fault.Some? ==> r == Fail("Failed to fetch active users")
    ensures fault.None? ==> r.success && r.data.Some?
    ensures r.success ==> forall u :: u in r.data.value <==> u in profiles && UsersRepository.IsActive(u)
    ensures r.success ==> SortedBy(r.data.value, UserNewestFirst)
  {
    Catch(UsersRepository.FindActive(profiles, fault), "Failed to fetch active users")
  }

  /** `searchUsers`: the trimmed query must have two characters at least. */
  function SearchUsers(profiles: seq<UserProfile>, query: string, collate: (string, string) -> bool,
                       fault: Option<string>): (r: ActionResult<seq<UserProfile>>)
    ensures |Trim(query)| < 2 ==> r == Fail("Search query must be at least 2 characters long")
    ensures |Trim(query)| >= 2 && fault.Some? ==> r == Fail("Failed to search users")
    ensures |Trim(query)| >= 2 && fault.None? ==> r.success && r.data.Some?
    ensures r.success ==> forall u :: u in r.data.value <==>
      u in profiles && UsersRepository.UserMatches(u, Trim(query)) && UsersRepository.IsActive(u)
    ensures r.success && TotalPreorder(collate) ==> SortedBy(r.data.value, UsernameAscending(collate))
  {
    if |Trim(query)| < 2 then Fail("Search query must be at least 2 characters long")
    else Catch(UsersRepository.Search(profiles, Trim(query), collate, fault), "Failed to search users")
  }

  /** The argument of `createUserProfile`, a profile without `joined_at`
      whose role may be left out. */
  datatype NewProfile = NewProfile(
    id: string,
    username: string,
    displayName: Option<string>,
    avatarUrl: Option<string>,
    bio: Option<string>,
    role: Option<Role>,
    isActive: Option<bool>)

  /** The username test `createUserProfile` and `updateUserProfile` share. */
  function UsernameError(username: string): (e: Option<string>)
    ensures e.None? <==> 3 <= |Trim(username)| <= 50
    ensures |Trim(username)| < 3 ==> e == Some("Username must be at least 3 characters long")
    ensures |Trim(username)| > 50 ==> e == Some("Username must be less than 50 characters")
  {
    if username == [] || |Trim(username)| < 3 then Some("Username must be at least 3 characters long")
    else if |Trim(username)| > 50 then Some("Username must be less than 50 characters")
    else None
  }

  /** `text && text.trim().length > max`: an absent or empty text is not checked. */
  predicate TooLong(text: Option<string>, max: nat) {
    text.Some? && text.value != [] && |Trim(text.value)| > max
  }

  /** The checks of `createUserProfile` before it reads the table, in order. */
  function CreateUserProfileError(data: NewProfile): (e: Option<string>)
    ensures IsBlank(data.id) ==> e == Some("User ID is required")
    ensures !IsBlank(data.id) ==> UsernameError(data.username).Some? ==> e == UsernameError(data.username)
    ensures !IsBlank(data.id) && UsernameError(data.username).None? && TooLong(data.displayName, 100) ==>
      e == Some("Display name must be less than 100 characters")
    ensures e.None? <==>
      !IsBlank(data.id) && UsernameError(data.username).None? &&
      !TooLong(data.displayName, 100) && !TooLong(data.bio, 500)
  {
    if IsBlank(data.id) then Some("User ID is required")
    else if UsernameError(data.username).Some? then UsernameError(data.username)
    else if TooLong(data.displayName, 100) then Some("Display name must be less than 100 characters")
    else if TooLong(data.bio, 500) then Some("Bio must be less than 500 characters")
    else None
  }

  /** The profile `createUserProfile` hands to `createProfile`: the username
      trimmed and lower-cased, blank texts left out, role `reader` and
      `is_active` true by default. */
  function NewProfileRecord(data: NewProfile): (u: UserProfile)
    ensures u.id == data.id && u.avatarUrl == data.avatarUrl
    ensures u.username == ToLower(Trim(data.username))
    ensures u.displayName == TitlesActions.TrimmedOrAbsent(data.displayName)
    ensures u.bio == TitlesActions.TrimmedOrAbsent(data.bio)
    ensures u.role == data.role.GetOr(Reader)
    ensures u.isActive == Some(data.isActive.GetOr(true))
    ensures u.joinedAt.None?
  {
    UserProfile(data.id, ToLower(Trim(data.username)), TitlesActions.TrimmedOrAbsent(data.displayName),
                data.avatarUrl, TitlesActions.TrimmedOrAbsent(data.bio), data.role.GetOr(Reader),
                Some(data.isActive.GetOr(true)), None)
  }

  /** A username that passes the checks is stored trimmed and lower-cased,
      and the stored form passes the checks again and is its own normal form. */
  lemma NormalUsername(username: string)
    requires UsernameError(username).None?
    ensures var n := ToLower(Trim(username));
            3 <= |n| <= 50 && Trim(n) == n && (forall i :: 0 <= i < |n| ==> !IsUpper(n[i])) &&
            UsernameError(n).None? && ToLower(Trim(n)) == n
  {
    var t := Trim(username);
    var n := ToLower(t);
    assert |n| == |t|;
    LowerOfTrimmedIsTrimmed(username);
    assert Trim(n) == n;
    LowerIdempotent(t);
    assert ToLower(n) == n;
    assert forall i :: 0 <= i < |n| ==> !IsUpper(n[i]);
  }

  /** An optional text the checks accept is stored within the same bound, and
      the stored form passes the check again and is its own normal form. */
  lemma NormalText(text: Option<string>, max: nat)
    requires !TooLong(text, max)
    ensures var t := TitlesActions.TrimmedOrAbsent(text);
            (t.None? || |t.value| <= max) && !TooLong(t, max) && TitlesActions.TrimmedOrAbsent(t) == t
  {
    TitlesActions.TrimmedOrAbsentStable(text);
    if text.Some? {
      TrimIdempotent(text.value);
    }
  }

  /** A profile the checks accept is stored with a username of 3 to 50
      characters with no capital letter and no surrounding white space, short
      enough texts, and a definite `is_active`. */
  lemma NewProfileRecordIsNormal(data: NewProfile)
    requires CreateUserProfileError(data).None?
    ensures var u := NewProfileRecord(data);
            3 <= |u.username| <= 50 && Trim(u.username) == u.username &&
            (forall i :: 0 <= i < |u.username| ==> !IsUpper(u.username[i])) &&
            (u.displayName.None? || |u.displayName.value| <= 100) &&
            (u.bio.None? || |u.bio.value| <= 500) && u.isActive.Some?
  {
    NormalUsername(data.username);
    NormalText(data.displayName, 100);
    NormalText(data.bio, 500);
  }

  /** Submitted again, a stored profile passes the checks and is stored unchanged. */
  lemma NewProfileRecordResubmits(data: NewProfile)
    requires CreateUserProfileError(data).None?
    ensures var u := NewProfileRecord(data);
            var again := NewProfile(u.id, u.username, u.displayName, u.avatarUrl, u.bio, Some(u.role), u.isActive);
            CreateUserProfileError(again).None? && NewProfileRecord(again) == u
  {
    NormalUsername(data.username);
    NormalText(data.displayName, 100);
    NormalText(data.bio, 500);
  }

  lemma LowerIdempotent(s: string)
    ensures ToLower(ToLower(s)) == ToLower(s)
  {
  }

  /** `createUserProfile`: the checks, then `findByUsername` of the trimmed
      username, then `createProfile`. Any error of either repository call is
      reported as 'Failed to create user profile'. */
  method CreateUserProfile(repo: UsersRepository.UsersRepository, data: NewProfile, now: Timestamp,
                           lookupFault: Option<string>, createFault: Option<string>)
    returns (r: ActionResult<UserProfile>)
    requires repo.Valid()
    modifies repo
    ensures repo.Valid()
    ensures CreateUserProfileError(data).Some? ==> r == Fail(CreateUserProfileError(data).value) && unchanged(repo)
    ensures CreateUserProfileError(data).None? && lookupFault.Some? ==>
      r == Fail("Failed to create user profile") && unchanged(repo)
    ensures CreateUserProfileError(data).None? && lookupFault.None? &&
            UsersRepository.FindByUsername(old(repo.profiles), Trim(data.username), None).value.Some? ==>
      r == Fail("Username already exists") && unchanged(repo)
    ensures CreateUserProfileError(data).None? && lookupFault.None? &&
            UsersRepository.FindByUsername(old(repo.profiles), Trim(data.username), None).value.None? &&
            (createFault.Some? || UsersRepository.HasProfile(old(repo.profiles), data.id)) ==>
      r == Fail("Failed to create user profile") && repo.profiles == old(repo.profiles)
    ensures CreateUserProfileError(data).None? && lookupFault.None? &&
            UsersRepository.FindByUsername(old(repo.profiles), Trim(data.username), None).value.None? &&
            createFault.None? && !UsersRepository.HasProfile(old(repo.profiles), data.id) ==>
      r == Succeed(NewProfileRecord(data).(joinedAt := Some(now))) &&
      repo.profiles == old(repo.profiles) + [r.data.value]
  {
    var check := CreateUserProfileError(data);
    if check.Some? {
      return Fail(check.value);
    }
    var existing := UsersRepository.FindByUsername(repo.profiles, Trim(data.username), lookupFault);
    if existing.Err? {
      return Fail("Failed to create user profile");
    }
    if existing.value.Some? {
      return Fail("Username already exists");
    }
    var created := repo.CreateProfile(NewProfileRecord(data), now, createFault);
    r := Catch(created, "Failed to create user profile");
  }

  /** The pre-check looks up the username as typed (trimmed), while the stored
      username is lower-cased: when only the lower-cased form is taken, the
      check lets the name through and the new profile repeats a username. */
  lemma CaseVariantPassesPreCheck(profiles: seq<UserProfile>, data: NewProfile, taken: UserProfile)
    requires taken in profiles && taken.username == ToLower(Trim(data.username))
    requires forall u :: u in profiles ==> u.username != Trim(data.username)
    ensures UsersRepository.FindByUsername(profiles, Trim(data.username), None).value.None?
    ensures NewProfileRecord(data).username == taken.username
  {
  }

  /** A concrete case of `CaseVariantPassesPreCheck`, showing its
      hypotheses can be met: with "alice" stored, the pre-check looks up
      "Alice", finds nothing, and the action then stores "alice" again. */
  lemma CaseVariantExample(taken: UserProfile)
    requires taken.username == "alice"
    ensures var data := NewProfile("u2", "Alice", None, None, None, None, None);
            Trim(data.username) == "Alice" && ToLower(Trim(data.username)) == taken.username &&
            Trim(data.username) != taken.username
  {
    TrimOfTrimmed("Alice");
    assert ToLower("Alice") == "alice" by {
      assert ToLower("Alice")[0] == LowerChar('A');
    }
  }

  /** A created profile is found again by its stored username, provided no
      other profile holds that username. */
  lemma CreatedProfileIsFoundByUsername(profiles: seq<UserProfile>, u: UserProfile)
    requires forall v :: v in profiles ==> v.username != u.username
    requires !IsBlank(u.username) && Trim(u.username) == u.username
    ensures GetUserByUsername(profiles + [u], u.username, None) == Succeed(Some(u))
  {
    var after := profiles + [u];
    assert UsersRepository.OnlyOneNamed(after, |profiles|, u.username) by {
      forall j | 0 <= j < |after| && j != |profiles|
        ensures after[j].username != u.username
      {
        assert after[j] in profiles;
      }
    }
  }

  /** The checks of `updateUserProfile`, in order; fields not supplied are not checked. */
  function UpdateUserProfileError(id: string, patch: ProfilePatch): (e: Option<string>)
    ensures IsBlank(id) ==> e == Some("Invalid user ID")
    ensures !IsBlank(id) && patch.username.Some? ==> UsernameError(patch.username.value).Some? ==>
      e == UsernameError(patch.username.value)
    ensures e.None? <==>
      !IsBlank(id) && (patch.username.None? || UsernameError(patch.username.value).None?) &&
      !TooLong(patch.displayName, 100) && !TooLong(patch.bio, 500)
  {
    if IsBlank(id) then Some("Invalid user ID")
    else if patch.username.Some? && UsernameError(patch.username.value).Some? then UsernameError(patch.username.value)
    else if TooLong(patch.displayName, 100) then Some("Display name must be less than 100 characters")
    else if TooLong(patch.bio, 500) then Some("Bio must be less than 500 characters")
    else None
  }

  /** The caller's `userData` after the checks of `updateUserProfile`: once
      the id and a supplied username have passed, the username is replaced by
      its trimmed, lower-cased form, even if a later check fails. */
  function ProfileCallerPatchAfterChecks(id: string, patch: ProfilePatch): (p: ProfilePatch)
    ensures p.(username := patch.username) == patch
    ensures !IsBlank(id) && patch.username.Some? && UsernameError(patch.username.value).None? ==>
      p.username == Some(ToLower(Trim(patch.username.value)))
    ensures !(!IsBlank(id) && patch.username.Some? && UsernameError(patch.username.value).None?) ==> p == patch
  {
    if !IsBlank(id) && patch.username.Some? && UsernameError(patch.username.value).None? then
      patch.(username := Some(ToLower(Trim(patch.username.value))))
    else patch
  }

  /** The update `updateUserProfile` sends: blank display name and bio are
      left out, so the stored ones stay. */
  function ProfileUpdateSent(patch: ProfilePatch): (p: ProfilePatch)
    ensures p.displayName == TitlesActions.TrimmedOrAbsent(patch.displayName)
    ensures p.bio == TitlesActions.TrimmedOrAbsent(patch.bio)
    ensures p.username == patch.username && p.avatarUrl == patch.avatarUrl
    ensures p.role == patch.role && p.isActive == patch.isActive
  {
    patch.(displayName := TitlesActions.TrimmedOrAbsent(patch.displayName),
           bio := TitlesActions.TrimmedOrAbsent(patch.bio))
  }

  /** `updateUserProfile`. Besides the envelope it returns the caller's
      `userData` as the action leaves it. */
  method UpdateUserProfile(repo: UsersRepository.UsersRepository, id: string, patch: ProfilePatch,
                           fault: Option<string>)
    returns (r: ActionResult<UserProfile>, callerPatch: ProfilePatch)
    requires repo.Valid()
    modifies repo
    ensures repo.Valid()
    ensures callerPatch == ProfileCallerPatchAfterChecks(id, patch)
    ensures UpdateUserProfileError(id, patch).Some? ==> r == Fail(UpdateUserProfileError(id, patch).value) && unchanged(repo)
    ensures UpdateUserProfileError(id, patch).None? && (fault.Some? || !UsersRepository.HasProfile(old(repo.profiles), id)) ==>
      r == Fail("Failed to update user profile") && repo.profiles == old(repo.profiles)
    ensures UpdateUserProfileError(id, patch).None? && fault.None? && UsersRepository.HasProfile(old(repo.profiles), id) ==>
      var sent := ProfileUpdateSent(callerPatch);
      repo.profiles == UsersRepository.UpdatedProfiles(old(repo.profiles), id, sent) &&
      r == Succeed(ApplyProfilePatch(sent, UsersRepository.ProfileLookup(old(repo.profiles), id).value))
  {
    callerPatch := ProfileCallerPatchAfterChecks(id, patch);
    var check := UpdateUserProfileError(id, patch);
    if check.Some? {
      return Fail(check.value), callerPatch;
    }
    var updated := repo.UpdateProfile(id, ProfileUpdateSent(callerPatch), fault);
    r := Catch(updated, "Failed to update user profile");
  }

  /** An accepted update that names a username stores it trimmed and
      lower-cased, within 3 to 50 characters. */
  lemma {:induction false} UpdatedUsernameIsNormal(id: string, patch: ProfilePatch, u: UserProfile)
    requires UpdateUserProfileError(id, patch).None? && patch.username.Some?
    ensures var stored := ApplyProfilePatch(ProfileUpdateSent(ProfileCallerPatchAfterChecks(id, patch)), u);
            stored.username == ToLower(Trim(patch.username.value)) && Trim(stored.username) == stored.username &&
            3 <= |stored.username| <= 50 && stored.id == u.id
  {
    NormalUsername(patch.username.value);
  }

  /** `updateUserRole`. */
  method UpdateUserRole(repo: UsersRepository.UsersRepository, userId: string, role: Role, fault: Option<string>)
    returns (r: ActionResult<UserProfile>)
    requires repo.Valid()
    modifies repo
    ensures repo.Valid()
    ensures IsBlank(userId) ==> r == Fail("Invalid user ID") && unchanged(repo)
    ensures !IsBlank(userId) && (fault.Some? || !UsersRepository.HasProfile(old(repo.profiles), userId)) ==>
      r == Fail("Failed to update user role") && repo.profiles == old(repo.profiles)
    ensures !IsBlank(userId) && fault.None? && UsersRepository.HasProfile(old(repo.profiles), userId) ==>
      repo.profiles == UsersRepository.UpdatedProfiles(old(repo.profiles), userId, UsersRepository.RoleChange(role)) &&
      r == Succeed(UsersRepository.ProfileLookup(old(repo.profiles), userId).value.(role := role))
  {
    if IsBlank(userId) {
      return Fail("Invalid user ID");
    }
    var updated := repo.UpdateRole(userId, role, fault);
    r := Catch(updated, "Failed to update user role");
  }

  /** `deactivateUser`. */
  method DeactivateUser(repo: UsersRepository.UsersRepository, userId: string, fault: Option<string>)
    returns (r: ActionResult<UserProfile>)
    requires repo.Valid()
    modifies repo
    ensures repo.Valid()
    ensures IsBlank(userId) ==> r == Fail("Invalid user ID") && unchanged(repo)
    ensures !IsBlank(userId) && (fault.Some? || !UsersRepository.HasProfile(old(repo.profiles), userId)) ==>
      r == Fail("Failed to deactivate user") && repo.profiles == old(repo.profiles)
    ensures !IsBlank(userId) && fault.None? && UsersRepository.HasProfile(old(repo.profiles), userId) ==>
      repo.profiles == UsersRepository.UpdatedProfiles(old(repo.profiles), userId, UsersRepository.Deactivation) &&
      r == Succeed(UsersRepository.ProfileLookup(old(repo.profiles), userId).value.(isActive := Some(false)))
  {
    if IsBlank(userId) {
      return Fail("Invalid user ID");
    }
    var updated := repo.Deactivate(userId, fault);
    r := Catch(updated, "Failed to deactivate user");
  }
}
