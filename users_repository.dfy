/** `UsersRepository` over the `user_profiles` table, whose key is the string
    `id` of the authenticated user rather than a generated number. The table
    is the field `profiles` of a `UsersRepository` object; the finders and the
    searches are functions of it, and `createProfile`, `updateProfile`,
    `updateRole` and `deactivate` are methods that change it. */
module UsersRepository {
  import opened Wrappers
  import opened Seqs
  import opened Text
  import opened Entities
  import Repository

  const TableName := "user_profiles"

  /** The message Postgres gives when an insert repeats a primary key. */
  const DuplicateKey := "duplicate key value violates unique constraint"

  predicate HasProfile(profiles: seq<UserProfile>, id: string) {
    exists i :: 0 <= i < |profiles| && profiles[i].id == id
  }

  /** The primary key: no two profiles share an id. */
  predicate UniqueProfileIds(profiles: seq<UserProfile>) {
    forall i, j :: 0 <= i < j < |profiles| ==> profiles[i].id != profiles[j].id
  }

  /** `profiles[i]` is the one profile whose username is `username`. */
  predicate OnlyOneNamed(profiles: seq<UserProfile>, i: int, username: string) {
    0 <= i < |profiles| && profiles[i].username == username &&
    forall j :: 0 <= j < |profiles| && j != i ==> profiles[j].username != username
  }

  predicate IsActive(u: UserProfile) {
    u.isActive == Some(true)
  }

  /** The profile an `.eq('id', id).single()` finds. */
  function ProfileLookup(profiles: seq<UserProfile>, id: string): (r: Option<UserProfile>)
    ensures r.Some? ==> r.value in profiles && r.value.id == id
    ensures !HasProfile(profiles, id) ==> r.None?
    ensures UniqueProfileIds(profiles) && HasProfile(profiles, id) ==> r.Some?
  {
    var found := Filter(profiles, (u: UserProfile) => u.id == id);
    ProfileLookupCount(profiles, id);
    Repository.SingleOrNull(found)
  }

  lemma ProfileLookupCount(profiles: seq<UserProfile>, id: string)
    ensures !HasProfile(profiles, id) ==> Filter(profiles, (u: UserProfile) => u.id == id) == []
    ensures UniqueProfileIds(profiles) && HasProfile(profiles, id) ==>
      |Filter(profiles, (u: UserProfile) => u.id == id)| == 1
  {
    if !HasProfile(profiles, id) {
      FilterNone(profiles, (u: UserProfile) => u.id == id);
    }
    if UniqueProfileIds(profiles) && HasProfile(profiles, id) {
      var i :| 0 <= i < |profiles| && profiles[i].id == id;
      FilterSingleton(profiles, (u: UserProfile) => u.id == id, i);
    }
  }

  /** `findAll` of the base repository on this table. */
  function FindAll(profiles: seq<UserProfile>, fault: Option<string>): (r: Result<seq<UserProfile>>)
    ensures fault.Some? ==> r == Err("Failed to fetch " + TableName + ": " + fault.value)
    ensures fault.None? ==> r.Ok? && multiset(r.value) == multiset(profiles)
  {
    if fault.Some? then Err("Failed to fetch " + TableName + ": " + fault.value) else Ok(profiles)
  }

  /** `findByStringId`: the profile with that id, or null. */
  function FindByStringId(profiles: seq<UserProfile>, id: string, fault: Option<string>): (r: Result<Option<UserProfile>>)
    ensures fault.Some? ==> r == Err("Failed to fetch user: " + fault.value)
    ensures fault.None? ==> r.Ok?
    ensures r.Ok? && r.value.Some? ==> r.value.value in profiles && r.value.value.id == id
    ensures r.Ok? && UniqueProfileIds(profiles) ==> (r.value.Some? <==> HasProfile(profiles, id))
  {
    if fault.Some? then Err("Failed to fetch user: " + fault.value) else Ok(ProfileLookup(profiles, id))
  }

  /** `findByUsername`: the profile whose username is exactly `username`
      (case matters), or null when there is none or there are several. */
  function FindByUsername(profiles: seq<UserProfile>, username: string, fault: Option<string>): (r: Result<Option<UserProfile>>)
    ensures fault.Some? ==> r == Err("Failed to fetch user by username: " + fault.value)
    ensures fault.None? ==> r.Ok?
    ensures r.Ok? && r.value.Some? ==> r.value.value in profiles && r.value.value.username == username
    ensures r.Ok? && (forall u :: u in profiles ==> u.username != username) ==> r.value.None?
    ensures r.Ok? ==> forall i :: OnlyOneNamed(profiles, i, username) ==> r.value == Some(profiles[i])
  {
    if fault.Some? then Err("Failed to fetch user by username: " + fault.value)
    else
      var named := Filter(profiles, (u: UserProfile) => u.username == username);
      NamedProfiles(profiles, username);
      Ok(Repository.SingleOrNull(named))
  }

  lemma NamedProfiles(profiles: seq<UserProfile>, username: string)
    ensures (forall u :: u in profiles ==> u.username != username) ==>
      Filter(profiles, (u: UserProfile) => u.username == username) == []
    ensures forall i :: OnlyOneNamed(profiles, i, username) ==>
      Filter(profiles, (u: UserProfile) => u.username == username) == [profiles[i]]
  {
    if forall u :: u in profiles ==> u.username != username {
      FilterNone(profiles, (u: UserProfile) => u.username == username);
    }
    forall i | OnlyOneNamed(profiles, i, username)
      ensures Filter(profiles, (u: UserProfile) => u.username == username) == [profiles[i]]
    {
      FilterSingleton(profiles, (u: UserProfile) => u.username == username, i);
    }
  }

  /** `findByRole`: the active users with that role, newest `joined_at` first. */
  function FindByRole(profiles: seq<UserProfile>, role: Role, fault: Option<string>): (r: Result<seq<UserProfile>>)
    ensures fault.Some? ==> r == Err("Failed to fetch users by role: " + fault.value)
    ensures fault.None? ==> r.Ok?
    ensures r.Ok? ==> forall u :: u in r.value <==> u in profiles && u.role == role && IsActive(u)
    ensures r.Ok? ==> multiset(r.value) <= multiset(profiles)
    ensures r.Ok? ==> SortedBy(r.value, UserNewestFirst)
  {
    if fault.Some? then Err("Failed to fetch users by role: " + fault.value)
    else
      OrdersArePreorders();
      Ok(Select(profiles, (u: UserProfile) => u.role == role && IsActive(u), UserNewestFirst))
  }

  /** `findActive`: exactly the users with `is_active = true`, newest first. */
  function FindActive(profiles: seq<UserProfile>, fault: Option<string>): (r: Result<seq<UserProfile>>)
    ensures fault.Some? ==> r == Err("Failed to fetch active users: " + fault.value)
    ensures fault.None? ==> r.Ok?
    ensures r.Ok? ==> forall u :: u in r.value <==> u in profiles && IsActive(u)
    ensures r.Ok? ==> multiset(r.value) <= multiset(profiles)
    ensures r.Ok? ==> SortedBy(r.value, UserNewestFirst)
  {
    if fault.Some? then Err("Failed to fetch active users: " + fault.value)
    else
      OrdersArePreorders();
      Ok(Select(profiles, (u: UserProfile) => IsActive(u), UserNewestFirst))
  }

  /** The search test: the query occurs in the username or in the display
      name, ignoring case. */
  predicate UserMatches(u: UserProfile, query: string) {
    ContainsIgnoringCase(u.username, query) ||
    (u.displayName.Some? && ContainsIgnoringCase(u.displayName.value, query))
  }

  /** `search`: the active users whose username or display name contains the
      query, ignoring case, by ascending username under the database's
      collation `collate`. */
  function Search(profiles: seq<UserProfile>, query: string, collate: (string, string) -> bool, fault: Option<string>)
    : (r: Result<seq<UserProfile>>)
    ensures fault.Some? ==> r == Err("Failed to search users: " + fault.value)
    ensures fault.None? ==> r.Ok?
    ensures r.Ok? ==> forall u :: u in r.value <==> u in profiles && UserMatches(u, query) && IsActive(u)
    ensures r.Ok? ==> multiset(r.value) <= multiset(profiles)
    ensures r.Ok? && TotalPreorder(collate) ==> SortedBy(r.value, UsernameAscending(collate))
  {
    if fault.Some? then Err("Failed to search users: " + fault.value)
    else
      TextOrdersArePreorders(collate);
      Ok(Select(profiles, (u: UserProfile) => UserMatches(u, query) && IsActive(u), UsernameAscending(collate)))
  }

  /** The table after `UPDATE user_profiles SET ... WHERE id = id`. */
  function UpdatedProfiles(profiles: seq<UserProfile>, id: string, patch: ProfilePatch): (r: seq<UserProfile>)
    ensures |r| == |profiles|
    ensures forall i :: 0 <= i < |r| ==> r[i].id == profiles[i].id
    ensures forall i :: 0 <= i < |r| && profiles[i].id != id ==> r[i] == profiles[i]
    ensures forall i :: 0 <= i < |r| && profiles[i].id == id ==> r[i] == ApplyProfilePatch(patch, profiles[i])
  {
    if profiles == [] then []
    else
      [if profiles[0].id == id then ApplyProfilePatch(patch, profiles[0]) else profiles[0]]
        + UpdatedProfiles(profiles[1..], id, patch)
  }

  /** The update `deactivate` sends: `{ is_active: false }`. */
  const Deactivation := NoProfileChange.(isActive := Some(false))

  /** The update `updateRole` sends: `{ role }`. */
  function RoleChange(role: Role): ProfilePatch {
    NoProfileChange.(role := Some(role))
  }

  /** Deactivating twice is deactivating once. */
  lemma {:induction false} DeactivateIdempotent(profiles: seq<UserProfile>, id: string)
    ensures UpdatedProfiles(UpdatedProfiles(profiles, id, Deactivation), id, Deactivation)
         == UpdatedProfiles(profiles, id, Deactivation)
  {
    if profiles != [] {
      DeactivateIdempotent(profiles[1..], id);
    }
  }

  /** A deactivated user is listed by none of the queries that list users:
      `findActive`, `findByRole` and `search` all require `is_active`. */
  lemma DeactivatedIsNotListed(profiles: seq<UserProfile>, id: string, role: Role, query: string,
                               collate: (string, string) -> bool)
    ensures var after := UpdatedProfiles(profiles, id, Deactivation);
            (forall u :: u in FindActive(after, None).value ==> u.id != id) &&
            (forall u :: u in FindByRole(after, role, None).value ==> u.id != id) &&
            (forall u :: u in Search(after, query, collate, None).value ==> u.id != id)
  {
    var after := UpdatedProfiles(profiles, id, Deactivation);
    forall u | u in after && u.id == id
      ensures !IsActive(u)
    {
      var i :| 0 <= i < |after| && after[i] == u;
    }
  }

  class UsersRepository {
    var profiles: seq<UserProfile>

    ghost predicate Valid()
      reads this
    {
      UniqueProfileIds(profiles)
    }

    constructor ()
      ensures profiles == [] && Valid()
    {
      profiles := [];
    }

    /** `createProfile`: stores the profile with `joined_at` stamped `now`
        and returns it; an id already present violates the primary key. */
    method CreateProfile(item: UserProfile, now: Timestamp, fault: Option<string>) returns (r: Result<UserProfile>)
      requires Valid()
      modifies this
      ensures Valid()
      ensures fault.Some? ==>
        r == Err("Failed to create user profile: " + fault.value) && profiles == old(profiles)
      ensures fault.None? && HasProfile(old(profiles), item.id) ==>
        r == Err("Failed to create user profile: " + DuplicateKey) && profiles == old(profiles)
      ensures fault.None? && !HasProfile(old(profiles), item.id) ==>
        r == Ok(item.(joinedAt := Some(now))) && profiles == old(profiles) + [r.value]
    {
      if fault.Some? {
        return Err("Failed to create user profile: " + fault.value);
      }
      if HasProfile(profiles, item.id) {
        return Err("Failed to create user profile: " + DuplicateKey);
      }
      var stored := item.(joinedAt := Some(now));
      profiles := profiles + [stored];
      r := Ok(stored);
    }

    /** The `.update(patch).eq('id', id).select().single()` the three update
        methods share; `failure` is the message prefix of the calling method. */
    method ApplyUpdate(id: string, patch: ProfilePatch, failure: string, fault: Option<string>) returns (r: Result<UserProfile>)
      requires Valid()
      modifies this
      ensures Valid()
      ensures fault.Some? ==> r == Err(failure + ": " + fault.value) && profiles == old(profiles)
      ensures fault.None? && !HasProfile(old(profiles), id) ==>
        r == Err(failure + ": " + Repository.SingleRowViolation) && profiles == old(profiles)
      ensures fault.None? && HasProfile(old(profiles), id) ==>
        profiles == UpdatedProfiles(old(profiles), id, patch) &&
        r == Ok(ApplyProfilePatch(patch, ProfileLookup(old(profiles), id).value))
    {
      if fault.Some? {
        return Err(failure + ": " + fault.value);
      }
      var found := ProfileLookup(profiles, id);
      if found.None? {
        return Err(failure + ": " + Repository.SingleRowViolation);
      }
      profiles := UpdatedProfiles(profiles, id, patch);
      r := Ok(ApplyProfilePatch(patch, found.value));
    }

    /** `updateProfile`: sets the supplied fields of that user's profile. */
    method UpdateProfile(id: string, patch: ProfilePatch, fault: Option<string>) returns (r: Result<UserProfile>)
      requires Valid()
      modifies this
      ensures Valid()
      ensures fault.Some? ==> r == Err("Failed to update user profile: " + fault.value) && profiles == old(profiles)
      ensures fault.None? && !HasProfile(old(profiles), id) ==>
        r == Err("Failed to update user profile: " + Repository.SingleRowViolation) && profiles == old(profiles)
      ensures fault.None? && HasProfile(old(profiles), id) ==>
        profiles == UpdatedProfiles(old(profiles), id, patch) &&
        r == Ok(ApplyProfilePatch(patch, ProfileLookup(old(profiles), id).value))
    {
      r := ApplyUpdate(id, patch, "Failed to update user profile", fault);
    }

    /** `updateRole`: changes the role of that user and nothing else. */
    method UpdateRole(id: string, role: Role, fault: Option<string>) returns (r: Result<UserProfile>)
      requires Valid()
      modifies this
      ensures Valid()
      ensures fault.Some? ==> r == Err("Failed to update user role: " + fault.value) && profiles == old(profiles)
      ensures fault.None? && !HasProfile(old(profiles), id) ==>
        r == Err("Failed to update user role: " + Repository.SingleRowViolation) && profiles == old(profiles)
      ensures fault.None? && HasProfile(old(profiles), id) ==>
        profiles == UpdatedProfiles(old(profiles), id, RoleChange(role)) &&
        r == Ok(ProfileLookup(old(profiles), id).value.(role := role))
    {
      r := ApplyUpdate(id, RoleChange(role), "Failed to update user role", fault);
    }

    /** `deactivate`: sets `is_active` of that user to false and nothing else;
        an inactive user stays inactive. */
    method Deactivate(id: string, fault: Option<string>) returns (r: Result<UserProfile>)
      requires Valid()
      modifies this
      ensures Valid()
      ensures fault.Some? ==> r == Err("Failed to deactivate user: " + fault.value) && profiles == old(profiles)
      ensures fault.None? && !HasProfile(old(profiles), id) ==>
        r == Err("Failed to deactivate user: " + Repository.SingleRowViolation) && profiles == old(profiles)
      ensures fault.None? && HasProfile(old(profiles), id) ==>
        profiles == UpdatedProfiles(old(profiles), id, Deactivation) &&
        r == Ok(ProfileLookup(old(profiles), id).value.(isActive := Some(false)))
    {
      r := ApplyUpdate(id, Deactivation, "Failed to deactivate user", fault);
    }
  }
}
