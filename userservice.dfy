/** UserServiceImpl: registration, role update and profile update. */
module UserService {
  import opened Wrappers
  import opened Strings
  import opened RoleNames
  import opened Entities
  import opened Repositories
  import Passwords

  /** Some user has `email`: `findByEmail(email)` finds a row. */
  predicate EmailInUse(users: map<int, User>, email: string) {
    exists id :: id in users && users[id].email == email
  }

  /** Two users have `email`. The entity declares no unique constraint on
      the column, so this can happen, and then the Optional-returning
      `findByEmail` throws IncorrectResultSizeDataAccessException. */
  predicate EmailShared(users: map<int, User>, email: string) {
    exists i, j :: i in users && j in users && i != j && users[i].email == email && users[j].email == email
  }

  /** `register`. The email lookup comes first: a shared email makes it
      throw, one user with the email is a RegistrationException. Then the
      CUSTOMER role must exist, although the new user is stored WITHOUT it:
      the fetched role is never attached. `storageRejects` is the database
      refusing the insert with a DataIntegrityViolationException, which is
      reported as a RegistrationException. */
  method Register(repo: UserRepository, catalog: Catalog, req: RegistrationRequest,
                  encode: string -> string, storageRejects: bool) returns (r: Result<User>)
    requires repo.Valid()
    requires Passwords.IsValid(Some(req.password), Some(req.repeatPassword))
    modifies repo
    ensures repo.Valid()
    ensures EmailShared(old(repo.users), req.email) ==> (r == Err(IncorrectResultSize) && unchanged(repo))
    ensures (EmailInUse(old(repo.users), req.email) && !EmailShared(old(repo.users), req.email))
              ==> (r == Err(Registration) && unchanged(repo))
    ensures (!EmailInUse(old(repo.users), req.email) && Customer !in catalog.roles)
              ==> (r == Err(EntityNotFound) && unchanged(repo))
    ensures (!EmailInUse(old(repo.users), req.email) && Customer in catalog.roles && storageRejects)
              ==> (r == Err(Registration) && unchanged(repo))
    ensures r.Ok? <==> !EmailInUse(old(repo.users), req.email) && Customer in catalog.roles && !storageRejects
    ensures r.Ok? ==> && r.value == User(old(repo.nextId), req.email, encode(req.password),
                                         req.firstName, req.lastName, {})
                      && repo.users == old(repo.users)[old(repo.nextId) := r.value]
                      && repo.nextId == old(repo.nextId) + 1
  {
    if EmailShared(repo.users, req.email) {
      return Err(IncorrectResultSize);
    }
    if EmailInUse(repo.users, req.email) {
      return Err(Registration);
    }
    if Customer !in catalog.roles {
      return Err(EntityNotFound);
    }
    var user := User(repo.nextId, req.email, encode(req.password), req.firstName, req.lastName, {});
    if storageRejects {
      return Err(Registration);
    }
    repo.users := repo.users[user.id := user];
    repo.nextId := repo.nextId + 1;
    return Ok(user);
  }

  /** The service's own `toUpperCase().trim()` before `fromString` makes no
      difference to the role it parses. */
  lemma {:induction false} NormalizingFirstChangesNothing(name: string)
    ensures FromString(Trim(Upper(name))) == FromString(name)
  {
    TrimUpperCommute(name);
    UpperIdempotent(Trim(name));
    TrimIdempotent(Upper(name));
    TrimUpperCommute(Trim(name));
    assert Upper(Trim(Trim(Upper(name)))) == Upper(Trim(name));
  }

  /** What `RoleName.fromString` makes of each entry of a role-update request. */
  function Parsed(names: seq<string>): (r: seq<Result<RoleName>>)
    ensures |r| == |names|
    ensures forall k :: 0 <= k < |names| ==> r[k] == FromString(names[k])
  {
    seq(|names|, k requires 0 <= k < |names| => FromString(names[k]))
  }

  /** One parsed entry against the role rows: a known name whose row is
      missing is an EntityNotFoundException; a parse failure passes through. */
  function Resolve(catalog: Catalog, parsed: Result<RoleName>): (r: Result<RoleName>)
    ensures r.Ok? <==> parsed.Ok? && parsed.value in catalog.roles
    ensures r.Ok? ==> r.value == parsed.value
    ensures parsed.Err? ==> r == parsed
    ensures parsed.Ok? && parsed.value !in catalog.roles ==> r == Err(EntityNotFound)
  {
    match parsed
    case Err(e) => Err(e)
    case Ok(role) => if role in catalog.roles then Ok(role) else Err(EntityNotFound)
  }

  /** The roles a whole request names, entries taken left to right; the first
      entry that fails decides the error. */
  function ResolveAll(catalog: Catalog, parsed: seq<Result<RoleName>>): (r: Result<set<RoleName>>)
    ensures r.Ok? <==> forall k :: 0 <= k < |parsed| ==> Resolve(catalog, parsed[k]).Ok?
    ensures r.Ok? ==> forall k :: 0 <= k < |parsed| ==> parsed[k].value in r.value
    ensures r.Ok? ==> forall role :: role in r.value ==>
              exists k :: 0 <= k < |parsed| && parsed[k] == Ok(role)
    ensures r.Ok? ==> r.value <= catalog.roles
    decreases |parsed|
  {
    if parsed == [] then Ok({})
    else
      var init := parsed[..|parsed| - 1];
      var last := parsed[|parsed| - 1];
      assert forall k :: 0 <= k < |init| ==> init[k] == parsed[k];
      match ResolveAll(catalog, init)
      case Err(e) => Err(e)
      case Ok(roles) =>
        match Resolve(catalog, last)
        case Err(e) => Err(e)
        case Ok(role) => Ok(roles + {role})
  }

  /** A failing resolution reports one of the two failures an entry can have. */
  lemma {:induction false} ResolveAllErrors(catalog: Catalog, names: seq<string>)
    ensures var r := ResolveAll(catalog, Parsed(names));
            r.Err? ==> r.error == IllegalArgument || r.error == EntityNotFound
  {
    assert forall k :: 0 <= k < |names| ==> Parsed(names)[k].Err? ==> Parsed(names)[k].error == IllegalArgument;
    ResolveAllErrorsFrom(catalog, Parsed(names));
  }

  lemma {:induction false} ResolveAllErrorsFrom(catalog: Catalog, parsed: seq<Result<RoleName>>)
    requires forall k :: 0 <= k < |parsed| ==> parsed[k].Err? ==> parsed[k].error == IllegalArgument
    ensures var r := ResolveAll(catalog, parsed);
            r.Err? ==> r.error == IllegalArgument || r.error == EntityNotFound
    decreases |parsed|
  {
    if parsed != [] {
      var init := parsed[..|parsed| - 1];
      assert forall k :: 0 <= k < |init| ==> init[k] == parsed[k];
      ResolveAllErrorsFrom(catalog, init);
    }
  }

  /** Once a prefix of the request fails, the whole request fails the same way. */
  lemma {:induction false} PrefixFailureDecides(catalog: Catalog, parsed: seq<Result<RoleName>>, i: nat)
    requires i <= |parsed| && ResolveAll(catalog, parsed[..i]).Err?
    ensures ResolveAll(catalog, parsed) == ResolveAll(catalog, parsed[..i])
    decreases |parsed| - i
  {
    if i < |parsed| {
      assert parsed[..i + 1][..i] == parsed[..i];
      PrefixFailureDecides(catalog, parsed, i + 1);
    } else {
      assert parsed[..i] == parsed;
    }
  }

  /** Naming a role twice gives the same roles as naming it once. */
  lemma {:induction false} RepeatedNameChangesNothing(catalog: Catalog, parsed: seq<Result<RoleName>>, k: nat)
    requires k < |parsed| && ResolveAll(catalog, parsed).Ok?
    ensures ResolveAll(catalog, parsed + [parsed[k]]) == ResolveAll(catalog, parsed)
  {
    var longer := parsed + [parsed[k]];
    assert longer[..|longer| - 1] == parsed;
    assert longer[|longer| - 1] == parsed[k];
    var roles := ResolveAll(catalog, parsed).value;
    assert Resolve(catalog, parsed[k]) == Ok(parsed[k].value);
    assert parsed[k].value in roles;
    assert roles + {parsed[k].value} == roles;
  }

  /** Entry `i` as the loop of `updateRoleById` treats it: upper-cased,
      trimmed, then parsed by `RoleName.fromString`. */
  method ParseEntry(names: seq<string>, i: nat) returns (role: Result<RoleName>)
    requires i < |names|
    ensures role == Parsed(names)[i]
  {
    var normalized := Trim(Upper(names[i]));
    NormalizingFirstChangesNothing(names[i]);
    role := FromString(normalized);
  }

  /** One step of the resolution: with the first `i` entries resolved to
      `roles`, entry `i` either fails the whole request or adds its role. */
  lemma {:induction false} ResolveStep(catalog: Catalog, parsed: seq<Result<RoleName>>, i: nat,
                                       roles: set<RoleName>)
    requires i < |parsed| && ResolveAll(catalog, parsed[..i]) == Ok(roles)
    ensures Resolve(catalog, parsed[i]).Err? ==>
              ResolveAll(catalog, parsed) == Err(Resolve(catalog, parsed[i]).error)
    ensures Resolve(catalog, parsed[i]).Ok? ==>
              ResolveAll(catalog, parsed[..i + 1]) == Ok(roles + {parsed[i].value})
  {
    assert parsed[..i + 1][..i] == parsed[..i];
    assert parsed[..i + 1][i] == parsed[i];
    if Resolve(catalog, parsed[i]).Err? {
      PrefixFailureDecides(catalog, parsed, i + 1);
    }
  }

  /** The loop of `updateRoleById`: each entry is normalised, parsed and
      looked up in turn, and the first failure ends it. */
  method ResolveRoles(catalog: Catalog, names: seq<string>) returns (r: Result<set<RoleName>>)
    ensures r == ResolveAll(catalog, Parsed(names))
  {
    ghost var parsed := Parsed(names);
    var roles := {};
    var i := 0;
    while i < |names|
      invariant 0 <= i <= |names|
      invariant ResolveAll(catalog, parsed[..i]) == Ok(roles)
    {
      var role := ParseEntry(names, i);
      ResolveStep(catalog, parsed, i, roles);
      if role.Err? {
        return Err(role.error);
      }
      if role.value !in catalog.roles {
        return Err(EntityNotFound);
      }
      roles := roles + {role.value};
      i := i + 1;
    }
    assert parsed[..i] == parsed;
    return Ok(roles);
  }

  /** `updateRoleById`. The parsed roles are added to the user's own role set
      (a union: nothing is removed); an invalid entry aborts before the save,
      and the transaction leaves the stored user untouched. */
  method UpdateRoleById(repo: UserRepository, catalog: Catalog, id: int, names: seq<string>)
    returns (r: Result<User>)
    requires repo.Valid()
    modifies repo
    ensures repo.Valid() && repo.nextId == old(repo.nextId)
    ensures id !in old(repo.users) ==> (r == Err(EntityNotFound) && unchanged(repo))
    ensures (id in old(repo.users) && ResolveAll(catalog, Parsed(names)).Err?)
              ==> (r == Err(ResolveAll(catalog, Parsed(names)).error) && unchanged(repo))
    ensures r.Ok? <==> id in old(repo.users) && ResolveAll(catalog, Parsed(names)).Ok?
    ensures r.Ok? ==> && r.value == old(repo.users)[id].(roles := old(repo.users)[id].roles
                                                                  + ResolveAll(catalog, Parsed(names)).value)
                      && repo.users == old(repo.users)[id := r.value]
  {
    if id !in repo.users {
      return Err(EntityNotFound);
    }
    var user := repo.users[id];
    var added := ResolveRoles(catalog, names);
    if added.Err? {
      return Err(added.error);
    }
    var updated := user.(roles := user.roles + added.value);
    repo.users := repo.users[id := updated];
    return Ok(updated);
  }

  /** `updateUserProfileInfo`: the current user's email, first and last name
      are overwritten and the row is saved; password and roles stay. The
      current user is the authenticated principal, which is the stored row.
      Nothing checks the new email against the other users. */
  method UpdateUserProfileInfo(repo: UserRepository, current: User, req: ProfileRequest) returns (saved: User)
    requires repo.Valid() && current.id in repo.users && repo.users[current.id] == current
    modifies repo
    ensures repo.Valid() && repo.nextId == old(repo.nextId)
    ensures saved == current.(email := req.email, firstName := req.firstName, lastName := req.lastName)
    ensures saved.id == current.id && saved.password == current.password && saved.roles == current.roles
    ensures repo.users == old(repo.users)[current.id := saved]
  {
    saved := current.(email := req.email, firstName := req.firstName, lastName := req.lastName);
    repo.users := repo.users[current.id := saved];
  }

  /** A profile update that takes another user's email leaves two users
      with it. */
  lemma ProfileUpdateSharesEmail(users: map<int, User>, current: User, req: ProfileRequest, other: int)
    requires current.id in users && other in users && other != current.id
    requires users[other].email == req.email
    ensures EmailShared(users[current.id := current.(email := req.email, firstName := req.firstName,
                                                     lastName := req.lastName)], req.email)
  {
    var users' := users[current.id := current.(email := req.email, firstName := req.firstName,
                                                lastName := req.lastName)];
    assert users'[other].email == req.email && users'[current.id].email == req.email;
  }

  /** Two registrations, the second user taking the first one's email in
      their profile, and a third registration with that email: the lookup
      finds two rows and the registration fails with nothing stored. */
  method UpdateThenRegisterHitsDuplicate(catalog: Catalog, first: RegistrationRequest,
                                         second: RegistrationRequest, third: RegistrationRequest,
                                         profile: ProfileRequest, encode: string -> string)
    returns (r: Result<User>)
    requires Customer in catalog.roles && first.email != second.email
    requires profile.email == first.email && third.email == first.email
    requires Passwords.IsValid(Some(first.password), Some(first.repeatPassword))
    requires Passwords.IsValid(Some(second.password), Some(second.repeatPassword))
    requires Passwords.IsValid(Some(third.password), Some(third.repeatPassword))
    ensures r == Err(IncorrectResultSize)
  {
    var repo := new UserRepository();
    var a := Register(repo, catalog, first, encode, false);
    assert !EmailInUse(repo.users, second.email);
    var b := Register(repo, catalog, second, encode, false);
    ghost var before := repo.users;
    var saved := UpdateUserProfileInfo(repo, b.value, profile);
    ProfileUpdateSharesEmail(before, b.value, profile, a.value.id);
    r := Register(repo, catalog, third, encode, false);
  }
}
