/**
 * SocialUserService: signing in with a Google profile finds the user by
 * Google id, else links the user with the same email, else creates a user.
 */
module SocialUsers {
  import opened Wrappers
  import opened Tables

  /** A row of the users table. The password is an opaque hash. */
  datatype User = User(
    id: nat, name: string, email: string, googleId: Option<string>,
    emailVerifiedAt: Option<int>, password: string)

  /** What the Google profile supplies: `getId()`, `getName()`, `getEmail()`. */
  datatype GoogleProfile = GoogleProfile(id: string, name: string, email: string)

  function IdOf(u: User): nat {
    u.id
  }

  /** The primary key: ids are distinct and below the next id to assign. */
  predicate UsersValid(users: seq<User>, nextId: nat) {
    && UniqueKeys(users, IdOf)
    && forall i :: 0 <= i < |users| ==> users[i].id < nextId
  }

  /** No Google id is linked to two users. */
  predicate GoogleIdsUnique(users: seq<User>) {
    forall i, j :: 0 <= i < j < |users| && users[i].googleId.Some? ==> users[i].googleId != users[j].googleId
  }

  function WithGoogleId(gid: string): User -> bool {
    (u: User) => u.googleId == Some(gid)
  }

  function WithEmail(email: string): User -> bool {
    (u: User) => u.email == email
  }

  /** `createUserFromGoogle`: the row `User::create` inserts, verified at `now`. */
  function NewUser(id: nat, p: GoogleProfile, now: int, password: string): User {
    User(id, p.name, p.email, Some(p.id), Some(now), password)
  }

  /** Which of the three branches a sign-in took. */
  datatype Branch = FoundByGoogleId | LinkedByEmail | Created

  /** The users table after a sign-in, the next id, the user returned and the branch. */
  datatype SignIn = SignIn(users: seq<User>, nextId: nat, user: User, branch: Branch)

  /** `findOrCreateFromGoogle` at clock `now`; `password` is the hash a created user gets. */
  function FindOrCreate(users: seq<User>, nextId: nat, p: GoogleProfile, now: int, password: string): SignIn {
    match FirstWhere(users, WithGoogleId(p.id))
    case Some(i) => SignIn(users, nextId, users[i], FoundByGoogleId)
    case None =>
      match FirstWhere(users, WithEmail(p.email))
      case Some(i) =>
        var u := users[i].(googleId := Some(p.id), emailVerifiedAt := Some(now));
        SignIn(users[i := u], nextId, u, LinkedByEmail)
      case None =>
        var u := NewUser(nextId, p, now, password);
        SignIn(users + [u], nextId + 1, u, Created)
  }

  /** The three branches: a Google-id match wins and changes nothing; otherwise an
      email match gets the Google id and `email_verified_at = now` and no other row
      changes; otherwise one user is appended. The returned user is in the table
      and always carries the profile's Google id. */
  lemma FindOrCreateSpec(users: seq<User>, nextId: nat, p: GoogleProfile, now: int, password: string)
    ensures var s := FindOrCreate(users, nextId, p, now, password);
      && s.user.googleId == Some(p.id)
      && s.user in s.users
      && (s.branch == FoundByGoogleId <==> exists u :: u in users && u.googleId == Some(p.id))
      && (s.branch == FoundByGoogleId ==> s.users == users && s.nextId == nextId && s.user in users)
      && (s.branch == LinkedByEmail <==>
            (forall u :: u in users ==> u.googleId != Some(p.id)) && exists u :: u in users && u.email == p.email)
      && (s.branch == LinkedByEmail ==>
            && s.nextId == nextId && |s.users| == |users|
            && exists i :: 0 <= i < |users| && users[i].email == p.email
                 && s.users == users[i := users[i].(googleId := Some(p.id), emailVerifiedAt := Some(now))]
                 && s.user == s.users[i])
      && (s.branch == Created ==>
            s.users == users + [NewUser(nextId, p, now, password)] && s.nextId == nextId + 1
            && s.user == NewUser(nextId, p, now, password))
  {
    match FirstWhere(users, WithGoogleId(p.id))
    case Some(i) =>
    case None =>
      match FirstWhere(users, WithEmail(p.email))
      case Some(i) =>
        var s := FindOrCreate(users, nextId, p, now, password);
        assert s.users[i] == s.user;
      case None =>
        var s := FindOrCreate(users, nextId, p, now, password);
        assert s.users[|users|] == s.user;
  }

  /** The table grows by at most one row, and only when a user is created. */
  lemma FindOrCreateGrowsOnlyOnCreate(users: seq<User>, nextId: nat, p: GoogleProfile, now: int, password: string)
    ensures var s := FindOrCreate(users, nextId, p, now, password);
      |s.users| == |users| + (if s.branch == Created then 1 else 0)
  {
  }

  /** Sign-in keeps the primary key valid and never links one Google id to two users. */
  lemma FindOrCreateKeepsInvariants(users: seq<User>, nextId: nat, p: GoogleProfile, now: int, password: string)
    requires UsersValid(users, nextId)
    requires GoogleIdsUnique(users)
    ensures var s := FindOrCreate(users, nextId, p, now, password);
      UsersValid(s.users, s.nextId) && GoogleIdsUnique(s.users)
  {
    var s := FindOrCreate(users, nextId, p, now, password);
    FindOrCreateSpec(users, nextId, p, now, password);
    if s.branch == LinkedByEmail {
      var i :| 0 <= i < |users| && users[i].email == p.email
                 && s.users == users[i := users[i].(googleId := Some(p.id), emailVerifiedAt := Some(now))];
      forall a, b | 0 <= a < b < |s.users| && s.users[a].googleId.Some?
        ensures s.users[a].googleId != s.users[b].googleId
      {
        if a == i {
          assert users[b] in users;
        } else if b == i {
          assert users[a] in users;
        }
      }
    } else if s.branch == Created {
      forall a, b | 0 <= a < b < |s.users| && s.users[a].googleId.Some?
        ensures s.users[a].googleId != s.users[b].googleId
      {
        if b == |users| {
          assert users[a] in users;
        }
      }
    }
  }

  /** The users table and the service's sign-in. */
  class SocialUserService {
    var users: seq<User>
    var nextId: nat

    ghost predicate Valid()
      reads this
    {
      UsersValid(users, nextId) && GoogleIdsUnique(users)
    }

    constructor ()
      ensures Valid() && users == [] && nextId == 0
    {
      users, nextId := [], 0;
    }

    /** `findOrCreateFromGoogle($googleUser)` at clock `now`. */
    method FindOrCreateFromGoogle(p: GoogleProfile, now: int, password: string) returns (u: User)
      requires Valid()
      modifies this
      ensures Valid()
      ensures var s := FindOrCreate(old(users), old(nextId), p, now, password);
        users == s.users && nextId == s.nextId && u == s.user
    {
      FindOrCreateKeepsInvariants(users, nextId, p, now, password);
      var byGoogle := FirstWhere(users, WithGoogleId(p.id));
      if byGoogle.Some? {
        return users[byGoogle.value];
      }
      var byEmail := FirstWhere(users, WithEmail(p.email));
      if byEmail.Some? {
        var i := byEmail.value;
        u := users[i].(googleId := Some(p.id), emailVerifiedAt := Some(now));
        users := users[i := u];
        return;
      }
      u := CreateUserFromGoogle(p, now, password);
    }

    /** `createUserFromGoogle($googleUser)`: inserts the new user under the next id. */
    method CreateUserFromGoogle(p: GoogleProfile, now: int, password: string) returns (u: User)
      requires Valid()
      requires forall v :: v in users ==> v.googleId != Some(p.id)
      modifies this
      ensures Valid()
      ensures u == NewUser(old(nextId), p, now, password)
      ensures users == old(users) + [u] && nextId == old(nextId) + 1
    {
      u := NewUser(nextId, p, now, password);
      users := users + [u];
      nextId := nextId + 1;
    }
  }
}
