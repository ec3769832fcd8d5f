/** The user rules of the auth service
    (services/auth-service/AuthService/AuthService/Services/AuthGrpcService.cs) over its
    users collection. Usernames and emails are unique because registration refuses taken
    ones; admins are never created here, only found; an admin check is a lookup of the
    caller's id with role "admin". Password hashing, password checking and token minting
    are left abstract as function parameters. */
module AuthService {
  import opened Wrappers
  import opened ObjectIds

  type Time = nat

  datatype Profile = Profile(firstName: string, lastName: string, profilePicture: string, bio: string, motto: string)

  const EmptyProfile := Profile("", "", "", "", "")

  datatype User = User(
    id: ObjectId,
    username: string,
    email: string,
    passwordHash: string,
    role: string,
    isBlocked: bool,
    profile: Profile,
    createdAt: Time)

  datatype AuthError = InvalidRole | UsernameTaken | EmailTaken | InvalidCredentials | AccountBlocked | UserNotFound
                     | AdminRequired | CannotBlockAdmin

  /** What a successful login hands back. */
  datatype Session = Session(token: string, userId: ObjectId, role: string)

  /** `BCrypt.HashPassword`, `BCrypt.Verify` and `TokenService.GenerateToken`. */
  type HashFn = string -> string
  type VerifyFn = (string, string) -> bool
  type TokenFn = User -> string

  /** The roles `Register` accepts. */
  predicate IsSelfServiceRole(role: string) {
    role == "guide" || role == "tourist"
  }

  /** The filters of the handlers' `Find(...).FirstOrDefault` queries. */
  datatype UserFilter = ByUsername(username: string) | ByEmail(email: string) | ById(id: ObjectId) | AdminById(adminId: ObjectId)

  predicate Matches(u: User, f: UserFilter) {
    match f
    case ByUsername(name) => u.username == name
    case ByEmail(email) => u.email == email
    case ById(id) => u.id == id
    case AdminById(id) => u.id == id && u.role == "admin"
  }

  /** The first user the filter matches. */
  function Find(users: seq<User>, f: UserFilter, from: nat): (r: Option<nat>)
    requires from <= |users|
    decreases |users| - from
    ensures r.Some? ==> from <= r.value < |users| && Matches(users[r.value], f)
    ensures forall k :: from <= k < (if r.Some? then r.value else |users|) ==> !Matches(users[k], f)
  {
    if from == |users| then None
    else if Matches(users[from], f) then Some(from)
    else Find(users, f, from + 1)
  }

  predicate UniqueAccounts(users: seq<User>) {
    forall i, j :: 0 <= i < j < |users| ==>
      users[i].id != users[j].id && users[i].username != users[j].username && users[i].email != users[j].email
  }

  /** Ids of the admin accounts. */
  function Admins(users: seq<User>): set<ObjectId> {
    set k | 0 <= k < |users| && users[k].role == "admin" :: users[k].id
  }

  /** `Login` on the collection: an unknown username and a wrong password give the same
      answer; a blocked account is refused before its password is checked. */
  function LoginOutcome(users: seq<User>, username: string, password: string, verify: VerifyFn, token: TokenFn)
    : (r: Result<Session, AuthError>)
    ensures r.Success? ==> exists k :: 0 <= k < |users| && users[k].username == username && !users[k].isBlocked
                                      && verify(password, users[k].passwordHash) && r.value.userId == users[k].id
    ensures Find(users, ByUsername(username), 0).None? ==> r == Failure(InvalidCredentials)
  {
    var i := Find(users, ByUsername(username), 0);
    if i.None? then Failure(InvalidCredentials)
    else
      var u := users[i.value];
      if u.isBlocked then Failure(AccountBlocked)
      else if !verify(password, u.passwordHash) then Failure(InvalidCredentials)
      else Success(Session(token(u), u.id, u.role))
  }

  /** A blocked account cannot log in, whatever password is given. */
  lemma BlockedCannotLogin(users: seq<User>, i: nat, password: string, verify: VerifyFn, token: TokenFn)
    requires UniqueAccounts(users) && i < |users| && users[i].isBlocked
    ensures LoginOutcome(users, users[i].username, password, verify, token) == Failure(AccountBlocked)
  {
    assert Matches(users[i], ByUsername(users[i].username));
    var j := Find(users, ByUsername(users[i].username), 0);
    assert j == Some(i);
  }

  /** A newly registered account logs in with its password, as long as the password
      checks against its own hash. */
  lemma {:induction false} RegisteredCanLogin(users: seq<User>, u: User, password: string, verify: VerifyFn, token: TokenFn)
    requires Find(users, ByUsername(u.username), 0).None?
    requires !u.isBlocked && verify(password, u.passwordHash)
    ensures LoginOutcome(users + [u], u.username, password, verify, token) == Success(Session(token(u), u.id, u.role))
  {
    var all := users + [u];
    assert forall k :: 0 <= k < |users| ==> all[k] == users[k];
    assert Matches(all[|users|], ByUsername(u.username));
    assert Find(all, ByUsername(u.username), 0) == Some(|users|);
  }

  class AuthGrpcService {
    /** The users collection in insertion order. */
    var users: seq<User>
    /** Source of fresh ObjectIds. */
    var nextId: nat

    ghost predicate Valid()
      reads this
    {
      && UniqueAccounts(users) && NilId < nextId
      && forall k :: 0 <= k < |users| ==> users[k].id < nextId
    }

    /** A store holding existing accounts (the admins come from outside the service). */
    constructor (seed: seq<User>, firstFreeId: nat)
      requires UniqueAccounts(seed) && NilId < firstFreeId
      requires forall k :: 0 <= k < |seed| ==> seed[k].id < firstFreeId
      ensures Valid() && users == seed && nextId == firstFreeId
    {
      users, nextId := seed, firstFreeId;
    }

    /** Only "guide" and "tourist" may register; a taken username is reported before a
        taken email; otherwise exactly one unblocked account with the requested role and
        an empty profile is added. */
    method Register(username: string, email: string, password: string, role: string, now: Time, hash: HashFn)
      returns (r: Result<ObjectId, AuthError>)
      requires Valid()
      modifies this
      ensures Valid()
      ensures !IsSelfServiceRole(role) ==> r == Failure(InvalidRole) && unchanged(this)
      ensures IsSelfServiceRole(role) && Find(old(users), ByUsername(username), 0).Some? ==>
        r == Failure(UsernameTaken) && unchanged(this)
      ensures IsSelfServiceRole(role) && Find(old(users), ByUsername(username), 0).None? &&
              Find(old(users), ByEmail(email), 0).Some? ==>
        r == Failure(EmailTaken) && unchanged(this)
      ensures IsSelfServiceRole(role) && Find(old(users), ByUsername(username), 0).None? &&
              Find(old(users), ByEmail(email), 0).None? ==>
        && r == Success(old(nextId))
        && users == old(users) + [User(r.value, username, email, hash(password), role, false, EmptyProfile, now)]
      ensures Admins(users) == old(Admins(users))
    {
      if !IsSelfServiceRole(role) {
        return Failure(InvalidRole);
      }
      var byName := Find(users, ByUsername(username), 0);
      if byName.Some? {
        return Failure(UsernameTaken);
      }
      var byEmail := Find(users, ByEmail(email), 0);
      if byEmail.Some? {
        return Failure(EmailTaken);
      }
      var user := User(nextId, username, email, hash(password), role, false, EmptyProfile, now);
      ghost var before := users;
      users := users + [user];
      nextId := nextId + 1;
      assert forall k :: 0 <= k < |before| ==> users[k] == before[k];
      assert forall k :: 0 <= k < |before| ==> !Matches(before[k], ByUsername(username)) && !Matches(before[k], ByEmail(email));
      assert Admins(users) == Admins(before) by {
        assert forall k :: 0 <= k < |users| && users[k].role == "admin" ==> k < |before|;
      }
      r := Success(user.id);
    }

    method Login(username: string, password: string, verify: VerifyFn, token: TokenFn)
      returns (r: Result<Session, AuthError>)
      ensures r == LoginOutcome(users, username, password, verify, token)
    {
      var found := Find(users, ByUsername(username), 0);
      if found.None? {
        return Failure(InvalidCredentials);
      }
      var user := users[found.value];
      if user.isBlocked {
        return Failure(AccountBlocked);
      }
      var ok := verify(password, user.passwordHash);
      if !ok {
        return Failure(InvalidCredentials);
      }
      r := Success(Session(token(user), user.id, user.role));
    }

    /** Overwrites the five profile fields of the user; nothing else about any account
        changes. */
    method UpdateProfile(userId: ObjectId, firstName: string, lastName: string, profilePicture: string,
                         bio: string, motto: string) returns (r: Result<Profile, AuthError>)
      requires Valid()
      modifies this`users
      ensures Valid()
      ensures Find(old(users), ById(userId), 0).None? ==> r == Failure(UserNotFound) && users == old(users)
      ensures Find(old(users), ById(userId), 0).Some? ==>
        var i := Find(old(users), ById(userId), 0).value;
        && r == Success(Profile(firstName, lastName, profilePicture, bio, motto))
        && users == old(users)[i := old(users)[i].(profile := r.value)]
      ensures |users| == |old(users)|
      ensures forall k :: 0 <= k < |users| ==>
        var (u, v) := (users[k], old(users)[k]);
        u.id == v.id && u.username == v.username && u.email == v.email && u.role == v.role && u.isBlocked == v.isBlocked
    {
      var found := Find(users, ById(userId), 0);
      if found.None? {
        return Failure(UserNotFound);
      }
      var i := found.value;
      var profile := Profile(firstName, lastName, profilePicture, bio, motto);
      users := users[i := users[i].(profile := profile)];
      r := Success(profile);
    }

    /** Admin only: every account. */
    method GetAllUsers(adminId: ObjectId) returns (r: Result<seq<User>, AuthError>)
      ensures Find(users, AdminById(adminId), 0).None? <==> r == Failure(AdminRequired)
      ensures r.Success? ==> r.value == users && exists k :: 0 <= k < |users| && users[k].id == adminId && users[k].role == "admin"
    {
      var admin := Find(users, AdminById(adminId), 0);
      if admin.None? {
        return Failure(AdminRequired);
      }
      r := Success(users);
    }

    /** Admin only: sets or clears the target's blocked flag. An unknown target and an
        admin target are refused. Nothing else changes. */
    method BlockUser(adminId: ObjectId, targetId: ObjectId, block: bool) returns (r: Result<(), AuthError>)
      requires Valid()
      modifies this`users
      ensures Valid()
      ensures r.Failure? ==> users == old(users)
      ensures Find(old(users), AdminById(adminId), 0).None? ==> r == Failure(AdminRequired)
      ensures Find(old(users), AdminById(adminId), 0).Some? ==>
        var t := Find(old(users), ById(targetId), 0);
        if t.None? then r == Failure(UserNotFound)
        else if old(users)[t.value].role == "admin" then r == Failure(CannotBlockAdmin)
        else r == Success(()) && users == old(users)[t.value := old(users)[t.value].(isBlocked := block)]
      ensures forall k :: 0 <= k < |old(users)| && old(users)[k].role == "admin" ==> users[k] == old(users)[k]
      ensures Admins(users) == old(Admins(users))
    {
      var admin := Find(users, AdminById(adminId), 0);
      if admin.None? {
        return Failure(AdminRequired);
      }
      var target := Find(users, ById(targetId), 0);
      if target.None? {
        return Failure(UserNotFound);
      }
      var i := target.value;
      if users[i].role == "admin" {
        return Failure(CannotBlockAdmin);
      }
      ghost var before := users;
      users := users[i := users[i].(isBlocked := block)];
      assert forall k :: 0 <= k < |users| ==> users[k].role == before[k].role && users[k].id == before[k].id;
      r := Success(());
    }
  }
}
