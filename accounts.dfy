// The custom user model and its manager: a user table keyed by id with unique
// usernames, create_user / create_superuser, the role-based permission checks
// and the display string.
module Accounts {
  import opened Common

  const AdminRole: string := "admin"
  const UserRole: string := "user"

  /** The encoded password a user row stores. */
  type Hash = string

  /** The password hasher, an oracle: `make` is set_password/make_password and
      `check` is check_password. A None password is the one create_user may be
      called with (it stores an unusable password). */
  datatype Hasher = Hasher(make: Option<string> -> Hash, check: (Hash, Option<string>) -> bool)

  /** The only promises made of the hasher: a password checks against its own
      hash, and a missing password checks against none. */
  ghost predicate Sound(h: Hasher)
  {
    && (forall p: string :: h.check(h.make(Some(p)), Some(p)))
    && (forall hash: Hash :: !h.check(hash, None))
  }

  datatype User = User(
    id: string,
    username: string,
    password: Hash,
    role: string,
    bio: Option<string>,
    profilePicture: Option<string>,
    isActive: bool,
    isStaff: bool)

  /** The keyword arguments create_user passes on to the model; None is "not given". */
  datatype ExtraFields = ExtraFields(
    role: Option<string>,
    bio: Option<string>,
    profilePicture: Option<string>,
    isActive: Option<bool>,
    isStaff: Option<bool>)

  const NoExtraFields := ExtraFields(None, None, None, None, None)

  datatype CreateError = ValueError(message: string) | IntegrityError

  datatype CreateResult = Created(user: User) | Failed(error: CreateError)

  /** The row the model constructor builds: given fields win, the field
      defaults (role user, active, not staff, no bio or picture) fill the rest. */
  function NewUser(id: string, username: string, password: Hash, extra: ExtraFields): (u: User)
    ensures u.id == id && u.username == username && u.password == password
    ensures u.role == extra.role.GetOr(UserRole)
    ensures u.isActive == extra.isActive.GetOr(true) && u.isStaff == extra.isStaff.GetOr(false)
    ensures u.bio == extra.bio && u.profilePicture == extra.profilePicture
  {
    User(id, username, password, extra.role.GetOr(UserRole), extra.bio, extra.profilePicture,
         extra.isActive.GetOr(true), extra.isStaff.GetOr(false))
  }

  /** has_perm(perm, obj): every permission is granted to admins and only to them. */
  function HasPerm(u: User, perm: string): (r: bool)
  {
    u.role == AdminRole
  }

  /** has_module_perms(app_label), the same rule for whole applications. */
  function HasModulePerms(u: User, appLabel: string): (r: bool)
  {
    u.role == AdminRole
  }

  lemma PermsIgnoreTheirArgument(u: User, p: string, q: string, app: string)
    ensures HasPerm(u, p) == HasPerm(u, q) == HasModulePerms(u, app)
    ensures HasPerm(u, p) <==> u.role == AdminRole
  {
  }

  /** __str__: "username (role)". */
  function UserDisplay(u: User): (s: string)
    ensures StartsWith(s, u.username + " (")
    ensures |s| == |u.username| + |u.role| + 3 && s[|s| - 1] == ')'
    ensures s[|u.username| + 2..|s| - 1] == u.role
  {
    var s := u.username + " (" + u.role + ")";
    assert s[..|u.username| + 2] == u.username + " (";
    s
  }

  ghost predicate UniqueUsernames(rows: map<string, User>)
  {
    forall a, b :: a in rows && b in rows && rows[a].username == rows[b].username ==> a == b
  }

  /** The ORM's `filter(username=name).exists()`. */
  predicate UsernameTaken(rows: map<string, User>, name: string)
  {
    exists k :: k in rows && rows[k].username == name
  }

  /** `CustomUser.objects.get(username=name)`; None is DoesNotExist. */
  function FindByUsername(rows: map<string, User>, name: string): (r: Option<User>)
    requires UniqueUsernames(rows)
    ensures r.Some? <==> UsernameTaken(rows, name)
    ensures r.Some? ==> r.value.username == name && exists k :: k in rows && rows[k] == r.value
  {
    if UsernameTaken(rows, name) then
      var k :| k in rows && rows[k].username == name;
      Some(rows[k])
    else None
  }

  /** The user table behind `CustomUser.objects`. */
  class UserTable {
    var rows: map<string, User>

    /** Each row is stored under its own id, and usernames are unique
        (the column's unique index). */
    ghost predicate Valid()
      reads this
    {
      && (forall k :: k in rows ==> rows[k].id == k)
      && UniqueUsernames(rows)
    }

    constructor (initial: map<string, User>)
      requires forall k :: k in initial ==> initial[k].id == k
      requires UniqueUsernames(initial)
      ensures Valid() && rows == initial
    {
      rows := initial;
    }

    /** Inserts one row, as `objects.create(...)` and a first `save()` do;
        the unique index refuses a taken username and the primary key a taken id. */
    method Insert(u: User) returns (ok: bool)
      requires Valid()
      modifies this
      ensures Valid()
      ensures ok <==> u.id !in old(rows) && !UsernameTaken(old(rows), u.username)
      ensures rows == if ok then old(rows)[u.id := u] else old(rows)
    {
      ok := u.id !in rows && !UsernameTaken(rows, u.username);
      if ok {
        rows := rows[u.id := u];
      }
    }

    /** CustomUserManager.create_user. An empty username raises ValueError
        before anything is built; otherwise the row gets the hash of the
        password and is saved. */
    method CreateUser(username: string, password: Option<string>, extra: ExtraFields,
                      freshId: string, hasher: Hasher) returns (r: CreateResult)
      requires Valid()
      requires freshId !in rows
      modifies this
      ensures Valid()
      ensures username == "" ==> r == Failed(ValueError("Username harus diisi"))
      ensures username != "" && UsernameTaken(old(rows), username) ==> r == Failed(IntegrityError)
      ensures username != "" && !UsernameTaken(old(rows), username) ==>
                r == Created(NewUser(freshId, username, hasher.make(password), extra))
      ensures rows == if r.Created? then old(rows)[freshId := r.user] else old(rows)
    {
      if username == "" {
        return Failed(ValueError("Username harus diisi"));
      }
      var u := NewUser(freshId, username, hasher.make(password), extra);
      var ok := Insert(u);
      r := if ok then Created(u) else Failed(IntegrityError);
    }

    /** CustomUserManager.create_superuser: role admin unless the caller gave
        one, then create_user. */
    method CreateSuperuser(username: string, password: Option<string>, extra: ExtraFields,
                           freshId: string, hasher: Hasher) returns (r: CreateResult)
      requires Valid()
      requires freshId !in rows
      modifies this
      ensures Valid()
      ensures username == "" ==> r == Failed(ValueError("Username harus diisi"))
      ensures username != "" && UsernameTaken(old(rows), username) ==> r == Failed(IntegrityError)
      ensures username != "" && !UsernameTaken(old(rows), username) ==>
                r == Created(NewUser(freshId, username, hasher.make(password),
                                     extra.(role := Some(extra.role.GetOr(AdminRole)))))
      ensures r.Created? ==> r.user.role == extra.role.GetOr(AdminRole)
      ensures rows == if r.Created? then old(rows)[freshId := r.user] else old(rows)
    {
      r := CreateUser(username, password, extra.(role := Some(extra.role.GetOr(AdminRole))), freshId, hasher);
    }
  }

  /** With no extra fields a new user is an active, non-staff "user". */
  lemma NewUserDefaults(id: string, username: string, password: Hash)
    ensures NewUser(id, username, password, NoExtraFields).role == UserRole
    ensures NewUser(id, username, password, NoExtraFields).isActive
    ensures !NewUser(id, username, password, NoExtraFields).isStaff
  {
  }
}
