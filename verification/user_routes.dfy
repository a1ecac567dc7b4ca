/**
 * The user endpoints (`/auth/login`, `/users`, `/users/<id>`,
 * `/users/<id>/serial`) as operations on the `users` table. Each handler is
 * one atomic step: it either commits all its changes or leaves the table as
 * it was.
 */
module UserRoutes {
  import opened Base
  import opened UserModel

  /** The body of `POST /users`. */
  datatype UserData = UserData(
    username: Field<string>,
    code: Field<string>,
    password: Field<string>,
    role: Field<string>,
    branch: Field<string>,
    lastSerial: Field<int>,
    storageUrl: Field<string>)

  /** The body of `PUT /users/<id>`: every key is optional. */
  datatype UserPatch = UserPatch(
    username: Field<string>,
    code: Field<string>,
    password: Field<string>,
    role: Field<string>,
    branch: Field<string>,
    lastSerial: Field<int>,
    storageUrl: Field<string>,
    active: Field<bool>)

  function Ids(users: seq<User>): seq<nat> {
    IdsOf(users, (x: User) => x.id)
  }

  /** The table's declared constraints: the primary key and the unique `username` and `code` columns. */
  predicate Consistent(users: seq<User>) {
    forall i, j | 0 <= i < j < |users| ::
      && users[i].id != users[j].id
      && users[i].username != users[j].username
      && users[i].code != users[j].code
  }

  predicate HasId(users: seq<User>, id: nat) {
    exists i | 0 <= i < |users| :: users[i].id == id
  }

  /** Some user other than `id` holds the username. */
  predicate UsernameHeld(users: seq<User>, name: string, id: nat) {
    exists i | 0 <= i < |users| :: users[i].username == name && users[i].id != id
  }

  /** Some user other than `id` holds the code. */
  predicate CodeHeld(users: seq<User>, code: string, id: nat) {
    exists i | 0 <= i < |users| :: users[i].code == code && users[i].id != id
  }

  /** Some user, active or not, already has the username or the code. */
  predicate Clash(users: seq<User>, name: string, code: string) {
    exists i | 0 <= i < |users| :: users[i].username == name || users[i].code == code
  }

  /** `user and user.check_password(password)` for the row `filter_by(username=..., active=True)` finds. */
  predicate CanLogIn(u: User, name: string, password: string) {
    u.username == name && u.active == Some(true) && CheckPassword(u, password)
  }

  /** The required keys of `POST /users`, in the order they are checked. */
  function RequiredChecks(d: UserData): seq<(string, bool)> {
    [ ("username", TextSupplied(d.username)), ("code", TextSupplied(d.code)),
      ("password", TextSupplied(d.password)), ("role", TextSupplied(d.role)),
      ("branch", TextSupplied(d.branch)) ]
  }

  /** Every required key is truthy; in particular each of them is present. */
  predicate Supplied(d: UserData): (b: bool)
    ensures b ==> d.username.Given? && d.code.Given? && d.password.Given? && d.role.Given? && d.branch.Given?
  {
    var checks := RequiredChecks(d);
    assert (forall i | 0 <= i < |checks| :: checks[i].1) ==>
      checks[0].1 && checks[1].1 && checks[2].1 && checks[3].1 && checks[4].1;
    forall i | 0 <= i < |checks| :: checks[i].1
  }

  /** A patch that sets no NOT NULL column to `null`. */
  predicate NoNullRequired(p: UserPatch) {
    !p.username.Null? && !p.code.Null? && !p.password.Null? && !p.role.Null? && !p.branch.Null?
  }

  /** The row after `update_user` assigns every key that is present and stamps `updated_at`. */
  function Patched(u: User, p: UserPatch, now: Time): (v: User)
    requires NoNullRequired(p)
    ensures v.id == u.id && v.createdAt == u.createdAt && v.updatedAt == now
    ensures p.active.Absent? ==> v.active == u.active
    ensures p.active.Sent() ==> v.active == p.active.Get()
    ensures p.password.Absent? ==> v.password == u.password
    ensures p.username.Absent? ==> v.username == u.username
    ensures p.code.Absent? ==> v.code == u.code
    ensures p.lastSerial.Absent? ==> v.lastSerial == u.lastSerial
    ensures p.role.Absent? ==> v.role == u.role
    ensures p.branch.Absent? ==> v.branch == u.branch
    ensures p.storageUrl.Absent? ==> v.storageUrl == u.storageUrl
    ensures p.username.Given? ==> v.username == p.username.value
    ensures p.code.Given? ==> v.code == p.code.value
    ensures p.password.Given? ==> v.password == p.password.value
    ensures p.role.Given? ==> v.role == p.role.value
    ensures p.branch.Given? ==> v.branch == p.branch.value
    ensures p.lastSerial.Sent() ==> v.lastSerial == p.lastSerial.Get()
    ensures p.storageUrl.Sent() ==> v.storageUrl == p.storageUrl.Get()
  {
    u.(username := Overwrite(u.username, p.username),
       code := Overwrite(u.code, p.code),
       password := Overwrite(u.password, p.password),
       role := Overwrite(u.role, p.role),
       branch := Overwrite(u.branch, p.branch),
       lastSerial := OverwriteNullable(u.lastSerial, p.lastSerial),
       storageUrl := OverwriteNullable(u.storageUrl, p.storageUrl),
       active := OverwriteNullable(u.active, p.active),
       updatedAt := now)
  }

  /** Sending the same patch twice leaves the row as the first time. */
  lemma PatchedIdempotent(u: User, p: UserPatch, now: Time)
    requires NoNullRequired(p)
    ensures Patched(Patched(u, p, now), p, now) == Patched(u, p, now)
  {
  }

  /** A patch with no keys changes nothing but `updated_at`. */
  lemma EmptyPatch(u: User, now: Time)
    ensures Patched(u, UserPatch(Absent, Absent, Absent, Absent, Absent, Absent, Absent, Absent), now)
      == u.(updatedAt := now)
  {
  }

  /**
   * The row after `user.last_serial = number`: the `updated_at` column is
   * refreshed by its `onupdate` only when the value actually changes.
   */
  function WithSerial(u: User, serial: int, now: Time): (v: User)
    ensures v.lastSerial == Some(serial)
    ensures v.updatedAt == if u.lastSerial == Some(serial) then u.updatedAt else now
    ensures v.(updatedAt := u.updatedAt) == u.(lastSerial := Some(serial))
  {
    if u.lastSerial == Some(serial) then u else u.(lastSerial := Some(serial), updatedAt := now)
  }

  /** The `users` table and the handlers of the user blueprint. */
  class UserDirectory {
    var users: seq<User>

    predicate Valid()
      reads this
    {
      Consistent(users)
    }

    constructor()
      ensures users == [] && Valid()
    {
      users := [];
    }

    /** `POST /auth/login`. */
    method Login(username: Field<string>, password: Field<string>) returns (res: Result<User>)
      requires Valid()
      ensures !(TextSupplied(username) && TextSupplied(password)) ==> res == Err(MissingCredentials)
      ensures TextSupplied(username) && TextSupplied(password) ==>
        && (res.Ok? <==> exists i | 0 <= i < |users| :: CanLogIn(users[i], username.value, password.value))
        && (res.Ok? ==> res.value in users && CanLogIn(res.value, username.value, password.value))
        && (res.Err? ==> res.error == InvalidCredentials)
    {
      if !TextSupplied(username) || !TextSupplied(password) {
        return Err(MissingCredentials);
      }
      var name, secret := username.value, password.value;
      var found := FirstIndex(users, (u: User) => u.username == name && u.active == Some(true));
      if found.Some? && CheckPassword(users[found.value], secret) {
        return Ok(users[found.value]);
      }
      assert forall i | 0 <= i < |users| :: !CanLogIn(users[i], name, secret);
      return Err(InvalidCredentials);
    }

    /** `GET /users`: the active users, in table order. */
    method ActiveUsers() returns (r: seq<User>)
      ensures forall u | u in r :: u in users && u.active == Some(true)
      ensures forall u | u in users && u.active == Some(true) :: u in r
      ensures multiset(r) <= multiset(users)
    {
      r := Filter(users, (u: User) => u.active == Some(true));
    }

    /** `POST /users`. */
    method Create(d: UserData, now: Time) returns (res: Result<User>)
      requires Valid()
      modifies this
      ensures Valid()
      ensures res.Err? ==> users == old(users)
      ensures (res.Err? && res.error.MissingField?) <==> !Supplied(d)
      ensures res.Err? && res.error.MissingField? ==> FirstFailing(RequiredChecks(d), res.error.name)
      ensures Supplied(d) ==>
        (res == Err(Duplicate("Username or code")) <==> Clash(old(users), d.username.value, d.code.value))
      ensures Supplied(d) && !Clash(old(users), d.username.value, d.code.value) ==> res.Ok?
      ensures res.Ok? ==>
        && res.value == NewUser(NextId(Ids(old(users))), d.username.value, d.code.value, d.password.value,
                                d.role.value, d.branch.value, d.lastSerial.GetOr(Some(DefaultLastSerial)),
                                d.storageUrl.GetOr(Some(DefaultStorageUrl)), now)
        && users == old(users) + [res.value]
    {
      var missing := FirstMissing(RequiredChecks(d));
      if missing.Some? {
        return Err(MissingField(missing.value));
      }
      var checks := RequiredChecks(d);
      assert checks[0].1 && checks[1].1 && checks[2].1 && checks[3].1 && checks[4].1;
      var name, code := d.username.value, d.code.value;
      var existing := FirstIndex(users, (u: User) => u.username == name || u.code == code);
      if existing.Some? {
        return Err(Duplicate("Username or code"));
      }
      var ids := Ids(users);
      var u := NewUser(NextId(ids), name, code, d.password.value, d.role.value, d.branch.value,
                       d.lastSerial.GetOr(Some(DefaultLastSerial)), d.storageUrl.GetOr(Some(DefaultStorageUrl)), now);
      forall i | 0 <= i < |users| ensures users[i].id < u.id {
        assert ids[i] == users[i].id;
      }
      users := users + [u];
      res := Ok(u);
    }

    /** `GET /users/<id>`. */
    method Get(id: nat) returns (res: Result<User>)
      ensures res.Ok? <==> HasId(users, id)
      ensures res.Ok? ==> res.value in users && res.value.id == id
      ensures res.Err? ==> res.error == NotFound
    {
      var found := FirstIndex(users, (u: User) => u.id == id);
      if found.None? {
        return Err(NotFound);
      }
      res := Ok(users[found.value]);
    }

    /** `PUT /users/<id>`. */
    method Update(id: nat, p: UserPatch, now: Time) returns (res: Result<User>)
      requires Valid()
      modifies this
      ensures Valid()
      ensures res.Err? ==> users == old(users)
      ensures !HasId(old(users), id) ==> res == Err(NotFound)
      ensures HasId(old(users), id) && p.username.Given? && UsernameHeld(old(users), p.username.value, id) ==>
        res == Err(Duplicate("Username"))
      ensures HasId(old(users), id) && p.username.Null? ==> res == Err(StorageFailure)
      ensures (&& HasId(old(users), id) && !p.username.Null?
               && (p.username.Given? ==> !UsernameHeld(old(users), p.username.value, id))
               && p.code.Given? && CodeHeld(old(users), p.code.value, id)) ==> res == Err(Duplicate("Code"))
      ensures (&& HasId(old(users), id) && !p.username.Null?
               && (p.username.Given? ==> !UsernameHeld(old(users), p.username.value, id))
               && (p.code.Given? ==> !CodeHeld(old(users), p.code.value, id))
               && !NoNullRequired(p)) ==> res == Err(StorageFailure)
      ensures res.Ok? <==>
        && HasId(old(users), id) && NoNullRequired(p)
        && (p.username.Given? ==> !UsernameHeld(old(users), p.username.value, id))
        && (p.code.Given? ==> !CodeHeld(old(users), p.code.value, id))
      ensures res.Err? && res.error != NotFound ==> res.error == StorageFailure || res.error.Duplicate?
      ensures res.Ok? ==>
        && |users| == |old(users)|
        && (forall k | 0 <= k < |users| ::
              users[k] == if old(users)[k].id == id then Patched(old(users)[k], p, now) else old(users)[k])
        && res.value in users && res.value.id == id
    {
      var found := FirstIndex(users, (u: User) => u.id == id);
      if found.None? {
        return Err(NotFound);
      }
      var i := found.value;
      if p.username.Given? {
        var name := p.username.value;
        var existing := FirstIndex(users, (u: User) => u.username == name && u.id != id);
        if existing.Some? {
          return Err(Duplicate("Username"));
        }
      }
      if p.username.Null? {
        // the NULL username is flushed before the code lookup, or at the commit
        return Err(StorageFailure);
      }
      if p.code.Given? {
        var code := p.code.value;
        var existing := FirstIndex(users, (u: User) => u.code == code && u.id != id);
        if existing.Some? {
          return Err(Duplicate("Code"));
        }
      }
      if !NoNullRequired(p) {
        return Err(StorageFailure);
      }
      var v := Patched(users[i], p, now);
      UpdatedStaysConsistent(users, i, v);
      users := users[i := v];
      res := Ok(v);
    }

    /** `DELETE /users/<id>`: a soft delete that keeps the row. */
    method Deactivate(id: nat, now: Time) returns (res: Outcome)
      requires Valid()
      modifies this
      ensures Valid()
      ensures res.Failed? <==> !HasId(old(users), id)
      ensures res.Failed? ==> res.error == NotFound && users == old(users)
      ensures res.Done? ==>
        && |users| == |old(users)|
        && forall k | 0 <= k < |users| ::
             users[k] == if old(users)[k].id == id then old(users)[k].(active := Some(false), updatedAt := now)
                         else old(users)[k]
    {
      var found := FirstIndex(users, (u: User) => u.id == id);
      if found.None? {
        return Failed(NotFound);
      }
      var i := found.value;
      var v := users[i].(active := Some(false), updatedAt := now);
      UpdatedStaysConsistent(users, i, v);
      users := users[i := v];
      res := Done;
    }

    /** `PUT /users/<id>/serial`: overwrites `last_serial`, with no check on its value, only when the key is sent. */
    method SetSerial(id: nat, lastSerial: Field<int>, now: Time) returns (res: Result<User>)
      requires Valid()
      modifies this
      ensures Valid()
      ensures res.Err? <==> !HasId(old(users), id)
      ensures res.Err? ==> res.error == NotFound
      ensures lastSerial.Absent? || res.Err? ==> users == old(users)
      ensures res.Ok? && lastSerial.Sent() ==>
        && |users| == |old(users)|
        && forall k | 0 <= k < |users| ::
             users[k] == if old(users)[k].id == id then old(users)[k].(lastSerial := lastSerial.Get(), updatedAt := now)
                         else old(users)[k]
      ensures res.Ok? ==> res.value in users && res.value.id == id
    {
      var found := FirstIndex(users, (u: User) => u.id == id);
      if found.None? {
        return Err(NotFound);
      }
      var i := found.value;
      if lastSerial.Sent() {
        var v := users[i].(lastSerial := lastSerial.Get(), updatedAt := now);
        UpdatedStaysConsistent(users, i, v);
        users := users[i := v];
      }
      res := Ok(users[i]);
    }

    /**
     * The side effect of `POST /receipts` on the issuing user: the first user
     * whose username is the receipt's `createdBy`, active or not, takes the
     * receipt number as its `last_serial`; without such a user nothing changes.
     */
    method RecordSerial(username: string, number: int, now: Time)
      requires Valid()
      modifies this
      ensures Valid()
      ensures |users| == |old(users)|
      ensures forall k | 0 <= k < |users| ::
        users[k] == if old(users)[k].username == username then WithSerial(old(users)[k], number, now) else old(users)[k]
    {
      var found := FirstIndex(users, (u: User) => u.username == username);
      if found.Some? {
        var i := found.value;
        UpdatedStaysConsistent(users, i, WithSerial(users[i], number, now));
        users := users[i := WithSerial(users[i], number, now)];
      }
    }
  }

  /**
   * Replacing one row by a row with the same id keeps the constraints, as
   * long as its username and code are not held by another row.
   */
  lemma UpdatedStaysConsistent(users: seq<User>, i: nat, v: User)
    requires Consistent(users) && i < |users|
    requires v.id == users[i].id
    requires v.username == users[i].username || !UsernameHeld(users, v.username, v.id)
    requires v.code == users[i].code || !CodeHeld(users, v.code, v.id)
    ensures Consistent(users[i := v])
  {
    var t := users[i := v];
    forall a, b | 0 <= a < b < |t|
      ensures t[a].id != t[b].id && t[a].username != t[b].username && t[a].code != t[b].code
    {
      if a == i {
        assert t[b] == users[b];
      } else if b == i {
        assert t[a] == users[a];
      }
    }
  }
}
