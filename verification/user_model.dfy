/** The `User` entity: its columns, defaults, serialization and password check. */
module UserModel {
  import opened Base

  const DefaultLastSerial: int := 1000
  const DefaultStorageUrl: string := "local"

  /**
   * A stored user row. `username` and `code` are declared unique and
   * non-null; `last_serial`, `storage_url` and `active` have defaults but are
   * nullable, so an update can store NULL in them.
   */
  datatype User = User(
    id: nat,
    username: string,
    code: string,
    password: string,
    role: string,
    branch: string,
    lastSerial: Option<int>,
    storageUrl: Option<string>,
    active: Option<bool>,
    createdAt: Time,
    updatedAt: Time)

  /**
   * The row the INSERT of `User(...)` stores: values left at None fall back
   * to the column defaults 1000 and 'local', and `active` is never passed, so
   * it takes its default true.
   */
  function NewUser(id: nat, username: string, code: string, password: string, role: string, branch: string,
                   lastSerial: Option<int>, storageUrl: Option<string>, now: Time): (u: User)
    ensures u.active == Some(true)
    ensures u.lastSerial == Some(if lastSerial.Some? then lastSerial.value else DefaultLastSerial)
    ensures u.storageUrl == Some(if storageUrl.Some? then storageUrl.value else DefaultStorageUrl)
    ensures u.username == username && u.code == code && u.password == password && u.id == id
    ensures u.role == role && u.branch == branch && u.createdAt == now && u.updatedAt == now
  {
    User(id, username, code, password, role, branch,
         Some(InsertDefault(lastSerial, DefaultLastSerial)),
         Some(InsertDefault(storageUrl, DefaultStorageUrl)),
         Some(true), now, now)
  }

  /** The camelCase keys of `User.to_dict`. */
  const UserKeys: set<string> := {
    "id", "username", "code", "role", "branch", "lastSerial", "storageUrl",
    "active", "createdAt", "updatedAt"
  }

  /** `User.to_dict`: every column except the password. */
  function ToDict(u: User): (m: map<string, Value>)
    ensures m.Keys == UserKeys
  {
    map[
      "id" := IntValue(u.id),
      "username" := TextValue(u.username),
      "code" := TextValue(u.code),
      "role" := TextValue(u.role),
      "branch" := TextValue(u.branch),
      "lastSerial" := IntOrNull(u.lastSerial),
      "storageUrl" := TextOrNull(u.storageUrl),
      "active" := BoolOrNull(u.active),
      "createdAt" := TimeValue(u.createdAt),
      "updatedAt" := TimeValue(u.updatedAt)
    ]
  }

  /**
   * The serialized user never carries the password, and determines every
   * other column: two users that serialize alike differ at most in password.
   */
  lemma ToDictHidesOnlyPassword(a: User, b: User)
    ensures "password" !in ToDict(a)
    ensures ToDict(a) == ToDict(b) <==> a.(password := b.password) == b
  {
    var ma, mb := ToDict(a), ToDict(b);
    if ma == mb {
      assert ma["id"] == mb["id"] && ma["username"] == mb["username"] && ma["code"] == mb["code"];
      assert ma["role"] == mb["role"] && ma["branch"] == mb["branch"];
      assert ma["lastSerial"] == mb["lastSerial"] && ma["storageUrl"] == mb["storageUrl"];
      assert ma["active"] == mb["active"];
      assert ma["createdAt"] == mb["createdAt"] && ma["updatedAt"] == mb["updatedAt"];
    }
  }

  /** `User.check_password`: plain equality with the stored text. */
  predicate CheckPassword(u: User, password: string) {
    u.password == password
  }
}
