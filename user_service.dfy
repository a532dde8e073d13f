/**
 * The account store: `UserService` over the user table. The table is a map
 * from id to row; every row keeps only a digest of its password, and every
 * value handed back to a caller is the row without that column.
 */
module Users {
  import opened Wrappers
  import opened Errors

  type Id = string

  datatype Role = USER | ADMIN

  /** A row of the user table as the store holds it. */
  datatype UserRecord = UserRecord(id: Id, email: string, password: string, name: Option<string>, role: Role)

  /** What the service hands back: a row without its password column. */
  datatype User = User(id: Id, email: string, name: Option<string>, role: Role)

  datatype CreateUserInput = CreateUserInput(email: string, password: string, name: Option<string>, role: Option<Role>)
  datatype UpdateUserInput = UpdateUserInput(email: Option<string>, password: Option<string>, name: Option<string>, role: Option<Role>)
  datatype LoginUserInput = LoginUserInput(email: string, password: string)

  /** The random salt the password hash draws for each call. */
  type Salt = nat

  /**
   * The password hashing wrapper, injected: `hash` is salted one-way hashing
   * and `compare` checks a plaintext against a stored digest.
   */
  datatype PasswordCodec = PasswordCodec(hash: (string, Salt) -> string, compare: (string, string) -> bool) {
    /** A digest always accepts the password it was made from, whatever the salt. */
    ghost predicate Sound()
    {
      forall p, s :: compare(p, hash(p, s))
    }
  }

  const InvalidCredentials := "Invalid email or password"

  /** The password-stripping projection applied before every return. */
  function Public(r: UserRecord): User
  {
    User(r.id, r.email, r.name, r.role)
  }

  /** Puts a password column back onto a public view. */
  function WithPassword(u: User, password: string): UserRecord
  {
    UserRecord(u.id, u.email, password, u.name, u.role)
  }

  /** Stripping loses the password column and nothing else. */
  lemma PublicRoundTrip(r: UserRecord, u: User, password: string)
    ensures WithPassword(Public(r), r.password) == r
    ensures Public(WithPassword(u, password)) == u
  {
  }

  /** Two rows have the same public view exactly when they differ at most in the password. */
  lemma PublicForgetsOnlyPassword(r1: UserRecord, r2: UserRecord)
    ensures Public(r1) == Public(r2) <==> r1 == r2.(password := r1.password)
  {
  }

  /** Every row is filed under its own id. */
  ghost predicate KeyedById(t: map<Id, UserRecord>)
  {
    forall id | id in t :: t[id].id == id
  }

  /** The table's unique constraint on `email`. */
  ghost predicate EmailsUnique(t: map<Id, UserRecord>)
  {
    forall a, b | a in t && b in t && t[a].email == t[b].email :: a == b
  }

  /** `findUnique({ where: { email } })` finds a row. */
  predicate EmailTaken(t: map<Id, UserRecord>, email: string)
  {
    exists id | id in t :: t[id].email == email
  }

  /** JavaScript truthiness of an optional string: present and non-empty. */
  predicate Truthy(s: Option<string>)
  {
    s.Some? && s.value != ""
  }

  /** The condition under which `updateUser` rejects a new email. */
  predicate EmailConflict(t: map<Id, UserRecord>, id: Id, data: UpdateUserInput)
    requires id in t
  {
    Truthy(data.email) && data.email.value != t[id].email && EmailTaken(t, data.email.value)
  }

  /** An update conflicts exactly when the supplied email belongs to a different row. */
  lemma EmailConflictIsAnotherRow(t: map<Id, UserRecord>, id: Id, data: UpdateUserInput)
    requires KeyedById(t) && EmailsUnique(t) && id in t && data.email != Some("")
    ensures EmailConflict(t, id, data) <==>
              data.email.Some? && exists other | other in t :: other != id && t[other].email == data.email.value
  {
  }

  /**
   * The row `prisma.user.update` writes: a field that is omitted keeps its
   * value, a supplied one replaces it; the password column changes only when
   * a new digest was computed.
   */
  function Patched(r: UserRecord, data: UpdateUserInput, newHash: Option<string>): (p: UserRecord)
    ensures p.id == r.id
    ensures p.email == (if data.email.Some? then data.email.value else r.email)
    ensures p.password == (if newHash.Some? then newHash.value else r.password)
    ensures p.name == (if data.name.Some? then data.name else r.name)
    ensures p.role == (if data.role.Some? then data.role.value else r.role)
  {
    UserRecord(r.id, data.email.GetOr(r.email), newHash.GetOr(r.password), if data.name.Some? then data.name else r.name, data.role.GetOr(r.role))
  }

  /** Some row has this email and accepts this password. */
  ghost predicate Authenticates(t: map<Id, UserRecord>, codec: PasswordCodec, data: LoginUserInput)
  {
    exists id | id in t :: t[id].email == data.email && codec.compare(data.password, t[id].password)
  }

  class UserService {
    const codec: PasswordCodec
    var users: map<Id, UserRecord>

    ghost predicate Valid()
      reads this
    {
      codec.Sound() && KeyedById(users) && EmailsUnique(users)
    }

    constructor (codec: PasswordCodec)
      requires codec.Sound()
      ensures Valid() && this.codec == codec && users == map[]
    {
      this.codec := codec;
      users := map[];
    }

    /**
     * `createUser`. `newId` is the uuid the table's default generates; it is
     * not yet a key.
     */
    method CreateUser(data: CreateUserInput, newId: Id, salt: Salt) returns (r: Result<User>)
      requires Valid()
      requires newId !in users
      modifies this
      ensures Valid()
      ensures EmailTaken(old(users), data.email) ==>
                r == Err(Conflict(Some("User with email " + data.email + " already exists"))) && users == old(users)
      ensures !EmailTaken(old(users), data.email) ==>
                && users.Keys == old(users).Keys + {newId}
                && (forall id | id in old(users) :: users[id] == old(users)[id])
                && users[newId] == UserRecord(newId, data.email, codec.hash(data.password, salt), data.name, data.role.GetOr(USER))
                && r == Ok(Public(users[newId]))
    {
      if EmailTaken(users, data.email) {
        r := Err(Conflict(Some("User with email " + data.email + " already exists")));
        return;
      }
      var hashedPassword := codec.hash(data.password, salt);
      var user := UserRecord(newId, data.email, hashedPassword, data.name, data.role.GetOr(USER));
      users := users[newId := user];
      r := Ok(Public(user));
    }

    /** `getUserById`: the row's public view, or 404. */
    method GetUserById(id: Id) returns (r: Result<User>)
      ensures r.Ok? <==> id in users
      ensures r.Ok? ==> r.value == Public(users[id])
      ensures r.Err? ==> r.error == NotFound(Some("User with ID " + id + " not found"))
    {
      if id !in users {
        r := Err(NotFound(Some("User with ID " + id + " not found")));
        return;
      }
      r := Ok(Public(users[id]));
    }

    /** `getAllUsers`: every row once, password stripped, in no particular order. */
    method GetAllUsers() returns (list: seq<User>)
      requires Valid()
      ensures |list| == |users|
      ensures forall i | 0 <= i < |list| :: list[i].id in users && list[i] == Public(users[list[i].id])
      ensures forall i, j | 0 <= i < j < |list| :: list[i].id != list[j].id
      ensures forall id | id in users :: exists i | 0 <= i < |list| :: list[i].id == id
    {
      list := [];
      var rest := users.Keys;
      ghost var seen: seq<Id> := [];
      while rest != {}
        invariant rest <= users.Keys
        invariant |list| == |seen| && |seen| + |rest| == |users.Keys|
        invariant forall i | 0 <= i < |seen| :: seen[i] in users && seen[i] !in rest && list[i] == Public(users[seen[i]])
        invariant forall i, j | 0 <= i < j < |seen| :: seen[i] != seen[j]
        invariant forall id | id in users && id !in rest :: id in seen
        decreases rest
      {
        var id :| id in rest;
        list, seen := list + [Public(users[id])], seen + [id];
        rest := rest - {id};
      }
    }

    /** `updateUser`: 404 for an unknown id, 409 for an email held by another row, otherwise the patched row. */
    method UpdateUser(id: Id, data: UpdateUserInput, salt: Salt) returns (r: Result<User>)
      requires Valid()
      requires data.email != Some("")
      modifies this
      ensures Valid()
      ensures id !in old(users) ==>
                r == Err(NotFound(Some("User with ID " + id + " not found"))) && users == old(users)
      ensures id in old(users) && EmailConflict(old(users), id, data) ==>
                r == Err(Conflict(Some("Email " + data.email.value + " is already in use"))) && users == old(users)
      ensures id in old(users) && !EmailConflict(old(users), id, data) ==>
                && users == old(users)[id := Patched(old(users)[id], data,
                                                      if Truthy(data.password) then Some(codec.hash(data.password.value, salt)) else None)]
                && r == Ok(Public(users[id]))
    {
      if id !in users {
        r := Err(NotFound(Some("User with ID " + id + " not found")));
        return;
      }
      var existing := users[id];
      if Truthy(data.email) && data.email.value != existing.email {
        if EmailTaken(users, data.email.value) {
          r := Err(Conflict(Some("Email " + data.email.value + " is already in use")));
          return;
        }
      }
      var hashedPassword: Option<string> := None;
      if Truthy(data.password) {
        hashedPassword := Some(codec.hash(data.password.value, salt));
      }
      var updated := Patched(existing, data, hashedPassword);
      users := users[id := updated];
      r := Ok(Public(updated));
    }

    /** `deleteUser`: 404 for an unknown id, otherwise removes exactly that row and returns its public view. */
    method DeleteUser(id: Id) returns (r: Result<User>)
      requires Valid()
      modifies this
      ensures Valid()
      ensures id !in old(users) ==>
                r == Err(NotFound(Some("User with ID " + id + " not found"))) && users == old(users)
      ensures id in old(users) ==>
                users == old(users) - {id} && r == Ok(Public(old(users)[id]))
    {
      if id !in users {
        r := Err(NotFound(Some("User with ID " + id + " not found")));
        return;
      }
      var deleted := users[id];
      users := users - {id};
      r := Ok(Public(deleted));
    }

    /** `loginUser`: the row holding the email if the password matches; one and the same 401 otherwise. */
    method LoginUser(data: LoginUserInput) returns (r: Result<User>)
      requires Valid()
      ensures r.Ok? <==> Authenticates(users, codec, data)
      ensures r.Err? ==> r.error == Unauthorized(Some(InvalidCredentials))
      ensures r.Ok? ==> && r.value.id in users
                        && users[r.value.id].email == data.email
                        && codec.compare(data.password, users[r.value.id].password)
                        && r.value == Public(users[r.value.id])
    {
      if !EmailTaken(users, data.email) {
        r := Err(Unauthorized(Some(InvalidCredentials)));
        return;
      }
      var id :| id in users && users[id].email == data.email;
      if !codec.compare(data.password, users[id].password) {
        r := Err(Unauthorized(Some(InvalidCredentials)));
        return;
      }
      r := Ok(Public(users[id]));
    }
  }

  /** A row created with password `p` is one that `p` logs into. */
  lemma CreatedRowAcceptsItsPassword(t: map<Id, UserRecord>, codec: PasswordCodec, id: Id, p: string, salt: Salt)
    requires codec.Sound()
    requires id in t && t[id].password == codec.hash(p, salt)
    ensures Authenticates(t, codec, LoginUserInput(t[id].email, p))
  {
  }
}
