/** internal/identity: accounts, the token store, and the commands on them. */
module Identity {
  import opened Common

  datatype Role = Member | Admin

  /** An ideal salted hash: it verifies the password it was made from and no other. */
  datatype Hash = Hash(plain: string, salt: nat)

  datatype UserRow = UserRow(
    name: string, email: string, passwordHash: Hash, role: Role, active: bool,
    verifiedAt: Option<Time>, createdAt: Time, updatedAt: Time)

  datatype Error =
    | PasswordMismatch | EmptyName | InvalidEmail | PasswordTooShort | HashingFailed | EmailConflict | UserNotFound
    | UnverifiedEmail | WrongPassword | UserBanned | NoRandomness | SigningFailed | Unavailable

  const MIN_PASSWORD_LENGTH := 8
  const VERIFY_TTL := 24 * 60 * 60
  const RESET_TTL := 60 * 60
  const REFRESH_TTL := 7 * 24 * 60 * 60

  // ---- the account ----

  function Promoted(u: UserRow, role: Role, now: Time): UserRow { u.(role := role, updatedAt := now) }

  function Banned(u: UserRow, now: Time): UserRow { u.(active := false, updatedAt := now) }

  function Unbanned(u: UserRow, now: Time): UserRow { u.(active := true, updatedAt := now) }

  function WithPassword(u: UserRow, hash: Hash, now: Time): UserRow { u.(passwordHash := hash, updatedAt := now) }

  function Verified(u: UserRow, now: Time): UserRow { u.(verifiedAt := Some(now), updatedAt := now) }

  class User {
    const id: Id
    const email: string
    const createdAt: Time
    var name: string
    var passwordHash: Hash
    var role: Role
    var active: bool
    var verifiedAt: Option<Time>
    var updatedAt: Time

    function Value(): UserRow
      reads this
    {
      UserRow(name, email, passwordHash, role, active, verifiedAt, createdAt, updatedAt)
    }

    constructor (id: Id, u: UserRow)
      ensures this.id == id && Value() == u
    {
      this.id, email, createdAt, name, passwordHash := id, u.email, u.createdAt, u.name, u.passwordHash;
      role, active, verifiedAt, updatedAt := u.role, u.active, u.verifiedAt, u.updatedAt;
    }

    method Promote(role: Role, now: Time)
      modifies this
      ensures Value() == Promoted(old(Value()), role, now)
    {
      this.role, updatedAt := role, now;
    }

    method Ban(now: Time)
      modifies this
      ensures Value() == Banned(old(Value()), now)
    {
      active, updatedAt := false, now;
    }

    method Unban(now: Time)
      modifies this
      ensures Value() == Unbanned(old(Value()), now)
    {
      active, updatedAt := true, now;
    }

    method SetPasswordHash(hash: Hash, now: Time)
      modifies this
      ensures Value() == WithPassword(old(Value()), hash, now)
    {
      passwordHash, updatedAt := hash, now;
    }

    method MarkEmailVerified(now: Time)
      modifies this
      ensures Value() == Verified(old(Value()), now)
    {
      verifiedAt, updatedAt := Some(now), now;
    }
  }

  // ---- the stores ----

  type Table = map<Id, UserRow>

  /** A key's value and the time from which it is gone. */
  datatype Entry = Entry(user: Id, expires: Time)

  type Redis = map<string, Entry>

  datatype World = World(users: Table, ulink: Link, redis: Redis, rlink: Link)

  /** The columns UPDATE sets; e-mail and creation time stay. */
  function Overwrite(row: UserRow, copy: UserRow, now: Time): UserRow
  {
    copy.(email := row.email, createdAt := row.createdAt, updatedAt := now)
  }

  ghost predicate EmailTaken(users: Table, email: string)
  {
    exists id | id in users :: users[id].email == email
  }

  ghost predicate UniqueEmails(users: Table)
  {
    forall a, b | a in users && b in users && users[a].email == users[b].email :: a == b
  }

  ghost function FindByEmail(users: Table, email: string): (r: Option<Id>)
    ensures r.Some? ==> r.value in users && users[r.value].email == email
    ensures r.None? <==> !EmailTaken(users, email)
  {
    if id :| id in users && users[id].email == email then Some(id) else None
  }

  function RefreshKey(hash: string -> string, token: string): string { "refresh:" + hash(token) }

  function VerifyKey(token: string): string { "verify:" + token }

  function ResetKey(token: string): string { "reset:" + token }

  // ---- one repository call each ----

  function Load(w: World, id: Id): (Result<UserRow, Error>, World)
  {
    var reply := Call(w.ulink);
    (if !reply.ok then Err(Unavailable) else if id in w.users then Ok(w.users[id]) else Err(UserNotFound),
     w.(ulink := reply.link))
  }

  /** The statement returns the row, so a missing one is an error. */
  function Save(w: World, id: Id, copy: UserRow, now: Time): (bool, World)
  {
    var reply := Call(w.ulink);
    (reply.ok && id in w.users,
     w.(users := if reply.applied && id in w.users then w.users[id := Overwrite(w.users[id], copy, now)] else w.users,
        ulink := reply.link))
  }

  predicate Live(redis: Redis, key: string, now: Time)
  {
    key in redis && now < redis[key].expires
  }

  function Get(w: World, key: string, now: Time): (Option<Id>, World)
  {
    var reply := Call(w.rlink);
    (if reply.ok && Live(w.redis, key, now) then Some(w.redis[key].user) else None, w.(rlink := reply.link))
  }

  function Put(w: World, key: string, user: Id, ttl: Time, now: Time): (bool, World)
  {
    var reply := Call(w.rlink);
    var redis := if reply.applied then w.redis[key := Entry(user, now + ttl)] else w.redis;
    (reply.ok, w.(redis := redis, rlink := reply.link))
  }

  function Del(w: World, key: string): (bool, World)
  {
    var reply := Call(w.rlink);
    (reply.ok, w.(redis := if reply.applied then w.redis - {key} else w.redis, rlink := reply.link))
  }

  // ---- the commands, call by call ----

  datatype Outcome<T> = Outcome(w: World, result: Result<T, Error>)

  datatype Unit = Unit

  /** The access token's claims, and the refresh token. */
  datatype Pair = Pair(subject: Id, role: Role, refresh: string)

  function NewUser(name: string, email: string, isEmail: string -> bool, password: string, salt: Option<nat>, now: Time)
    : Result<UserRow, Error>
  {
    if name == "" then Err(EmptyName)
    else if !isEmail(email) then Err(InvalidEmail)
    else if |password| < MIN_PASSWORD_LENGTH then Err(PasswordTooShort)
    else if salt.None? then Err(HashingFailed)
    else Ok(UserRow(name, email, Hash(password, salt.value), Member, true, None, now, now))
  }

  ghost function Registered(w: World, id: Id, user: Result<UserRow, Error>, matches: bool, token: Option<string>,
                            now: Time): Outcome<Unit>
  {
    if !matches then Outcome(w, Err(PasswordMismatch))
    else if user.Err? then Outcome(w, Err(user.error))
    else
      var reply := Call(w.ulink);
      if EmailTaken(w.users, user.value.email) then
        Outcome(w.(ulink := reply.link), Err(if reply.ok then EmailConflict else Unavailable))
      else
        var w1 := w.(users := if reply.applied then w.users[id := user.value] else w.users, ulink := reply.link);
        if !reply.ok then Outcome(w1, Err(Unavailable))
        else if token.None? then Outcome(w1, Err(NoRandomness))
        else
          var (ok, w2) := Put(w1, VerifyKey(token.value), id, VERIFY_TTL, now);
          Outcome(w2, if ok then Ok(Unit) else Err(Unavailable))
  }

  function EmailVerified(w: World, token: string, now: Time): Outcome<Unit>
  {
    var (holder, w1) := Get(w, VerifyKey(token), now);
    if holder.None? then Outcome(w1, Err(UnverifiedEmail))
    else
      var (user, w2) := Load(w1, holder.value);
      if user.Err? then Outcome(w2, Err(user.error))
      else if user.value.verifiedAt.Some? then Outcome(Del(w2, VerifyKey(token)).1, Ok(Unit))
      else
        var (saved, w3) := Save(w2, holder.value, Verified(user.value, now), now);
        if !saved then Outcome(w3, Err(Unavailable))
        else
          var (ok, w4) := Del(w3, VerifyKey(token));
          Outcome(w4, if ok then Ok(Unit) else Err(Unavailable))
  }

  /** What Login and RefreshToken end with: sign an access token and store a fresh refresh token. */
  function Issued(w: World, hash: string -> string, id: Id, role: Role, signed: bool, minted: Option<string>,
                  now: Time): Outcome<Pair>
  {
    if !signed then Outcome(w, Err(SigningFailed))
    else if minted.None? then Outcome(w, Err(NoRandomness))
    else
      var (ok, w1) := Put(w, RefreshKey(hash, minted.value), id, REFRESH_TTL, now);
      Outcome(w1, if ok then Ok(Pair(id, role, minted.value)) else Err(Unavailable))
  }

  ghost function LoggedIn(w: World, hash: string -> string, email: string, password: string, signed: bool,
                          minted: Option<string>, now: Time)
    : Outcome<Pair>
  {
    var reply := Call(w.ulink);
    var w1 := w.(ulink := reply.link);
    if !reply.ok || FindByEmail(w.users, email).None? then Outcome(w1, Err(WrongPassword))
    else
      var id := FindByEmail(w.users, email).value;
      if !w.users[id].active then Outcome(w1, Err(UserBanned))
      else if w.users[id].passwordHash.plain != password then Outcome(w1, Err(WrongPassword))
      else Issued(w1, hash, id, w.users[id].role, signed, minted, now)
  }

  /** A failure to revoke the old token is ignored. */
  function Refreshed(w: World, hash: string -> string, token: string, signed: bool, minted: Option<string>,
                     now: Time): Outcome<Pair>
  {
    var (holder, w1) := Get(w, RefreshKey(hash, token), now);
    if holder.None? then Outcome(w1, Err(WrongPassword))
    else
      var (user, w2) := Load(w1, holder.value);
      if user.Err? then Outcome(w2, Err(user.error))
      else
        var issued := Issued(w2, hash, holder.value, user.value.role, signed, minted, now);
        if issued.result.Err? then issued else Outcome(Del(issued.w, RefreshKey(hash, token)).1, issued.result)
  }

  function LoggedOut(w: World, hash: string -> string, token: string): Outcome<Unit>
  {
    var (ok, w1) := Del(w, RefreshKey(hash, token));
    Outcome(w1, if ok then Ok(Unit) else Err(Unavailable))
  }

  /** An unknown address is not an error. */
  ghost function ResetRequested(w: World, email: string, token: Option<string>, now: Time): Outcome<Unit>
  {
    var reply := Call(w.ulink);
    var w1 := w.(ulink := reply.link);
    if !reply.ok || FindByEmail(w.users, email).None? then Outcome(w1, Ok(Unit))
    else if token.None? then Outcome(w1, Err(NoRandomness))
    else
      var (ok, w2) := Put(w1, ResetKey(token.value), FindByEmail(w.users, email).value, RESET_TTL, now);
      Outcome(w2, if ok then Ok(Unit) else Err(Unavailable))
  }

  function PasswordReset(w: World, token: string, password: string, confirmation: string, salt: Option<nat>,
                         now: Time): Outcome<Unit>
  {
    if password != confirmation then Outcome(w, Err(PasswordMismatch))
    else if |password| < MIN_PASSWORD_LENGTH then Outcome(w, Err(PasswordTooShort))
    else
      var (holder, w1) := Get(w, ResetKey(token), now);
      if holder.None? then Outcome(w1, Err(UnverifiedEmail))
      else
        var (user, w2) := Load(w1, holder.value);
        if user.Err? then Outcome(w2, Err(user.error))
        else if salt.None? then Outcome(w2, Err(HashingFailed))
        else
          var (saved, w3) := Save(w2, holder.value, WithPassword(user.value, Hash(password, salt.value), now), now);
          if !saved then Outcome(w3, Err(Unavailable))
          else
            var (ok, w4) := Del(w3, ResetKey(token));
            Outcome(w4, if ok then Ok(Unit) else Err(Unavailable))
  }

  /** `id` is the parsed user id, if it parses. */
  function ProfileUpdated(w: World, id: Option<Id>, name: string, now: Time): Outcome<Unit>
  {
    if name == "" then Outcome(w, Err(EmptyName))
    else if id.None? then Outcome(w, Err(UserNotFound))
    else
      var (user, w1) := Load(w, id.value);
      if user.Err? then Outcome(w1, Err(user.error))
      else
        var (ok, w2) := Save(w1, id.value, user.value.(name := name), now);
        Outcome(w2, if ok then Ok(Unit) else Err(Unavailable))
  }

  function PasswordChanged(w: World, id: Option<Id>, current: string, password: string, salt: Option<nat>,
                           now: Time): Outcome<Unit>
  {
    if id.None? then Outcome(w, Err(UserNotFound))
    else
      var (user, w1) := Load(w, id.value);
      if user.Err? then Outcome(w1, Err(user.error))
      else if user.value.passwordHash.plain != current then Outcome(w1, Err(WrongPassword))
      else if |password| < MIN_PASSWORD_LENGTH then Outcome(w1, Err(PasswordTooShort))
      else if salt.None? then Outcome(w1, Err(HashingFailed))
      else
        var (ok, w2) := Save(w1, id.value, WithPassword(user.value, Hash(password, salt.value), now), now);
        Outcome(w2, if ok then Ok(Unit) else Err(Unavailable))
  }

  // ---- the code ----

  class UserRepository {
    var users: Table
    var link: Link

    method Create(id: Id, u: UserRow) returns (error: Option<Error>)
      requires id !in users
      modifies this
      ensures var reply := Call(old(link)); var taken := EmailTaken(old(users), u.email);
        && link == reply.link
        && error == (if !reply.ok then Some(Unavailable) else if taken then Some(EmailConflict) else None)
        && users == if reply.applied && !taken then old(users)[id := u] else old(users)
    {
      var reply := Call(link);
      link := reply.link;
      var taken := exists x | x in users :: users[x].email == u.email;
      if reply.applied && !taken {
        users := users[id := u];
      }
      error := if !reply.ok then Some(Unavailable) else if taken then Some(EmailConflict) else None;
    }

    method FindByID(id: Id) returns (user: User?, error: Error)
      modifies this`link
      ensures link == Call(old(link)).link
      ensures user == null ==> error == if Call(old(link)).ok then UserNotFound else Unavailable
      ensures user != null <==> Call(old(link)).ok && id in users
      ensures user != null ==> fresh(user) && user.id == id && user.Value() == users[id]
    {
      var reply := Call(link);
      link := reply.link;
      user, error := null, if reply.ok then UserNotFound else Unavailable;
      if reply.ok && id in users {
        user := new User(id, users[id]);
      }
    }

    method FindByEmail(email: string) returns (user: User?)
      requires UniqueEmails(users)
      modifies this`link
      ensures link == Call(old(link)).link
      ensures user != null <==> Call(old(link)).ok && EmailTaken(users, email)
      ensures user != null ==>
        fresh(user) && user.id in users && users[user.id].email == email && user.Value() == users[user.id]
    {
      var reply := Call(link);
      link := reply.link;
      user := null;
      if reply.ok && exists id :: id in users && users[id].email == email {
        var id :| id in users && users[id].email == email;
        user := new User(id, users[id]);
      }
    }

    method Update(user: User, now: Time) returns (ok: bool)
      modifies this
      ensures var reply := Call(old(link));
        && ok == (reply.ok && user.id in old(users)) && link == reply.link
        && users == if reply.applied && user.id in old(users)
             then old(users)[user.id := Overwrite(old(users)[user.id], user.Value(), now)] else old(users)
    {
      var reply := Call(link);
      link := reply.link;
      ok := reply.ok && user.id in users;
      if reply.applied && user.id in users {
        users := users[user.id := Overwrite(users[user.id], user.Value(), now)];
      }
    }
  }

  class TokenStore {
    const hash: string -> string
    var redis: Redis
    var link: Link

    method Set(key: string, user: Id, ttl: Time, now: Time) returns (ok: bool)
      modifies this
      ensures var reply := Call(old(link));
        && ok == reply.ok && link == reply.link
        && redis == if reply.applied then old(redis)[key := Entry(user, now + ttl)] else old(redis)
    {
      var reply := Call(link);
      link := reply.link;
      if reply.applied {
        redis := redis[key := Entry(user, now + ttl)];
      }
      ok := reply.ok;
    }

    method Get(key: string, now: Time) returns (user: Option<Id>)
      modifies this`link
      ensures var reply := Call(old(link));
        link == reply.link && user == if reply.ok && Live(redis, key, now) then Some(redis[key].user) else None
    {
      var reply := Call(link);
      link := reply.link;
      user := if reply.ok && Live(redis, key, now) then Some(redis[key].user) else None;
    }

    method Delete(key: string) returns (ok: bool)
      modifies this
      ensures var reply := Call(old(link));
        ok == reply.ok && link == reply.link && redis == if reply.applied then old(redis) - {key} else old(redis)
    {
      var reply := Call(link);
      link := reply.link;
      if reply.applied {
        redis := redis - {key};
      }
      ok := reply.ok;
    }
  }

  class Service {
    const users: UserRepository
    const tokens: TokenStore
    const isEmail: string -> bool

    function State(): World
      reads users, tokens
    {
      World(users.users, users.link, tokens.redis, tokens.link)
    }

    constructor (users: UserRepository, tokens: TokenStore, isEmail: string -> bool)
      ensures this.users == users && this.tokens == tokens && this.isEmail == isEmail
    {
      this.users, this.tokens, this.isEmail := users, tokens, isEmail;
    }

    method RegisterUser(id: Id, name: string, email: string, password: string, confirmation: string,
                        salt: Option<nat>, token: Option<string>, now: Time) returns (result: Result<Unit, Error>)
      requires id !in users.users
      modifies users, tokens
      ensures var user := NewUser(name, email, isEmail, password, salt, now);
        Registered(old(State()), id, user, password == confirmation, token, now) == Outcome(State(), result)
    {
      if password != confirmation {
        return Err(PasswordMismatch);
      }
      var user := NewUser(name, email, isEmail, password, salt, now);
      if user.Err? {
        return Err(user.error);
      }
      var error := users.Create(id, user.value);
      if error.Some? {
        return Err(error.value);
      }
      if token.None? {
        return Err(NoRandomness);
      }
      var ok := tokens.Set(VerifyKey(token.value), id, VERIFY_TTL, now);
      result := if ok then Ok(Unit) else Err(Unavailable);
    }

    method VerifyEmail(token: string, now: Time) returns (result: Result<Unit, Error>)
      modifies users, tokens
      ensures EmailVerified(old(State()), token, now) == Outcome(State(), result)
    {
      var holder := tokens.Get(VerifyKey(token), now);
      if holder.None? {
        return Err(UnverifiedEmail);
      }
      var user, error := users.FindByID(holder.value);
      if user == null {
        return Err(error);
      }
      if user.verifiedAt.Some? {
        var _ := tokens.Delete(VerifyKey(token));
        return Ok(Unit);
      }
      user.MarkEmailVerified(now);
      var saved := users.Update(user, now);
      if !saved {
        return Err(Unavailable);
      }
      var ok := tokens.Delete(VerifyKey(token));
      result := if ok then Ok(Unit) else Err(Unavailable);
    }

    method LoginUser(email: string, password: string, signed: bool, minted: Option<string>, now: Time)
      returns (result: Result<Pair, Error>)
      requires UniqueEmails(users.users)
      modifies users, tokens
      ensures LoggedIn(old(State()), tokens.hash, email, password, signed, minted, now) == Outcome(State(), result)
    {
      var user := users.FindByEmail(email);
      if user == null {
        return Err(WrongPassword);
      }
      if !user.active {
        return Err(UserBanned);
      }
      if user.passwordHash.plain != password {
        return Err(WrongPassword);
      }
      if !signed {
        return Err(SigningFailed);
      }
      if minted.None? {
        return Err(NoRandomness);
      }
      var ok := tokens.Set(RefreshKey(tokens.hash, minted.value), user.id, REFRESH_TTL, now);
      result := if ok then Ok(Pair(user.id, user.role, minted.value)) else Err(Unavailable);
    }

    method RefreshToken(token: string, signed: bool, minted: Option<string>, now: Time)
      returns (result: Result<Pair, Error>)
      modifies users, tokens
      ensures Refreshed(old(State()), tokens.hash, token, signed, minted, now) == Outcome(State(), result)
    {
      var holder := tokens.Get(RefreshKey(tokens.hash, token), now);
      if holder.None? {
        return Err(WrongPassword);
      }
      var user, error := users.FindByID(holder.value);
      if user == null {
        return Err(error);
      }
      if !signed {
        return Err(SigningFailed);
      }
      if minted.None? {
        return Err(NoRandomness);
      }
      var ok := tokens.Set(RefreshKey(tokens.hash, minted.value), user.id, REFRESH_TTL, now);
      if !ok {
        return Err(Unavailable);
      }
      var _ := tokens.Delete(RefreshKey(tokens.hash, token));
      result := Ok(Pair(user.id, user.role, minted.value));
    }

    method LogoutUser(token: string) returns (result: Result<Unit, Error>)
      modifies tokens
      ensures LoggedOut(old(State()), tokens.hash, token) == Outcome(State(), result)
    {
      var ok := tokens.Delete(RefreshKey(tokens.hash, token));
      result := if ok then Ok(Unit) else Err(Unavailable);
    }

    method ForgotPassword(email: string, token: Option<string>, now: Time) returns (result: Result<Unit, Error>)
      requires UniqueEmails(users.users)
      modifies users, tokens
      ensures ResetRequested(old(State()), email, token, now) == Outcome(State(), result)
    {
      var user := users.FindByEmail(email);
      if user == null {
        return Ok(Unit);
      }
      if token.None? {
        return Err(NoRandomness);
      }
      var ok := tokens.Set(ResetKey(token.value), user.id, RESET_TTL, now);
      result := if ok then Ok(Unit) else Err(Unavailable);
    }

    method ResetPassword(token: string, password: string, confirmation: string, salt: Option<nat>, now: Time)
      returns (result: Result<Unit, Error>)
      modifies users, tokens
      ensures PasswordReset(old(State()), token, password, confirmation, salt, now) == Outcome(State(), result)
    {
      if password != confirmation {
        return Err(PasswordMismatch);
      }
      if |password| < MIN_PASSWORD_LENGTH {
        return Err(PasswordTooShort);
      }
      var holder := tokens.Get(ResetKey(token), now);
      if holder.None? {
        return Err(UnverifiedEmail);
      }
      var user, error := users.FindByID(holder.value);
      if user == null {
        return Err(error);
      }
      if salt.None? {
        return Err(HashingFailed);
      }
      user.SetPasswordHash(Hash(password, salt.value), now);
      var saved := users.Update(user, now);
      if !saved {
        return Err(Unavailable);
      }
      var ok := tokens.Delete(ResetKey(token));
      result := if ok then Ok(Unit) else Err(Unavailable);
    }

    method UpdateProfile(id: Option<Id>, name: string, now: Time) returns (result: Result<Unit, Error>)
      modifies users
      ensures ProfileUpdated(old(State()), id, name, now) == Outcome(State(), result)
    {
      if name == "" {
        return Err(EmptyName);
      }
      if id.None? {
        return Err(UserNotFound);
      }
      var user, error := users.FindByID(id.value);
      if user == null {
        return Err(error);
      }
      user.name, user.updatedAt := name, now;
      var ok := users.Update(user, now);
      result := if ok then Ok(Unit) else Err(Unavailable);
    }

    method ChangePassword(id: Option<Id>, current: string, password: string, salt: Option<nat>, now: Time)
      returns (result: Result<Unit, Error>)
      modifies users
      ensures PasswordChanged(old(State()), id, current, password, salt, now) == Outcome(State(), result)
    {
      if id.None? {
        return Err(UserNotFound);
      }
      var user, error := users.FindByID(id.value);
      if user == null {
        return Err(error);
      }
      if user.passwordHash.plain != current {
        return Err(WrongPassword);
      }
      if |password| < MIN_PASSWORD_LENGTH {
        return Err(PasswordTooShort);
      }
      if salt.None? {
        return Err(HashingFailed);
      }
      user.SetPasswordHash(Hash(password, salt.value), now);
      var ok := users.Update(user, now);
      result := if ok then Ok(Unit) else Err(Unavailable);
    }
  }
}
