/**
 * What the commands on accounts do, over any links: exactly when they succeed, and exactly what they leave in the two
 * stores whether they do or not.
 */
module AccountEffects {
  import opened Common
  import opened Identity
  import M = Moderation

  /** The account has the address. */
  predicate HasAddress(users: Table, id: Id, email: string)
  {
    id in users && users[id].email == email
  }

  /** The first call to the token store finds the key alive, and the first to the accounts finds its user. */
  predicate LoadsHolder(w: World, key: string, now: Time)
  {
    Call(w.rlink).ok && key in w.redis && now < w.redis[key].expires && Call(w.ulink).ok
      && w.redis[key].user in w.users
  }

  // ---- logging in and staying logged in ----

  /** The account may log in: it is active and the password is its own. */
  predicate MayLogIn(u: UserRow, password: string) { u.active && u.passwordHash.plain == password }

  /**
   * A login succeeds exactly when its calls go well, an active account has the address and the password, and signing
   * and minting succeed. The pair names the account and its stored role, and one new refresh token is live for a week.
   * A login that is refused stores nothing, and none changes an account.
   */
  lemma LoginExactly(w: World, hash: string -> string, email: string, password: string, signed: bool,
                     minted: Option<string>, now: Time, id: Id)
    requires UniqueEmails(w.users) && HasAddress(w.users, id, email)
    ensures var o := LoggedIn(w, hash, email, password, signed, minted, now);
      var may := Call(w.ulink).ok && MayLogIn(w.users[id], password) && signed && minted.Some?;
      && (o.result.Ok? <==> may && Call(w.rlink).ok)
      && (o.result == Err(UserBanned) <==> Call(w.ulink).ok && !w.users[id].active)
      && (o.result.Ok? ==>
            o.result.value == Pair(id, w.users[id].role, minted.value)
            && Live(o.w.redis, RefreshKey(hash, minted.value), now))
      && o.w.redis == (if may && Call(w.rlink).applied
                         then w.redis[RefreshKey(hash, minted.value) := Entry(id, now + 604800)] else w.redis)
      && o.w.users == w.users
  {
  }

  /** An address nobody has looks like a wrong password. */
  lemma UnknownLogin(w: World, hash: string -> string, email: string, password: string, signed: bool,
                     minted: Option<string>, now: Time)
    requires forall id :: !HasAddress(w.users, id, email)
    ensures var o := LoggedIn(w, hash, email, password, signed, minted, now);
      o.result == Err(WrongPassword) && o.w.users == w.users && o.w.redis == w.redis
  {
    if FindByEmail(w.users, email).Some? {
      assert HasAddress(w.users, FindByEmail(w.users, email).value, email);
    }
  }

  /**
   * A refresh succeeds exactly for a live token whose account is there, banned or not; the pair names the account and
   * its stored role as it is now, the new token lives for a week, and the old one is gone if its deletion takes effect.
   */
  lemma RefreshExactly(w: World, hash: string -> string, token: string, signed: bool, minted: Option<string>,
                       now: Time)
    ensures var o, key, put := Refreshed(w, hash, token, signed, minted, now), RefreshKey(hash, token),
        Call(Call(w.rlink).link);
      var can := LoadsHolder(w, key, now) && signed && minted.Some?;
      && (o.result.Ok? <==> can && put.ok)
      && (o.result == Err(WrongPassword) <==> !Call(w.rlink).ok || !(key in w.redis && now < w.redis[key].expires))
      && (can && put.ok ==>
            o.result.value == Pair(w.redis[key].user, w.users[w.redis[key].user].role, minted.value))
      && (if !can || !put.applied then o.w.redis == w.redis
          else
            var both := w.redis[RefreshKey(hash, minted.value) := Entry(w.redis[key].user, now + 604800)];
            o.w.redis == if put.ok && Call(put.link).applied then both - {key} else both)
      && o.w.users == w.users
  {
  }

  lemma LogoutExactly(w: World, hash: string -> string, token: string)
    ensures var o := LoggedOut(w, hash, token);
      && (o.result.Ok? <==> Call(w.rlink).ok) && o.w.users == w.users
      && o.w.redis == if Call(w.rlink).applied then w.redis - {RefreshKey(hash, token)} else w.redis
  {
  }

  // ---- registering and verifying ----

  /** What a registration has to bring. */
  predicate Registrable(name: string, email: string, isEmail: string -> bool, password: string, confirmation: string,
                        salt: Option<nat>)
  {
    name != "" && isEmail(email) && |password| >= 8 && password == confirmation && salt.Some?
  }

  ghost predicate AddressIsFree(users: Table, email: string)
  {
    forall id | id in users :: users[id].email != email
  }

  /**
   * A registration stores an active, unverified member with a free address and a password of at least eight bytes, and
   * a verification token for a day.
   */
  lemma RegisterExactly(w: World, id: Id, name: string, email: string, isEmail: string -> bool, password: string,
                        confirmation: string, salt: Option<nat>, token: Option<string>, now: Time)
    requires id !in w.users
    ensures var user := NewUser(name, email, isEmail, password, salt, now);
      var o, insert := Registered(w, id, user, password == confirmation, token, now), Call(w.ulink);
      var can := Registrable(name, email, isEmail, password, confirmation, salt) && AddressIsFree(w.users, email);
      && (o.result.Ok? <==> can && insert.ok && token.Some? && Call(w.rlink).ok)
      && (o.result == Err(PasswordMismatch) <==> password != confirmation)
      && (o.result == Err(EmailConflict) <==>
          Registrable(name, email, isEmail, password, confirmation, salt) && insert.ok
          && !AddressIsFree(w.users, email))
      && o.w.users == (if can && insert.applied
                         then w.users[id := UserRow(name, email, Hash(password, salt.value), Member, true, None, now,
                                                    now)]
                       else w.users)
      && o.w.redis == (if can && insert.ok && token.Some? && Call(w.rlink).applied
                         then w.redis["verify:" + token.value := Entry(id, now + 86400)] else w.redis)
  {
    assert EmailTaken(w.users, email) <==> !AddressIsFree(w.users, email);
  }

  /** What is wrong with a registration is told in this order. */
  lemma RegisterRefusedIff(name: string, email: string, isEmail: string -> bool, password: string, salt: Option<nat>,
                           now: Time)
    ensures var r := NewUser(name, email, isEmail, password, salt, now);
      && (r == Err(EmptyName) <==> name == "")
      && (r == Err(InvalidEmail) <==> name != "" && !isEmail(email))
      && (r == Err(PasswordTooShort) <==> name != "" && isEmail(email) && |password| < 8)
  {
  }

  /**
   * A live verification token verifies its account once, at the time it is used, and is deleted; for an account
   * verified before only the deletion is left, and its failure is ignored.
   */
  lemma VerifyExactly(w: World, token: string, now: Time)
    ensures var o, key, save := EmailVerified(w, token, now), "verify:" + token, Call(Call(w.ulink).link);
      var del, loads := Call(Call(w.rlink).link), LoadsHolder(w, key, now);
      var first := loads && w.users[w.redis[key].user].verifiedAt == None;
      && (o.result.Ok? <==> loads && (first ==> save.ok && del.ok))
      && (o.result == Err(UnverifiedEmail) <==> !Call(w.rlink).ok || !(key in w.redis && now < w.redis[key].expires))
      && (if first && save.applied then
            var u := w.redis[key].user;
            o.w.users == w.users[u := w.users[u].(verifiedAt := Some(now), updatedAt := now)]
          else o.w.users == w.users)
      && o.w.redis == if loads && (first ==> save.ok) && del.applied then w.redis - {key} else w.redis
  {
  }

  // ---- passwords and names ----

  /** A known address gets a reset token for an hour; nothing tells an unknown one apart. */
  lemma ForgotExactly(w: World, email: string, token: Option<string>, now: Time, id: Id)
    requires UniqueEmails(w.users) && HasAddress(w.users, id, email)
    ensures var o := ResetRequested(w, email, token, now);
      && (o.result.Ok? <==> !Call(w.ulink).ok || (token.Some? && Call(w.rlink).ok))
      && o.w.redis == (if Call(w.ulink).ok && token.Some? && Call(w.rlink).applied
                         then w.redis["reset:" + token.value := Entry(id, now + 3600)] else w.redis)
      && o.w.users == w.users
  {
  }

  lemma UnknownForgot(w: World, email: string, token: Option<string>, now: Time)
    requires forall id :: !HasAddress(w.users, id, email)
    ensures var o := ResetRequested(w, email, token, now);
      o.result == Ok(Unit) && o.w.users == w.users && o.w.redis == w.redis
  {
    if FindByEmail(w.users, email).Some? {
      assert HasAddress(w.users, FindByEmail(w.users, email).value, email);
    }
  }

  /** A live reset token changes its account's password, if the new one is confirmed and long enough, and is deleted. */
  lemma ResetExactly(w: World, token: string, password: string, confirmation: string, salt: Option<nat>, now: Time)
    ensures var o, key, save := PasswordReset(w, token, password, confirmation, salt, now), "reset:" + token,
        Call(Call(w.ulink).link);
      var can := password == confirmation && |password| >= 8 && LoadsHolder(w, key, now) && salt.Some?;
      var del := Call(Call(w.rlink).link);
      && (o.result.Ok? <==> can && save.ok && del.ok)
      && (o.result == Err(PasswordMismatch) <==> password != confirmation)
      && (o.result == Err(PasswordTooShort) <==> password == confirmation && |password| < 8)
      && (if can && save.applied then
            var u := w.redis[key].user;
            o.w.users == w.users[u := w.users[u].(passwordHash := Hash(password, salt.value), updatedAt := now)]
          else o.w.users == w.users)
      && o.w.redis == if can && save.ok && del.applied then w.redis - {key} else w.redis
  {
  }

  /** A stored account, loaded over the first call, is written over the second. */
  predicate LoadsAccount(w: World, id: Option<Id>) { id.Some? && Call(w.ulink).ok && id.value in w.users }

  lemma ProfileExactly(w: World, id: Option<Id>, name: string, now: Time)
    ensures var o, save := ProfileUpdated(w, id, name, now), Call(Call(w.ulink).link);
      var can := name != "" && LoadsAccount(w, id);
      && (o.result.Ok? <==> can && save.ok) && (o.result == Err(EmptyName) <==> name == "")
      && (if can && save.applied then
            o.w.users == w.users[id.value := w.users[id.value].(name := name, updatedAt := now)]
          else o.w.users == w.users)
      && o.w.redis == w.redis
  {
  }

  /** A change of password needs the current one, and a new one that is long enough. */
  lemma ChangeExactly(w: World, id: Option<Id>, current: string, password: string, salt: Option<nat>, now: Time)
    ensures var o, save := PasswordChanged(w, id, current, password, salt, now), Call(Call(w.ulink).link);
      var knows := LoadsAccount(w, id) && w.users[id.value].passwordHash.plain == current;
      var can := knows && |password| >= 8 && salt.Some?;
      && (o.result.Ok? <==> can && save.ok)
      && (o.result == Err(WrongPassword) <==> LoadsAccount(w, id) && !knows)
      && (o.result == Err(PasswordTooShort) <==> knows && |password| < 8)
      && (if can && save.applied then
            o.w.users
            == w.users[id.value := w.users[id.value].(passwordHash := Hash(password, salt.value), updatedAt := now)]
          else o.w.users == w.users)
      && o.w.redis == w.redis
  {
  }

  // ---- moderation of accounts ----

  /** The account as changed if its write takes effect, and the entry if that comes to be logged; nothing else. */
  ghost predicate Leaves(w: M.World, o: M.Outcome, can: bool, target: Id, changed: UserRow, entry: M.AuditEntry)
  {
    var save := Call(Call(w.ulink).link);
    && (o.error.None? <==> can && save.ok && Call(w.alink).ok)
    && o.w.users == (if can && save.applied then w.users[target := changed] else w.users)
    && o.w.log == (if can && save.ok && Call(w.alink).applied then w.log + [entry] else w.log)
    && o.w.contributions == w.contributions && o.w.d == w.d
  }

  predicate LoadsTarget(w: M.World, target: Id) { Call(w.ulink).ok && target in w.users }

  /** A ban makes anyone but an admin inactive. */
  lemma BannedExactly(w: M.World, admin: Id, target: Id, reason: string, now: Time)
    ensures var o := M.UserBanned(w, admin, target, reason, now);
      && (o.error == Some(M.UserNotFound) <==> !LoadsTarget(w, target))
      && (o.error == Some(M.CannotBanAdmin) <==> LoadsTarget(w, target) && w.users[target].role == Admin)
      && (target in w.users ==>
            Leaves(w, o, LoadsTarget(w, target) && w.users[target].role == Member, target,
                   w.users[target].(active := false, updatedAt := now),
                   M.AuditEntry(admin, M.BanUser(reason), target)))
      && (target !in w.users ==> o.w.users == w.users && o.w.log == w.log)
  {
  }

  lemma UnbannedExactly(w: M.World, admin: Id, target: Id, now: Time)
    ensures var o := M.UserUnbanned(w, admin, target, now);
      && (o.error == Some(M.UserNotFound) <==> !LoadsTarget(w, target))
      && (target in w.users ==>
            Leaves(w, o, LoadsTarget(w, target), target, w.users[target].(active := true, updatedAt := now),
                   M.AuditEntry(admin, M.UnbanUser, target)))
      && (target !in w.users ==> o.w.users == w.users && o.w.log == w.log)
  {
  }

  /** A role change takes one of two roles, and nobody changes their own. */
  lemma RoleChangedExactly(w: M.World, admin: Id, target: Id, role: string, now: Time)
    ensures var o, r := M.UserRoleChanged(w, admin, target, role, now), if role == "admin" then Admin else Member;
      && (o.error == Some(M.InvalidRole) <==> role != "admin" && role != "user")
      && (o.error == Some(M.CannotSelfDemote) <==> role in {"admin", "user"} && admin == target)
      && (target in w.users ==>
            Leaves(w, o, LoadsTarget(w, target) && role in {"admin", "user"} && admin != target, target,
                   w.users[target].(role := r, updatedAt := now), M.AuditEntry(admin, M.ChangeRole(r), target)))
      && (target !in w.users ==> o.w.users == w.users && o.w.log == w.log)
  {
  }
}
