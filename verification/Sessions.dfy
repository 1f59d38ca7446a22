/** Serial runs of the identity commands, with any calls failing: what becomes of the tokens they hand out. */
module Sessions {
  import opened Common
  import opened Identity

  datatype Env = Env(hash: string -> string, isEmail: string -> bool)

  datatype Command =
    | Register(id: Id, name: string, email: string, password: string, confirmation: string, salt: Option<nat>,
               minted: Option<string>)
    | Verify(token: string)
    | Login(email: string, password: string, signed: bool, minted: Option<string>)
    | Refresh(token: string, signed: bool, minted: Option<string>)
    | Logout(token: string)
    | Forgot(email: string, minted: Option<string>)
    | Reset(token: string, password: string, confirmation: string, salt: Option<nat>)
    | Profile(who: Option<Id>, name: string)
    | ChangePassword(who: Option<Id>, current: string, password: string, salt: Option<nat>)

  /** A command as issued: when, and what its calls will meet. */
  datatype Issue = Issue(command: Command, now: Time, users: Link, redis: Link)

  /**
   * The tables, and a record kept beside them: every key ever set, whose login stored a token and, for each refresh
   * key, the login it descends from.
   */
  datatype State = State(users: Table, redis: Redis, issued: set<string>, logins: seq<Id>, lineage: map<string, nat>)

  function WorldOf(s: State, i: Issue): World
  {
    World(s.users, i.users, s.redis, i.redis)
  }

  ghost function After(env: Env, w: World, c: Command, now: Time): World
  {
    match c
    case Register(id, name, email, password, confirmation, salt, token) =>
      Registered(w, id, NewUser(name, email, env.isEmail, password, salt, now), password == confirmation, token, now).w
    case Verify(token) => EmailVerified(w, token, now).w
    case Login(email, password, signed, minted) => LoggedIn(w, env.hash, email, password, signed, minted, now).w
    case Refresh(token, signed, minted) => Refreshed(w, env.hash, token, signed, minted, now).w
    case Logout(token) => LoggedOut(w, env.hash, token).w
    case Forgot(email, token) => ResetRequested(w, email, token, now).w
    case Reset(token, password, confirmation, salt) => PasswordReset(w, token, password, confirmation, salt, now).w
    case Profile(id, name) => ProfileUpdated(w, id, name, now).w
    case ChangePassword(id, current, password, salt) => PasswordChanged(w, id, current, password, salt, now).w
  }

  /** The key a command would set. */
  function NewKey(env: Env, c: Command): Option<string>
  {
    match c
    case Register(_, _, _, _, _, _, token) => if token.Some? then Some(VerifyKey(token.value)) else None
    case Login(_, _, _, minted) => if minted.Some? then Some(RefreshKey(env.hash, minted.value)) else None
    case Refresh(_, _, minted) => if minted.Some? then Some(RefreshKey(env.hash, minted.value)) else None
    case Forgot(_, token) => if token.Some? then Some(ResetKey(token.value)) else None
    case _ => None
  }

  /** A token that was stored enters the record, whatever the command was told. */
  ghost function Step(env: Env, s: State, i: Issue): State
  {
    var w' := After(env, WorldOf(s, i), i.command, i.now);
    var s' := s.(users := w'.users, redis := w'.redis, issued := s.issued + w'.redis.Keys);
    var key := NewKey(env, i.command);
    if key.None? || key.value !in w'.redis then s'
    else
      match i.command
      case Login(_, _, _, _) =>
        s'.(logins := s.logins + [w'.redis[key.value].user], lineage := s.lineage[key.value := |s.logins|])
      case Refresh(token, _, _) =>
        var spent := RefreshKey(env.hash, token);
        if spent !in s.lineage then s' else s'.(lineage := s.lineage[key.value := s.lineage[spent]])
      case _ => s'
  }

  /** New tokens and new user ids are ones never seen before. */
  predicate Fresh(env: Env, s: State, c: Command)
  {
    && (NewKey(env, c).Some? ==> NewKey(env, c).value !in s.issued)
    && (c.Register? ==> c.id !in s.users)
  }

  /**
   * With a hash that does not collide, a new token means a new key: tokens differ, keys differ, and the namespaces
   * are apart.
   */
  lemma KeysAreApart(hash: string -> string, a: string, b: string)
    requires forall x, y :: hash(x) == hash(y) ==> x == y
    ensures RefreshKey(hash, a) == RefreshKey(hash, b) <==> a == b
    ensures VerifyKey(a) == VerifyKey(b) <==> a == b
    ensures ResetKey(a) == ResetKey(b) <==> a == b
    ensures RefreshKey(hash, a) != VerifyKey(b) && RefreshKey(hash, a) != ResetKey(b) && VerifyKey(a) != ResetKey(b)
  {
    SuffixEqual("refresh:", hash(a), hash(b));
    SuffixEqual("verify:", a, b);
    SuffixEqual("reset:", a, b);
    assert RefreshKey(hash, a)[2] == 'f' && ResetKey(b)[2] == 's' && VerifyKey(b)[2] == 'r' && VerifyKey(a)[2] == 'r';
  }

  lemma SuffixEqual(p: string, a: string, b: string)
    ensures p + a == p + b <==> a == b
  {
    assert (p + a)[|p|..] == a && (p + b)[|p|..] == b;
  }

  type Trace = seq<Issue>

  ghost function Run(env: Env, s: State, trace: Trace): State
    decreases |trace|
  {
    if trace == [] then s else Run(env, Step(env, s, trace[0]), trace[1..])
  }

  /** Time does not run back, and new tokens are new. */
  ghost predicate Proper(env: Env, s: State, trace: Trace, since: Time)
    decreases |trace|
  {
    if trace == [] then true
    else
      && since <= trace[0].now && Fresh(env, s, trace[0].command)
      && Proper(env, Step(env, s, trace[0]), trace[1..], trace[0].now)
  }

  // ---- lineage ----

  predicate IsRefreshKey(key: string) { |key| > 2 && key[2] == 'f' }

  /** Every stored refresh token descends from a login and names its user. */
  ghost predicate Lineage(s: State)
  {
    && s.redis.Keys <= s.issued && s.lineage.Keys <= s.issued
    && (forall k | k in s.lineage :: s.lineage[k] < |s.logins|)
    && (forall k | k in s.redis && IsRefreshKey(k) :: k in s.lineage && s.redis[k].user == s.logins[s.lineage[k]])
  }

  /** All a command stores under a new key: at most one entry, and no other is added or changed. */
  ghost predicate OnlyAdds(redis: Redis, redis': Redis, key: Option<string>)
  {
    forall k | k in redis' :: if key == Some(k) then true else k in redis && redis'[k] == redis[k]
  }

  lemma TokensOnlyAdd(env: Env, w: World, c: Command, now: Time)
    requires c.Login? || c.Refresh? || c.Logout?
    ensures OnlyAdds(w.redis, After(env, w, c, now).redis, NewKey(env, c))
  {
    hide Registered, EmailVerified, ResetRequested, PasswordReset, ProfileUpdated, PasswordChanged;
  }

  lemma AccountsOnlyAdd(env: Env, w: World, c: Command, now: Time)
    requires !(c.Login? || c.Refresh? || c.Logout?)
    ensures OnlyAdds(w.redis, After(env, w, c, now).redis, NewKey(env, c))
  {
    hide LoggedIn, Refreshed, LoggedOut;
  }

  lemma StepOnlyAdds(env: Env, s: State, i: Issue)
    ensures OnlyAdds(s.redis, Step(env, s, i).redis, NewKey(env, i.command))
  {
    hide After, NewKey;
    var c := i.command;
    if c.Login? || c.Refresh? || c.Logout? {
      TokensOnlyAdd(env, WorldOf(s, i), c, i.now);
    } else {
      AccountsOnlyAdd(env, WorldOf(s, i), c, i.now);
    }
  }

  lemma OtherKeepsLineage(s: State, s': State, key: Option<string>)
    requires Lineage(s) && OnlyAdds(s.redis, s'.redis, key)
    requires key.Some? ==> key.value !in s.issued && !IsRefreshKey(key.value)
    requires s' == s.(users := s'.users, redis := s'.redis, issued := s.issued + s'.redis.Keys)
    ensures Lineage(s')
  {
  }

  /** What a login does to the token store: nothing, or it adds the token. */
  lemma LoginShape(env: Env, w: World, c: Command, now: Time)
    requires c.Login?
    ensures var redis, key := After(env, w, c, now).redis, NewKey(env, c);
      redis == w.redis
      || (key.Some? && key.value in redis && redis == w.redis[key.value := redis[key.value]])
  {
  }

  /**
   * The refresh stores its new token, and the old one stays: the new one's write is reported to have failed, or the
   * revocation fails.
   */
  predicate KeepsBoth(env: Env, s: State, i: Issue)
  {
    i.command.Refresh? && StoresNew(env, s, i)
    && var put := Call(Call(i.redis).link);
      !(put.ok && Call(put.link).applied)
  }

  /** The refresh finds its token and its user, and its new token's write takes effect. */
  predicate StoresNew(env: Env, s: State, i: Issue)
    requires i.command.Refresh?
  {
    var key, get := RefreshKey(env.hash, i.command.token), Call(i.redis);
    && get.ok && Live(s.redis, key, i.now) && Call(i.users).ok && s.redis[key].user in s.users
    && i.command.signed && i.command.minted.Some? && Call(get.link).applied
  }

  lemma RefreshShape(env: Env, s: State, i: Issue)
    requires i.command.Refresh?
    ensures var key, redis := RefreshKey(env.hash, i.command.token), After(env, WorldOf(s, i), i.command, i.now).redis;
      if !StoresNew(env, s, i) then redis == s.redis
      else
        var both := s.redis[RefreshKey(env.hash, i.command.minted.value)
          := Entry(s.redis[key].user, i.now + REFRESH_TTL)];
        redis == if KeepsBoth(env, s, i) then both else both - {key}
  {
  }

  /** A refresh leaves two live tokens exactly then, and they are of one login. */
  lemma RefreshLeavesBothIff(env: Env, s: State, i: Issue)
    requires Lineage(s) && Fresh(env, s, i.command) && i.command.Refresh? && i.command.minted.Some?
    ensures var s' := Step(env, s, i);
      var was, added := RefreshKey(env.hash, i.command.token), RefreshKey(env.hash, i.command.minted.value);
      && (Live(s'.redis, was, i.now) && Live(s'.redis, added, i.now) <==> KeepsBoth(env, s, i))
      && (KeepsBoth(env, s, i) ==> was != added && s'.lineage[was] == s'.lineage[added])
  {
    hide After;
    RefreshShape(env, s, i);
    assert IsRefreshKey(RefreshKey(env.hash, i.command.token));
  }

  lemma AddedTokenKeepsLineage(s: State, key: string, entry: Entry, logins: seq<Id>, n: nat)
    requires Lineage(s) && key !in s.issued && s.logins <= logins && n < |logins| && logins[n] == entry.user
    ensures var redis := s.redis[key := entry];
      Lineage(State(s.users, redis, s.issued + redis.Keys, logins, s.lineage[key := n]))
  {
  }

  lemma LoginKeepsLineage(env: Env, s: State, i: Issue)
    requires Lineage(s) && Fresh(env, s, i.command) && i.command.Login?
    ensures Lineage(Step(env, s, i))
  {
    hide After;
    LoginShape(env, WorldOf(s, i), i.command, i.now);
    var s', key := Step(env, s, i), NewKey(env, i.command);
    if key.Some? && key.value in s'.redis {
      AddedTokenKeepsLineage(s, key.value, s'.redis[key.value], s'.logins, |s.logins|);
    }
  }

  lemma RefreshKeepsLineage(env: Env, s: State, i: Issue)
    requires Lineage(s) && Fresh(env, s, i.command) && i.command.Refresh?
    ensures Lineage(Step(env, s, i))
  {
    hide After;
    RefreshShape(env, s, i);
    var key := RefreshKey(env.hash, i.command.token);
    assert IsRefreshKey(key);
    if StoresNew(env, s, i) {
      var added := RefreshKey(env.hash, i.command.minted.value);
      AddedTokenKeepsLineage(s, added, Entry(s.redis[key].user, i.now + REFRESH_TTL), s.logins, s.lineage[key]);
    }
  }

  lemma StepKeepsLineage(env: Env, s: State, i: Issue)
    requires Lineage(s) && Fresh(env, s, i.command)
    ensures Lineage(Step(env, s, i))
  {
    hide After;
    if i.command.Login? {
      LoginKeepsLineage(env, s, i);
    } else if i.command.Refresh? {
      RefreshKeepsLineage(env, s, i);
    } else {
      StepOnlyAdds(env, s, i);
      OtherKeepsLineage(s, Step(env, s, i), NewKey(env, i.command));
    }
  }

  lemma {:induction false} RunKeepsLineage(env: Env, s: State, trace: Trace, since: Time)
    requires Lineage(s) && Proper(env, s, trace, since)
    ensures Lineage(Run(env, s, trace))
    decreases |trace|
  {
    if trace != [] {
      StepKeepsLineage(env, s, trace[0]);
      RunKeepsLineage(env, Step(env, s, trace[0]), trace[1..], trace[0].now);
    }
  }

  // ---- how many tokens a login has ----

  /** The stored tokens that descend from one login. */
  ghost function Tokens(s: State, n: nat): set<string>
  {
    set k | k in s.redis && k in s.lineage && s.lineage[k] == n
  }

  /** Those of them that would be accepted. */
  ghost function LiveTokens(s: State, n: nat, now: Time): set<string>
  {
    set k | k in s.redis && Live(s.redis, k, now) && IsRefreshKey(k) && k in s.lineage && s.lineage[k] == n
  }

  /** How many tokens a login has, and one for a login still to come. */
  ghost function Share(s: State, n: nat): nat
  {
    if n < |s.logins| then |Tokens(s, n)| else 1
  }

  /** A refresh loses the revocation of a token of this login. */
  predicate LosesRevocation(env: Env, s: State, i: Issue, n: nat)
  {
    KeepsBoth(env, s, i)
    && var key := RefreshKey(env.hash, i.command.token);
      key in s.lineage && s.lineage[key] == n
  }

  ghost function LostRevocations(env: Env, s: State, trace: Trace, n: nat): nat
    decreases |trace|
  {
    if trace == [] then 0
    else CountIf(LosesRevocation(env, s, trace[0], n)) + LostRevocations(env, Step(env, s, trace[0]), trace[1..], n)
  }

  lemma Fewer<T>(a: set<T>, b: set<T>)
    requires a <= b
    ensures |a| <= |b|
  {
    assert b == a + (b - a);
  }

  lemma LoginShares(env: Env, s: State, i: Issue, n: nat)
    requires Lineage(s) && Fresh(env, s, i.command) && i.command.Login?
    ensures Share(Step(env, s, i), n) <= Share(s, n)
  {
    hide After;
    LoginShape(env, WorldOf(s, i), i.command, i.now);
    var s', key := Step(env, s, i), NewKey(env, i.command);
    if key.Some? && key.value in s'.redis {
      if n == |s.logins| {
        assert Tokens(s', n) == {key.value};
      } else {
        assert Tokens(s', n) == Tokens(s, n);
      }
    } else {
      assert Tokens(s', n) == Tokens(s, n);
    }
  }

  lemma TokenAdded(s: State, s': State, added: string, m: nat, n: nat)
    requires Lineage(s) && added !in s.redis && added in s'.redis && s'.redis.Keys == s.redis.Keys + {added}
    requires s'.lineage == s.lineage[added := m]
    ensures |Tokens(s', n)| == |Tokens(s, n)| + CountIf(m == n)
  {
    assert Tokens(s', n) == if m == n then Tokens(s, n) + {added} else Tokens(s, n);
  }

  lemma TokenReplaced(s: State, s': State, added: string, key: string, n: nat)
    requires Lineage(s) && added !in s.redis && key in s.redis && key in s.lineage
    requires s'.redis.Keys == s.redis.Keys + {added} - {key} && s'.lineage == s.lineage[added := s.lineage[key]]
    ensures |Tokens(s', n)| == |Tokens(s, n)|
  {
    if s.lineage[key] == n {
      assert Tokens(s', n) == Tokens(s, n) + {added} - {key};
      assert key in Tokens(s, n);
    } else {
      assert Tokens(s', n) == Tokens(s, n);
    }
  }

  lemma RefreshShares(env: Env, s: State, i: Issue, n: nat)
    requires Lineage(s) && Fresh(env, s, i.command) && i.command.Refresh?
    ensures Share(Step(env, s, i), n) == Share(s, n) + CountIf(LosesRevocation(env, s, i, n))
  {
    hide After;
    RefreshShape(env, s, i);
    var s', key := Step(env, s, i), RefreshKey(env.hash, i.command.token);
    assert IsRefreshKey(key);
    if StoresNew(env, s, i) {
      var added := RefreshKey(env.hash, i.command.minted.value);
      if KeepsBoth(env, s, i) {
        TokenAdded(s, s', added, s.lineage[key], n);
      } else {
        TokenReplaced(s, s', added, key, n);
      }
    } else {
      assert s'.redis == s.redis && Tokens(s', n) == Tokens(s, n);
    }
  }

  lemma OtherShares(env: Env, s: State, i: Issue, n: nat)
    requires Lineage(s) && Fresh(env, s, i.command) && !i.command.Login? && !i.command.Refresh?
    ensures Share(Step(env, s, i), n) <= Share(s, n)
  {
    hide After;
    StepOnlyAdds(env, s, i);
    Fewer(Tokens(Step(env, s, i), n), Tokens(s, n));
  }

  lemma {:induction false} RunShares(env: Env, s: State, trace: Trace, since: Time, n: nat)
    requires Lineage(s) && Proper(env, s, trace, since)
    ensures Share(Run(env, s, trace), n) <= Share(s, n) + LostRevocations(env, s, trace, n)
    decreases |trace|
  {
    hide Lineage, Share, Step, Fresh, LosesRevocation;
    if trace != [] {
      var i := trace[0];
      StepKeepsLineage(env, s, i);
      if i.command.Login? {
        LoginShares(env, s, i, n);
      } else if i.command.Refresh? {
        RefreshShares(env, s, i, n);
      } else {
        OtherShares(env, s, i, n);
      }
      RunShares(env, Step(env, s, i), trace[1..], i.now, n);
    }
  }

  /** The key descends from a login, and names its user. */
  predicate Traced(s: State, key: string)
  {
    key in s.redis && key in s.lineage && s.lineage[key] < |s.logins| && s.redis[key].user == s.logins[s.lineage[key]]
  }

  /** As at the start, when there is no login. */
  ghost predicate OneEach(s: State)
  {
    Lineage(s) && forall n: nat | n < |s.logins| :: |Tokens(s, n)| <= 1
  }

  lemma RefreshTokensTraced(env: Env, s: State, token: string, now: Time)
    requires Lineage(s)
    ensures var key := RefreshKey(env.hash, token); Live(s.redis, key, now) ==> Traced(s, key)
  {
    assert IsRefreshKey(RefreshKey(env.hash, token));
  }

  /**
   * Whatever fails, every live refresh token descends from a login and names the user who logged in, and a login has
   * at most one live token and one more for each revocation that its refreshes have lost.
   */
  lemma LiveTokensOfLogin(env: Env, s: State, trace: Trace, since: Time, now: Time, n: nat)
    requires OneEach(s) && Proper(env, s, trace, since)
    ensures var s' := Run(env, s, trace);
      && (forall token | Live(s'.redis, RefreshKey(env.hash, token), now) :: Traced(s', RefreshKey(env.hash, token)))
      && (n < |s'.logins| ==> |LiveTokens(s', n, now)| <= 1 + LostRevocations(env, s, trace, n))
  {
    RunKeepsLineage(env, s, trace, since);
    RunShares(env, s, trace, since, n);
    var s' := Run(env, s, trace);
    Fewer(LiveTokens(s', n, now), Tokens(s', n));
    forall token | Live(s'.redis, RefreshKey(env.hash, token), now) ensures Traced(s', RefreshKey(env.hash, token)) {
      RefreshTokensTraced(env, s', token, now);
    }
  }

  /** So when no revocation of a login is lost it has at most one live token; and when no call fails none is. */
  lemma OneLiveTokenPerLogin(env: Env, s: State, trace: Trace, since: Time, now: Time, a: string, b: string)
    requires OneEach(s) && Proper(env, s, trace, since)
    ensures var s' := Run(env, s, trace);
      var k, l := RefreshKey(env.hash, a), RefreshKey(env.hash, b);
      && (Live(s'.redis, k, now) ==> Traced(s', k))
      && (Live(s'.redis, l, now) ==> Traced(s', l))
      && ((Live(s'.redis, k, now) && Live(s'.redis, l, now) && s'.lineage[k] == s'.lineage[l]
           && LostRevocations(env, s, trace, s'.lineage[k]) == 0) ==> k == l)
    ensures AllUp(trace) ==> forall n: nat :: LostRevocations(env, s, trace, n) == 0
  {
    RunKeepsLineage(env, s, trace, since);
    var s', k, l := Run(env, s, trace), RefreshKey(env.hash, a), RefreshKey(env.hash, b);
    RefreshTokensTraced(env, s', a, now);
    RefreshTokensTraced(env, s', b, now);
    if Live(s'.redis, k, now) && Live(s'.redis, l, now) && s'.lineage[k] == s'.lineage[l] && k != l {
      RunShares(env, s, trace, since, s'.lineage[k]);
      Fewer({k, l}, Tokens(s', s'.lineage[k]));
    }
    if AllUp(trace) {
      forall n: nat ensures LostRevocations(env, s, trace, n) == 0 {
        UpLosesNothing(env, s, trace, n);
      }
    }
  }

  predicate AllUp(trace: Trace)
  {
    forall i | 0 <= i < |trace| :: trace[i].users.Up? && trace[i].redis.Up?
  }

  lemma {:induction false} UpLosesNothing(env: Env, s: State, trace: Trace, n: nat)
    requires AllUp(trace)
    ensures LostRevocations(env, s, trace, n) == 0
    decreases |trace|
  {
    hide Step;
    if trace != [] {
      assert trace[0].redis.Up? && AllUp(trace[1..]);
      UpLosesNothing(env, Step(env, s, trace[0]), trace[1..], n);
    }
  }

  // ---- dead tokens stay dead ----

  function End(trace: Trace, since: Time): Time
  {
    if trace == [] then since else trace[|trace| - 1].now
  }

  /** A key that was set once and holds nothing now will never hold anything again. */
  lemma {:induction false} DeadStaysDead(env: Env, s: State, trace: Trace, since: Time, key: string, now: Time)
    requires Proper(env, s, trace, since) && End(trace, since) <= now
    requires key in s.issued && !Live(s.redis, key, since)
    ensures !Live(Run(env, s, trace).redis, key, now)
    decreases |trace|
  {
    hide After;
    if trace != [] {
      StepOnlyAdds(env, s, trace[0]);
      DeadStaysDead(env, Step(env, s, trace[0]), trace[1..], trace[0].now, key, now);
    }
  }

  /**
   * The command accepts the token of this key, and its deletion takes effect. Only a refresh and the verification of a
   * verified address can succeed without it.
   */
  ghost predicate Spends(env: Env, s: State, i: Issue, key: string)
  {
    var w, second := WorldOf(s, i), Call(Call(i.redis).link);
    match i.command
    case Refresh(token, signed, minted) =>
      key == RefreshKey(env.hash, token) && Refreshed(w, env.hash, token, signed, minted, i.now).result.Ok?
      && Call(second.link).applied
    case Logout(token) => key == RefreshKey(env.hash, token) && Call(i.redis).applied
    case Verify(token) => key == VerifyKey(token) && EmailVerified(w, token, i.now).result.Ok? && second.applied
    case Reset(token, password, confirmation, salt) =>
      key == ResetKey(token) && PasswordReset(w, token, password, confirmation, salt, i.now).result.Ok?
    case _ => false
  }

  lemma SpentIsGone(env: Env, s: State, i: Issue, key: string)
    requires Fresh(env, s, i.command) && key in s.issued && Spends(env, s, i, key)
    ensures key !in Step(env, s, i).redis
  {
  }

  /**
   * A rotated-out or logged-out refresh token, a used verification or reset token: none is accepted again, whatever
   * follows and whatever fails.
   */
  lemma SpentForGood(env: Env, s: State, i: Issue, trace: Trace, key: string, now: Time)
    requires Fresh(env, s, i.command) && key in s.issued && Spends(env, s, i, key)
    requires Proper(env, Step(env, s, i), trace, i.now) && End(trace, i.now) <= now
    ensures !Live(Run(env, Step(env, s, i), trace).redis, key, now)
  {
    hide After, Spends;
    SpentIsGone(env, s, i, key);
    DeadStaysDead(env, Step(env, s, i), trace, i.now, key, now);
  }

  /** And so is a token whose time is up. */
  lemma ExpiredForGood(env: Env, s: State, trace: Trace, since: Time, key: string, now: Time)
    requires Lineage(s) && Proper(env, s, trace, since) && End(trace, since) <= now
    requires key in s.redis && s.redis[key].expires <= since
    ensures !Live(Run(env, s, trace).redis, key, now)
  {
    DeadStaysDead(env, s, trace, since, key, now);
  }

  /** The token commands accept live tokens only, whatever the links do; over good ones they accept every live one. */
  lemma AcceptedIffLive(env: Env, w: World, token: string, signed: bool, minted: Option<string>, now: Time)
    ensures var r := Refreshed(w, env.hash, token, signed, minted, now);
      && (!Live(w.redis, RefreshKey(env.hash, token), now) ==> r.result == Err(WrongPassword) && r.w.redis == w.redis)
      && (w.ulink.Up? && w.rlink.Up? && signed && minted.Some? ==>
            (r.result.Ok? <==>
             Live(w.redis, RefreshKey(env.hash, token), now) && w.redis[RefreshKey(env.hash, token)].user in w.users))
    ensures !Live(w.redis, VerifyKey(token), now) ==> EmailVerified(w, token, now).result == Err(UnverifiedEmail)
    ensures !Live(w.redis, ResetKey(token), now) ==>
      forall password, confirmation, salt :: PasswordReset(w, token, password, confirmation, salt, now).result.Err?
  {
  }

  // ---- what else a run keeps ----

  /** Accounts stay, with their e-mail address; a new one comes from a registration whose address nobody has. */
  ghost predicate Keeps(users: Table, users': Table, id: Option<Id>)
  {
    && (forall x | x in users :: x in users' && users'[x].email == users[x].email)
    && (forall x | x in users' && x !in users :: id == Some(x) && !EmailTaken(users, users'[x].email))
  }

  lemma TokensKeep(env: Env, w: World, c: Command, now: Time)
    requires c.Login? || c.Refresh? || c.Logout? || c.Forgot?
    ensures After(env, w, c, now).users == w.users
  {
  }

  lemma VerifyKeeps(env: Env, w: World, c: Command, now: Time)
    requires c.Verify?
    ensures Keeps(w.users, After(env, w, c, now).users, None)
  {
    hide LoggedIn, Refreshed, LoggedOut, ResetRequested, Registered, ProfileUpdated, PasswordChanged, PasswordReset;
  }

  lemma ResetKeeps(env: Env, w: World, c: Command, now: Time)
    requires c.Reset?
    ensures Keeps(w.users, After(env, w, c, now).users, None)
  {
    hide LoggedIn, Refreshed, LoggedOut, ResetRequested, Registered, ProfileUpdated, PasswordChanged, EmailVerified;
  }

  lemma OwnersKeep(env: Env, w: World, c: Command, now: Time)
    requires c.Profile? || c.ChangePassword?
    ensures Keeps(w.users, After(env, w, c, now).users, None)
  {
    hide LoggedIn, Refreshed, LoggedOut, ResetRequested, Registered, EmailVerified, PasswordReset;
  }

  lemma StepKeeps(env: Env, s: State, i: Issue)
    requires Fresh(env, s, i.command)
    ensures Keeps(s.users, Step(env, s, i).users, if i.command.Register? then Some(i.command.id) else None)
  {
    hide LoggedIn, Refreshed, LoggedOut, ResetRequested, EmailVerified, PasswordReset, ProfileUpdated, PasswordChanged;
    var w, c := WorldOf(s, i), i.command;
    if c.Verify? {
      VerifyKeeps(env, w, c, i.now);
    } else if c.Reset? {
      ResetKeeps(env, w, c, i.now);
    } else if c.Profile? || c.ChangePassword? {
      OwnersKeep(env, w, c, i.now);
    } else if !c.Register? {
      TokensKeep(env, w, c, i.now);
    }
  }

  lemma KeepsUnique(users: Table, users': Table, id: Option<Id>)
    requires UniqueEmails(users) && Keeps(users, users', id)
    ensures UniqueEmails(users')
  {
  }

  /** E-mail addresses stay unique, and with them the user a login finds. */
  lemma {:induction false} EmailsStayUnique(env: Env, s: State, trace: Trace, since: Time)
    requires UniqueEmails(s.users) && Proper(env, s, trace, since)
    ensures UniqueEmails(Run(env, s, trace).users)
    decreases |trace|
  {
    hide Step;
    if trace != [] {
      var i := trace[0];
      StepKeeps(env, s, i);
      KeepsUnique(s.users, Step(env, s, i).users, if i.command.Register? then Some(i.command.id) else None);
      EmailsStayUnique(env, Step(env, s, i), trace[1..], i.now);
    }
  }

  // ---- passwords ----

  /** Whether a login is accepted, over good links. */
  ghost predicate Accepted(env: Env, users: Table, redis: Redis, email: string, password: string, token: string,
                           now: Time)
  {
    LoggedIn(World(users, Up, redis, Up), env.hash, email, password, true, Some(token), now).result.Ok?
  }

  /** The account takes exactly this password. */
  ghost predicate Takes(env: Env, users: Table, redis: Redis, email: string, password: string)
  {
    forall p, token, now :: Accepted(env, users, redis, email, p, token, now) <==> p == password
  }

  lemma TakesOwnPassword(env: Env, users: Table, redis: Redis, id: Id)
    requires UniqueEmails(users) && id in users && users[id].active
    ensures Takes(env, users, redis, users[id].email, users[id].passwordHash.plain)
  {
  }

  /** After a registration, a reset and a change of password, logging in takes the new password and no other. */
  lemma RegisteredPassword(env: Env, w: World, id: Id, name: string, email: string, password: string, salt: Option<nat>,
                           token: Option<string>, now: Time)
    requires UniqueEmails(w.users) && id !in w.users
    requires Registered(w, id, NewUser(name, email, env.isEmail, password, salt, now), true, token, now).result.Ok?
    ensures var w' := Registered(w, id, NewUser(name, email, env.isEmail, password, salt, now), true, token, now).w;
      Takes(env, w'.users, w'.redis, email, password)
  {
    var w' := Registered(w, id, NewUser(name, email, env.isEmail, password, salt, now), true, token, now).w;
    TakesOwnPassword(env, w'.users, w'.redis, id);
  }

  lemma SavedPassword(env: Env, users: Table, redis: Redis, id: Id, hash: Hash, now: Time)
    requires UniqueEmails(users) && id in users && users[id].active
    ensures var users' := users[id := Overwrite(users[id], WithPassword(users[id], hash, now), now)];
      Takes(env, users', redis, users[id].email, hash.plain)
  {
    var users' := users[id := Overwrite(users[id], WithPassword(users[id], hash, now), now)];
    KeepsUnique(users, users', None);
    TakesOwnPassword(env, users', redis, id);
  }

  lemma ResetPasswordTakes(env: Env, w: World, token: string, password: string, salt: Option<nat>, now: Time)
    requires UniqueEmails(w.users) && PasswordReset(w, token, password, password, salt, now).result.Ok?
    ensures Live(w.redis, ResetKey(token), now) && w.redis[ResetKey(token)].user in w.users
    ensures var w', u := PasswordReset(w, token, password, password, salt, now).w,
        w.users[w.redis[ResetKey(token)].user];
      u.active ==> Takes(env, w'.users, w'.redis, u.email, password)
  {
    var w', id := PasswordReset(w, token, password, password, salt, now).w, w.redis[ResetKey(token)].user;
    if w.users[id].active {
      SavedPassword(env, w.users, w'.redis, id, Hash(password, salt.value), now);
    }
  }

  lemma ChangedPasswordTakes(env: Env, w: World, id: Id, current: string, password: string, salt: Option<nat>,
                             now: Time)
    requires UniqueEmails(w.users) && PasswordChanged(w, Some(id), current, password, salt, now).result.Ok?
    ensures id in w.users && w.users[id].passwordHash.plain == current
    ensures var w' := PasswordChanged(w, Some(id), current, password, salt, now).w;
      w.users[id].active ==> Takes(env, w'.users, w'.redis, w.users[id].email, password)
  {
    var w' := PasswordChanged(w, Some(id), current, password, salt, now).w;
    if w.users[id].active {
      SavedPassword(env, w.users, w'.redis, id, Hash(password, salt.value), now);
    }
  }
}
