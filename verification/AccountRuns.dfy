/** The same runs, seen from the accounts: what the audit log tells of them, and whether an admin is left. */
module AccountRuns {
  import opened Common
  import opened Moderation
  import opened ModerationRuns
  import E = Enrichment
  import I = Identity
  import Merges
  import S = Sessions

  /** What moderation changes of an account. */
  datatype Standing = Standing(role: I.Role, active: bool)

  function StandingOf(u: I.UserRow): Standing { Standing(u.role, u.active) }

  const NEWCOMER := Standing(I.Member, true)

  // ---- account commands do not change it ----

  /** Accounts keep their standing, and a new one is an active member. */
  ghost predicate SameStandings(users: I.Table, users': I.Table)
  {
    && (forall u | u in users :: u in users' && StandingOf(users'[u]) == StandingOf(users[u]))
    && (forall u | u in users' && u !in users :: StandingOf(users'[u]) == NEWCOMER)
  }

  lemma TokensKeepStanding(env: S.Env, w: I.World, c: S.Command, now: Time)
    requires c.Login? || c.Refresh? || c.Logout? || c.Forgot?
    ensures SameStandings(w.users, S.After(env, w, c, now).users)
  {
    S.TokensKeep(env, w, c, now);
  }

  lemma VerifyKeepsStanding(env: S.Env, w: I.World, c: S.Command, now: Time)
    requires c.Verify?
    ensures SameStandings(w.users, S.After(env, w, c, now).users)
  {
    hide I.LoggedIn, I.Refreshed, I.LoggedOut, I.ResetRequested, I.Registered, I.ProfileUpdated, I.PasswordChanged,
         I.PasswordReset;
  }

  lemma ResetKeepsStanding(env: S.Env, w: I.World, c: S.Command, now: Time)
    requires c.Reset?
    ensures SameStandings(w.users, S.After(env, w, c, now).users)
  {
    hide I.LoggedIn, I.Refreshed, I.LoggedOut, I.ResetRequested, I.Registered, I.ProfileUpdated, I.PasswordChanged,
         I.EmailVerified;
  }

  lemma RegisterKeepsStanding(env: S.Env, w: I.World, c: S.Command, now: Time)
    requires c.Register? && c.id !in w.users
    ensures SameStandings(w.users, S.After(env, w, c, now).users)
  {
    hide I.LoggedIn, I.Refreshed, I.LoggedOut, I.ResetRequested, I.EmailVerified, I.PasswordReset, I.ProfileUpdated,
         I.PasswordChanged;
  }

  lemma OwnersKeepStanding(env: S.Env, w: I.World, c: S.Command, now: Time)
    requires c.Profile? || c.ChangePassword?
    ensures SameStandings(w.users, S.After(env, w, c, now).users)
  {
    hide I.LoggedIn, I.Refreshed, I.LoggedOut, I.ResetRequested, I.EmailVerified, I.PasswordReset, I.Registered;
  }

  lemma AccountsKeepStanding(env: S.Env, w: I.World, c: S.Command, now: Time)
    requires c.Register? ==> c.id !in w.users
    ensures SameStandings(w.users, S.After(env, w, c, now).users)
  {
    hide S.After, SameStandings;
    match c {
      case Verify(_) => VerifyKeepsStanding(env, w, c, now);
      case Reset(_, _, _, _) => ResetKeepsStanding(env, w, c, now);
      case Register(_, _, _, _, _, _, _) => RegisterKeepsStanding(env, w, c, now);
      case Profile(_, _) => OwnersKeepStanding(env, w, c, now);
      case ChangePassword(_, _, _, _) => OwnersKeepStanding(env, w, c, now);
      case _ => TokensKeepStanding(env, w, c, now);
    }
  }

  // ---- replaying the log ----

  function Told(was: Standing, e: AuditEntry, u: Id): Standing
  {
    if e.target != u then was
    else
      match e.event
      case BanUser(_) => was.(active := false)
      case UnbanUser => was.(active := true)
      case ChangeRole(role) => was.(role := role)
      case _ => was
  }

  /** The ban, unban and change_role entries of one user, folded over a first standing. */
  function Replay(first: Standing, log: seq<AuditEntry>, u: Id): Standing
  {
    if log == [] then first else Told(Replay(first, log[..|log| - 1], u), log[|log| - 1], u)
  }

  /** The standing a user had at the start, or has on arrival. */
  function FirstStanding(start: I.Table, u: Id): Standing
  {
    if u in start then StandingOf(start[u]) else NEWCOMER
  }

  /**
   * Replaying what was logged since the start gives every user's standing; nothing was logged of those still to come.
   */
  ghost predicate Explained(start: I.Table, users: I.Table, log: seq<AuditEntry>)
  {
    && start.Keys <= users.Keys
    && (forall u | u in users :: StandingOf(users[u]) == Replay(FirstStanding(start, u), log, u))
    && (forall u | u !in users :: Replay(FirstStanding(start, u), log, u) == NEWCOMER)
  }

  lemma ReplayAppend(first: Standing, log: seq<AuditEntry>, e: AuditEntry, u: Id)
    ensures Replay(first, log + [e], u) == Told(Replay(first, log, u), e, u)
  {
    assert (log + [e])[..|log|] == log;
  }

  predicate AboutUser(e: AuditEntry)
  {
    e.event.BanUser? || e.event.UnbanUser? || e.event.ChangeRole?
  }

  /** Standings change just as the entry says. */
  ghost predicate ChangedAsTold(users: I.Table, users': I.Table, e: AuditEntry)
  {
    && users'.Keys == users.Keys && (AboutUser(e) ==> e.target in users)
    && forall u | u in users :: StandingOf(users'[u]) == Told(StandingOf(users[u]), e, u)
  }

  /** A command over good links: it changes nothing, or what it changes is what it logs. */
  ghost predicate ToldChange(users: I.Table, users': I.Table, log: seq<AuditEntry>, log': seq<AuditEntry>)
  {
    || (users' == users && log' == log)
    || (|log'| == |log| + 1 && log' == log + [log'[|log|]] && ChangedAsTold(users, users', log'[|log|]))
  }

  lemma ModerationTells(s: State, i: Issue)
    requires i.links == GOOD
    requires i.command.Ban? || i.command.Unban? || i.command.ChangeRole?
    ensures var o := Moderate(s, i); ToldChange(s.users, o.w.users, s.log, o.w.log)
  {
  }

  lemma ReviewTells(s: State, i: Issue)
    requires i.command.Approve? || i.command.Reject?
    ensures var o := Moderate(s, i); ToldChange(s.users, o.w.users, s.log, o.w.log)
  {
  }

  lemma ToldStaysExplained(start: I.Table, users: I.Table, log: seq<AuditEntry>, users': I.Table, e: AuditEntry)
    requires Explained(start, users, log) && ChangedAsTold(users, users', e)
    ensures Explained(start, users', log + [e])
  {
    forall u ensures Replay(FirstStanding(start, u), log + [e], u)
      == Told(Replay(FirstStanding(start, u), log, u), e, u) {
      ReplayAppend(FirstStanding(start, u), log, e, u);
    }
  }

  lemma SameStaysExplained(start: I.Table, users: I.Table, log: seq<AuditEntry>, users': I.Table)
    requires Explained(start, users, log) && SameStandings(users, users')
    ensures Explained(start, users', log)
  {
  }

  lemma ToldChangeStaysExplained(start: I.Table, base: nat, users: I.Table, users': I.Table, log: seq<AuditEntry>,
                                 log': seq<AuditEntry>)
    requires ToldChange(users, users', log, log') && base <= |log| && Explained(start, users, log[base..])
    ensures base <= |log'| && Explained(start, users', log'[base..])
  {
    if log' != log {
      var e := log'[|log|];
      ToldStaysExplained(start, users, log[base..], users', e);
      assert log'[base..] == log[base..] + [e];
    }
  }

  lemma StepStaysExplained(env: S.Env, start: I.Table, base: nat, s: State, i: Issue)
    requires i.links == GOOD && base <= |s.log| && Explained(start, s.users, s.log[base..])
    ensures var s' := Step(env, s, i); base <= |s'.log| && Explained(start, s'.users, s'.log[base..])
  {
    hide E.After, Moderate, S.After, Explained, Replay, SameStandings;
    var c, s' := i.command, Step(env, s, i);
    if c.OnAccount? {
      if !(c.command.Register? && c.command.id in s.users) {
        AccountsKeepStanding(env, I.World(s.users, Up, s.redis, Up), c.command, i.now);
        SameStaysExplained(start, s.users, s.log[base..], s'.users);
      }
    } else if !c.Submit? && !c.Withdraw? {
      if c.Approve? || c.Reject? {
        ReviewTells(s, i);
      } else if c.OnRequest? {
        RequestLogs(RequestWorld(s, i.links), c.request, i.now);
      } else {
        ModerationTells(s, i);
      }
      ToldChangeStaysExplained(start, base, s.users, s'.users, s.log, s'.log);
    }
  }

  lemma {:induction false} RunStaysExplained(env: S.Env, start: I.Table, base: nat, s: State, trace: Trace)
    requires AllGood(trace) && base <= |s.log| && Explained(start, s.users, s.log[base..])
    ensures var s' := Run(env, s, trace); base <= |s'.log| && Explained(start, s'.users, s'.log[base..])
    decreases |trace|
  {
    if trace != [] {
      assert trace[0].links == GOOD && AllGood(trace[1..]);
      StepStaysExplained(env, start, base, s, trace[0]);
      RunStaysExplained(env, start, base, Step(env, s, trace[0]), trace[1..]);
    }
  }

  /**
   * When no call fails, replaying the entries a run logs over the standings at its start gives every standing at its
   * end.
   */
  lemma AuditReplay(env: S.Env, s: State, trace: Trace, u: Id)
    requires AllGood(trace)
    ensures var s' := Run(env, s, trace);
      && |s.log| <= |s'.log|
      && (u in s'.users ==> StandingOf(s'.users[u]) == Replay(FirstStanding(s.users, u), s'.log[|s.log|..], u))
      && (u in s.users ==> u in s'.users)
  {
    assert s.log[|s.log|..] == [];
    RunStaysExplained(env, s.users, |s.log|, s, trace);
  }

  // ---- exactly when the log misses a change ----

  predicate OnUser(c: Command) { c.Ban? || c.Unban? || c.ChangeRole? }

  /** The command would write the account: the user is there, and the guards let it through. */
  predicate Attempts(users: I.Table, c: Command)
    requires OnUser(c)
  {
    && c.target in users
    && (c.Ban? ==> !users[c.target].role.Admin?)
    && (c.ChangeRole? ==> RoleCode(c.role).Some? && c.admin != c.target)
  }

  function Wanted(users: I.Table, c: Command): Standing
    requires OnUser(c) && Attempts(users, c)
  {
    var was := StandingOf(users[c.target]);
    if c.Ban? then was.(active := false) else if c.Unban? then was.(active := true)
      else was.(role := RoleCode(c.role).value)
  }

  function EntryOf(c: Command): AuditEntry
    requires OnUser(c) && (c.ChangeRole? ==> RoleCode(c.role).Some?)
  {
    AuditEntry(c.admin, if c.Ban? then BanUser(c.reason) else if c.Unban? then UnbanUser
               else Event.ChangeRole(RoleCode(c.role).value),
               c.target)
  }

  /** The account's write takes effect. */
  predicate Writes(s: State, i: Issue)
    requires OnUser(i.command)
  {
    var one := Call(i.links.users);
    Attempts(s.users, i.command) && one.ok && Call(one.link).applied
  }

  predicate Logs(s: State, i: Issue)
    requires OnUser(i.command)
  {
    Writes(s, i) && Call(Call(i.links.users).link).ok && Call(i.links.log).applied
  }

  /** What a command on an account does over any links. */
  ghost predicate DoesExactly(s: State, i: Issue)
    requires OnUser(i.command)
  {
    var o, c := Moderate(s, i), i.command;
    && o.w.users.Keys == s.users.Keys
    && (!Writes(s, i) ==> o.w.users == s.users)
    && (Writes(s, i) ==> StandingOf(o.w.users[c.target]) == Wanted(s.users, c)
                         && forall u | u in s.users && u != c.target :: o.w.users[u] == s.users[u])
    && o.w.log == if Logs(s, i) then s.log + [EntryOf(c)] else s.log
  }

  lemma BanExactly(s: State, i: Issue)
    requires i.command.Ban?
    ensures DoesExactly(s, i)
  {
    hide ContributionApproved, ContributionRejected, UserUnbanned, UserRoleChanged;
  }

  lemma UnbanExactly(s: State, i: Issue)
    requires i.command.Unban?
    ensures DoesExactly(s, i)
  {
    hide ContributionApproved, ContributionRejected, UserBanned, UserRoleChanged;
  }

  lemma RoleExactly(s: State, i: Issue)
    requires i.command.ChangeRole?
    ensures DoesExactly(s, i)
  {
    hide ContributionApproved, ContributionRejected, UserBanned, UserUnbanned;
  }

  lemma OnUserExactly(s: State, i: Issue)
    requires OnUser(i.command)
    ensures DoesExactly(s, i)
  {
    hide DoesExactly;
    if i.command.Ban? {
      BanExactly(s, i);
    } else if i.command.Unban? {
      UnbanExactly(s, i);
    } else {
      RoleExactly(s, i);
    }
  }

  /** The command changes the standing, its write takes effect, and its entry is never tried or does not take effect. */
  predicate GoesUnlogged(s: State, i: Issue)
  {
    && OnUser(i.command) && Writes(s, i) && !Logs(s, i)
    && Wanted(s.users, i.command) != StandingOf(s.users[i.command.target])
  }

  /** An account's standing changes with nothing logged exactly then. */
  lemma UnloggedIff(s: State, i: Issue)
    requires OnUser(i.command) && i.command.target in s.users
    ensures var o, u := Moderate(s, i), i.command.target;
      u in o.w.users && (StandingOf(o.w.users[u]) != StandingOf(s.users[u]) && o.w.log == s.log <==> GoesUnlogged(s, i))
  {
    hide Moderate;
    OnUserExactly(s, i);
  }

  lemma OnUserExplainedIff(start: I.Table, base: nat, s: State, i: Issue)
    requires OnUser(i.command) && base <= |s.log| && Explained(start, s.users, s.log[base..])
    ensures var o := Moderate(s, i);
      base <= |o.w.log| && (Explained(start, o.w.users, o.w.log[base..]) <==> !GoesUnlogged(s, i))
  {
    hide Moderate, Replay;
    OnUserExactly(s, i);
    var o, c := Moderate(s, i), i.command;
    if Logs(s, i) {
      assert ChangedAsTold(s.users, o.w.users, EntryOf(c));
      ToldStaysExplained(start, s.users, s.log[base..], o.w.users, EntryOf(c));
      assert o.w.log[base..] == s.log[base..] + [EntryOf(c)];
    } else if GoesUnlogged(s, i) {
      assert StandingOf(s.users[c.target]) == Replay(FirstStanding(start, c.target), s.log[base..], c.target);
    } else {
      assert SameStandings(s.users, o.w.users);
      SameStaysExplained(start, s.users, s.log[base..], o.w.users);
    }
  }

  /** Over any links, a step keeps the log telling every standing exactly when it does not change one unlogged. */
  lemma StepExplainedIff(env: S.Env, start: I.Table, base: nat, s: State, i: Issue)
    requires base <= |s.log| && Explained(start, s.users, s.log[base..])
    ensures var s' := Step(env, s, i);
      base <= |s'.log| && (Explained(start, s'.users, s'.log[base..]) <==> !GoesUnlogged(s, i))
  {
    hide E.After, Moderate, S.After, Explained, Replay, SameStandings;
    var c, s' := i.command, Step(env, s, i);
    if OnUser(c) {
      OnUserExplainedIff(start, base, s, i);
    } else if c.OnAccount? {
      if !(c.command.Register? && c.command.id in s.users) {
        AccountsKeepStanding(env, I.World(s.users, i.links.users, s.redis, i.links.redis), c.command, i.now);
        SameStaysExplained(start, s.users, s.log[base..], s'.users);
      }
    } else if !c.Submit? && !c.Withdraw? {
      if c.OnRequest? {
        RequestLogs(RequestWorld(s, i.links), c.request, i.now);
      } else {
        ReviewTells(s, i);
      }
      ToldChangeStaysExplained(start, base, s.users, s'.users, s.log, s'.log);
    }
  }

  /** Replaying the entries since `base` tells every standing, at every point of the run. */
  ghost predicate ExplainedThroughout(env: S.Env, start: I.Table, base: nat, s: State, trace: Trace)
    decreases |trace|
  {
    && base <= |s.log| && Explained(start, s.users, s.log[base..])
    && (trace != [] ==> ExplainedThroughout(env, start, base, Step(env, s, trace[0]), trace[1..]))
  }

  ghost predicate NoneUnlogged(env: S.Env, s: State, trace: Trace)
    decreases |trace|
  {
    trace == [] || (!GoesUnlogged(s, trace[0]) && NoneUnlogged(env, Step(env, s, trace[0]), trace[1..]))
  }

  lemma {:induction false} ExplainedThroughoutIff(env: S.Env, start: I.Table, base: nat, s: State, trace: Trace)
    requires base <= |s.log| && Explained(start, s.users, s.log[base..])
    ensures ExplainedThroughout(env, start, base, s, trace) <==> NoneUnlogged(env, s, trace)
    decreases |trace|
  {
    hide Explained, Step, GoesUnlogged;
    if trace != [] {
      StepExplainedIff(env, start, base, s, trace[0]);
      if !GoesUnlogged(s, trace[0]) {
        ExplainedThroughoutIff(env, start, base, Step(env, s, trace[0]), trace[1..]);
      } else {
        var s1 := Step(env, s, trace[0]);
        assert !ExplainedThroughout(env, start, base, s1, trace[1..]);
      }
    }
  }

  /**
   * So, whichever calls fail, the log of a run tells every standing throughout exactly when no change of one goes
   * unlogged.
   */
  lemma AuditReplayIff(env: S.Env, s: State, trace: Trace)
    ensures ExplainedThroughout(env, s.users, |s.log|, s, trace) <==> NoneUnlogged(env, s, trace)
  {
    assert s.log[|s.log|..] == [];
    ExplainedThroughoutIff(env, s.users, |s.log|, s, trace);
  }

  /** For one: an audit call that fails after the write leaves a ban the log does not tell of. */
  lemma UnloggedBan(env: S.Env, s: State, u: Id, admin: Id)
    requires u in s.users && StandingOf(s.users[u]) == NEWCOMER
    ensures var i := Issue(Ban(u, admin, ""), GOOD.(log := Bad(false, Up)), 0);
      GoesUnlogged(s, i) && Step(env, s, i).log == s.log && u in Step(env, s, i).users
        && !Step(env, s, i).users[u].active
  {
    hide ContributionApproved, E.After, S.After;
  }

  // ---- a banned user stays out ----

  predicate IsBanned(users: I.Table, u: Id) { u in users && !users[u].active }

  /** The command is a login that succeeds, and this user's. */
  ghost predicate LogsIn(env: S.Env, s: State, i: Issue, u: Id)
  {
    && i.command.OnAccount? && i.command.command.Login?
    && var c := i.command.command;
      var o := I.LoggedIn(I.World(s.users, i.links.users, s.redis, i.links.redis), env.hash, c.email, c.password,
                          c.signed, c.minted, i.now);
      o.result.Ok? && o.result.value.subject == u
  }

  lemma BannedRefused(env: S.Env, s: State, i: Issue, u: Id)
    requires IsBanned(s.users, u)
    ensures !LogsIn(env, s, i, u)
  {
  }

  lemma StaysBanned(env: S.Env, s: State, i: Issue, u: Id)
    requires IsBanned(s.users, u) && !(i.command.Unban? && i.command.target == u)
    ensures IsBanned(Step(env, s, i).users, u)
  {
    hide E.After, Moderate, S.After;
    var c := i.command;
    if OnUser(c) {
      OnUserExactly(s, i);
    } else if c.OnAccount? {
      if !(c.command.Register? && c.command.id in s.users) {
        AccountsKeepStanding(env, I.World(s.users, i.links.users, s.redis, i.links.redis), c.command, i.now);
        assert StandingOf(Step(env, s, i).users[u]) == StandingOf(s.users[u]);
      }
    } else if c.Approve? || c.Reject? {
      ReviewKeepsUsers(s, i);
    }
  }

  lemma ReviewKeepsUsers(s: State, i: Issue)
    requires i.command.Approve? || i.command.Reject?
    ensures Moderate(s, i).w.users == s.users
  {
  }

  lemma {:induction false} BannedThroughout(env: S.Env, s: State, trace: Trace, u: Id)
    requires IsBanned(s.users, u)
    requires forall k | 0 <= k < |trace| :: !(trace[k].command.Unban? && trace[k].command.target == u)
    ensures IsBanned(Run(env, s, trace).users, u)
    decreases |trace|
  {
    hide IsBanned, Step;
    if trace != [] {
      assert trace[0] in trace;
      StaysBanned(env, s, trace[0], u);
      BannedThroughout(env, Step(env, s, trace[0]), trace[1..], u);
    }
  }

  /**
   * From a ban whose write takes effect, whatever else fails or is done, no login of the user succeeds before an
   * unbanning.
   */
  lemma BannedStaysOut(env: S.Env, s: State, ban: Issue, trace: Trace, next: Issue)
    requires ban.command.Ban? && Writes(s, ban)
    requires forall k | 0 <= k < |trace| ::
      !(trace[k].command.Unban? && trace[k].command.target == ban.command.target)
    ensures !LogsIn(env, Run(env, Step(env, s, ban), trace), next, ban.command.target)
  {
    hide Moderate, LogsIn;
    var u := ban.command.target;
    OnUserExactly(s, ban);
    assert StandingOf(Step(env, s, ban).users[u]) == Wanted(s.users, ban.command);
    BannedThroughout(env, Step(env, s, ban), trace, u);
    BannedRefused(env, Run(env, Step(env, s, ban), trace), next, u);
  }

  // ---- an admin is left ----

  predicate ActiveAdmin(users: I.Table, u: Id)
  {
    u in users && users[u].role.Admin? && users[u].active
  }

  ghost predicate Governed(users: I.Table)
  {
    exists u :: ActiveAdmin(users, u)
  }

  /** Who a moderation command acts for. */
  function Actor(c: Command): Option<Id>
  {
    match c
    case Ban(_, admin, _) => Some(admin)
    case Unban(_, admin) => Some(admin)
    case ChangeRole(_, admin, _) => Some(admin)
    case _ => None
  }

  lemma UsersOwnEndNone(env: S.Env, s: State, i: Issue, u: Id)
    requires ActiveAdmin(s.users, u)
    requires i.command.Submit? || i.command.Withdraw? || i.command.OnAccount? || i.command.OnRequest?
    ensures ActiveAdmin(Step(env, s, i).users, u)
  {
    hide Moderate, E.After, S.After;
    if i.command.OnAccount? && !(i.command.command.Register? && i.command.command.id in s.users) {
      AccountsKeepStanding(env, I.World(s.users, i.links.users, s.redis, i.links.redis), i.command.command, i.now);
    }
  }

  lemma ReviewEndsNone(s: State, i: Issue)
    requires i.command.Approve? || i.command.Reject?
    ensures Moderate(s, i).w.users == s.users
  {
    hide Merges.MergeContribution;
  }

  lemma BanEndsNone(s: State, i: Issue, u: Id)
    requires ActiveAdmin(s.users, u) && (i.command.Ban? || i.command.Unban?)
    ensures ActiveAdmin(Moderate(s, i).w.users, u)
  {
    hide ContributionApproved, ContributionRejected, UserRoleChanged;
  }

  /** Only a change of role can end an active admin. */
  lemma OthersEndNone(env: S.Env, s: State, i: Issue, u: Id)
    requires ActiveAdmin(s.users, u) && !i.command.ChangeRole?
    ensures ActiveAdmin(Step(env, s, i).users, u)
  {
    hide Moderate, E.After, S.After;
    if i.command.Approve? || i.command.Reject? {
      ReviewEndsNone(s, i);
    } else if i.command.Ban? || i.command.Unban? {
      BanEndsNone(s, i, u);
    } else {
      UsersOwnEndNone(env, s, i, u);
    }
  }

  /** A change of role that takes effect: it is someone else's, to a known role, and the write goes through. */
  predicate RoleIsWritten(s: State, i: Issue)
    requires i.command.ChangeRole?
  {
    && RoleCode(i.command.role).Some? && i.command.admin != i.command.target && i.command.target in s.users
    && Call(i.links.users).ok && Call(Call(i.links.users).link).applied
  }

  lemma RoleChange(env: S.Env, s: State, i: Issue)
    requires i.command.ChangeRole?
    ensures var c, users, users' := i.command, s.users, Step(env, s, i).users;
      && (!RoleIsWritten(s, i) ==> users' == users)
      && (RoleIsWritten(s, i) ==>
            && users'.Keys == users.Keys
            && (forall u | u in users && u != c.target :: users'[u] == users[u])
            && StandingOf(users'[c.target]) == Standing(RoleCode(c.role).value, users[c.target].active))
  {
  }

  /** Whatever fails, a command never ends the active admin it acts for, and a command on accounts ends none. */
  lemma ActorSurvives(env: S.Env, s: State, i: Issue, u: Id)
    requires ActiveAdmin(s.users, u)
    requires Actor(i.command) == Some(u) || Actor(i.command).None?
    ensures ActiveAdmin(Step(env, s, i).users, u)
  {
    if i.command.ChangeRole? {
      RoleChange(env, s, i);
    } else {
      OthersEndNone(env, s, i, u);
    }
  }

  /** Each command that moderates accounts acts for a stored active admin. */
  ghost predicate ActorsAreAdmins(env: S.Env, s: State, trace: Trace)
    decreases |trace|
  {
    if trace == [] then true
    else
      && (Actor(trace[0].command).Some? ==> ActiveAdmin(s.users, Actor(trace[0].command).value))
      && ActorsAreAdmins(env, Step(env, s, trace[0]), trace[1..])
  }

  /** Then an active admin is left after every run, whichever calls fail. */
  lemma {:induction false} AdminSurvives(env: S.Env, s: State, trace: Trace)
    requires Governed(s.users) && ActorsAreAdmins(env, s, trace)
    ensures Governed(Run(env, s, trace).users)
    decreases |trace|
  {
    if trace != [] {
      var u :| ActiveAdmin(s.users, u);
      var keeper := if Actor(trace[0].command).Some? then Actor(trace[0].command).value else u;
      ActorSurvives(env, s, trace[0], keeper);
      AdminSurvives(env, Step(env, s, trace[0]), trace[1..]);
    }
  }

  /** The last active admin is lost exactly when someone else makes that one a plain user and the write takes effect. */
  lemma LastAdminLostIff(env: S.Env, s: State, i: Issue)
    requires Governed(s.users)
    ensures !Governed(Step(env, s, i).users) <==>
      && i.command.ChangeRole? && RoleIsWritten(s, i) && i.command.role == "user"
      && forall u | ActiveAdmin(s.users, u) :: u == i.command.target
  {
    var u :| ActiveAdmin(s.users, u);
    if i.command.ChangeRole? {
      RoleChangeLosesIff(env, s, i);
    } else {
      OthersEndNone(env, s, i, u);
    }
  }

  lemma RoleChangeLosesIff(env: S.Env, s: State, i: Issue)
    requires Governed(s.users) && i.command.ChangeRole?
    ensures !Governed(Step(env, s, i).users) <==>
      RoleIsWritten(s, i) && i.command.role == "user" && forall u | ActiveAdmin(s.users, u) :: u == i.command.target
  {
    RoleChange(env, s, i);
    RoleChangeLoses(s.users, Step(env, s, i).users, i.command.target, RoleIsWritten(s, i),
                    if RoleCode(i.command.role).Some? then RoleCode(i.command.role).value else I.Admin);
  }

  lemma RoleChangeLoses(users: I.Table, users': I.Table, target: Id, written: bool, role: I.Role)
    requires Governed(users)
    requires !written ==> users' == users
    requires written ==> target in users && users'.Keys == users.Keys
    requires written ==> forall u | u in users && u != target :: users'[u] == users[u]
    requires written ==> StandingOf(users'[target]) == Standing(role, users[target].active)
    ensures !Governed(users') <==> written && role.Member? && forall u | ActiveAdmin(users, u) :: u == target
  {
    var u :| ActiveAdmin(users, u);
    if written && role.Admin? {
      assert ActiveAdmin(users', u);
    }
    if x :| ActiveAdmin(users, x) && x != target && written {
      assert ActiveAdmin(users', x);
    }
    if Governed(users') && written {
      var x :| ActiveAdmin(users', x);
      assert x == target || ActiveAdmin(users, x);
    }
  }

  /** So two admins whose commands still act for them after a demotion can end with no admin at all. */
  lemma MutualDemotion(env: S.Env, s: State, a: Id, b: Id)
    requires a != b && forall u :: ActiveAdmin(s.users, u) <==> (u == a || u == b)
    ensures !Governed(Run(env, s,
                          [Issue(Command.ChangeRole(b, a, "user"), GOOD, 0),
                           Issue(Command.ChangeRole(a, b, "user"), GOOD, 1)]).users)
  {
    var i, j := Issue(Command.ChangeRole(b, a, "user"), GOOD, 0), Issue(Command.ChangeRole(a, b, "user"), GOOD, 1);
    assert RoleCode("user") == Some(I.Member);
    assert ActiveAdmin(s.users, a) && ActiveAdmin(s.users, b);
    RoleChange(env, s, i);
    var s1 := Step(env, s, i);
    forall u ensures ActiveAdmin(s1.users, u) <==> u == a {
      assert ActiveAdmin(s.users, u) <==> (u == a || u == b);
    }
    LoneAdminDemoted(env, s1, j);
    RunTwo(env, s, i, j, 0);
  }

  lemma LoneAdminDemoted(env: S.Env, s: State, i: Issue)
    requires i.links == GOOD && i.command.ChangeRole? && i.command.role == "user" && i.command.admin != i.command.target
    requires forall u :: ActiveAdmin(s.users, u) <==> u == i.command.target
    ensures !Governed(Step(env, s, i).users)
  {
    assert RoleCode("user") == Some(I.Member);
    assert ActiveAdmin(s.users, i.command.target);
    LastAdminLostIff(env, s, i);
  }
}
