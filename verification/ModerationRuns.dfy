/**
 * Serial runs of all commands: on contributions, accounts and AI requests, and of the users' own. Any call may fail.
 */
module ModerationRuns {
  import opened Common
  import opened Dictionary
  import opened WordRepository
  import opened Merges
  import opened Moderation
  import A = AiRequests
  import C = Contributions
  import E = Enrichment
  import I = Identity
  import S = Sessions

  datatype State = State(
    contributions: C.Table, d: Dict, users: I.Table, redis: I.Redis, requests: A.Table, runners: set<Id>,
        log: seq<AuditEntry>)

  /** The links a command meets. */
  datatype Links = Links(contributions: Link, words: Link, users: Link, redis: Link, requests: Link, log: Link)

  const GOOD := Links(Up, Up, Up, Up, Up, Up)

  datatype Command =
    | Submit(id: Id, c: C.Contribution)
    | Withdraw(id: Id, caller: Id)
    | Approve(id: Id, admin: Id, note: string)
    | Reject(id: Id, admin: Id, note: string)
    | Ban(target: Id, admin: Id, reason: string)
    | Unban(target: Id, admin: Id)
    | ChangeRole(target: Id, admin: Id, role: string)
    | OnAccount(command: S.Command)
    | OnRequest(request: E.Command)

  datatype Issue = Issue(command: Command, links: Links, now: Time)

  type Trace = seq<Issue>

  function WorldOf(s: State, f: Links): World
  {
    World(s.contributions, f.contributions, s.d, f.words, s.users, f.users, s.log, f.log)
  }

  function Put(s: State, w: World): State
  {
    s.(contributions := w.contributions, d := w.d, users := w.users, log := w.log)
  }

  function RequestWorld(s: State, f: Links): E.World
  {
    E.World(s.runners, s.requests, f.requests, s.d, f.words, s.contributions, f.contributions, s.log, f.log)
  }

  function Moderate(s: State, i: Issue): Outcome
  {
    var w := WorldOf(s, i.links);
    match i.command
    case Approve(id, admin, note) => ContributionApproved(w, admin, id, note, i.now)
    case Reject(id, admin, note) => ContributionRejected(w, admin, id, note, i.now)
    case Ban(target, admin, reason) => UserBanned(w, admin, target, reason, i.now)
    case Unban(target, admin) => UserUnbanned(w, admin, target, i.now)
    case ChangeRole(target, admin, role) => UserRoleChanged(w, admin, target, role, i.now)
    case _ => Outcome(w, None, false)
  }

  ghost function Step(env: S.Env, s: State, i: Issue): State
  {
    match i.command
    case Submit(id, c) =>
      if id in s.contributions || !C.IsSubmission(c) || !Call(i.links.contributions).applied then s
      else s.(contributions := s.contributions[id := c])
    case Withdraw(id, caller) =>
      var one := Call(i.links.contributions);
      if one.ok && Call(one.link).applied
        then s.(contributions := C.Command(s.contributions, id, C.WithdrawBy(caller))) else s
    case OnAccount(command) =>
      if command.Register? && command.id in s.users then s
      else
        var w := S.After(env, I.World(s.users, i.links.users, s.redis, i.links.redis), command, i.now);
        s.(users := w.users, redis := w.redis)
    case OnRequest(request) =>
      var w := E.After(RequestWorld(s, i.links), request, i.now);
      s.(runners := w.runners, requests := w.requests, d := w.d, log := w.log)
    case _ => Put(s, Moderate(s, i).w)
  }

  ghost function Run(env: S.Env, s: State, trace: Trace): State
    decreases |trace|
  {
    if trace == [] then s else Run(env, Step(env, s, trace[0]), trace[1..])
  }

  // ---- merge, then status, then audit ----

  predicate IsApproved(rows: C.Table, id: Id)
  {
    id in rows && rows[id].status.Approved?
  }

  function ApprovalsLogged(log: seq<AuditEntry>, id: Id): nat
  {
    if log == [] then 0
    else
      var last := log[|log| - 1];
      ApprovalsLogged(log[..|log| - 1], id) + if last.event.ApproveContribution? && last.target == id then 1 else 0
  }

  /** For one contribution: merges that succeeded, writes that made it approved, audit entries of its approval. */
  datatype Tally = Tally(merges: int, writes: int, audits: int)

  function TallyOf(merged: bool, rows: C.Table, rows': C.Table, log: seq<AuditEntry>, log': seq<AuditEntry>,
                   id: Id): Tally
  {
    Tally(
      if merged then 1 else 0,
      if IsApproved(rows', id) && !IsApproved(rows, id) then 1 else 0,
      ApprovalsLogged(log', id) - ApprovalsLogged(log, id))
  }

  ghost function StepTally(env: S.Env, s: State, i: Issue, id: Id): Tally
  {
    var s' := Step(env, s, i);
    var merged := i.command.Approve? && i.command.id == id && Moderate(s, i).merged;
    TallyOf(merged, s.contributions, s'.contributions, s.log, s'.log, id)
  }

  ghost function RunTally(env: S.Env, s: State, trace: Trace, id: Id): Tally
    decreases |trace|
  {
    if trace == [] then Tally(0, 0, 0)
    else
      var one, rest := StepTally(env, s, trace[0], id), RunTally(env, Step(env, s, trace[0]), trace[1..], id);
      Tally(one.merges + rest.merges, one.writes + rest.writes, one.audits + rest.audits)
  }

  predicate AllGood(trace: Trace)
  {
    forall k | 0 <= k < |trace| :: trace[k].links == GOOD
  }

  lemma LogAppend(log: seq<AuditEntry>, e: AuditEntry, id: Id)
    ensures ApprovalsLogged(log + [e], id)
      == ApprovalsLogged(log, id) + if e.event.ApproveContribution? && e.target == id then 1 else 0
  {
    assert (log + [e])[..|log|] == log;
  }

  predicate InOrder(t: Tally, rows: C.Table, rows': C.Table, good: bool, id: Id)
  {
    && 0 <= t.audits <= t.writes <= t.merges
    && (good ==> t.audits == t.writes == t.merges)
    && (IsApproved(rows, id) ==> t.writes == 0 && IsApproved(rows', id))
  }

  /**
   * What a review does to the contributions and the log: nothing; the write after any merge; or the write and the
   * entry.
   */
  predicate ReviewShape(rows: C.Table, rows': C.Table, log: seq<AuditEntry>, log': seq<AuditEntry>, id: Id,
                        copy: C.Contribution,
                        entry: AuditEntry, merged: bool, good: bool)
  {
    || (rows' == rows && log' == log && (good ==> !merged))
    || (id in rows && rows[id].status.Pending? && merged && rows' == C.Write(rows, id, copy)
        && (log' == log + [entry] || (log' == log && !good)))
  }

  lemma ApproveShape(w: World, admin: Id, id: Id, note: string, now: Time)
    ensures var o := ContributionApproved(w, admin, id, note, now);
      && (id in w.contributions ==>
            ReviewShape(w.contributions, o.w.contributions, w.log, o.w.log, id,
                        C.Reviewed(w.contributions[id], C.Approved, admin, note, now),
                            AuditEntry(admin, ApproveContribution, id),
                        o.merged, w.clink.Up? && w.alink.Up?))
      && (id !in w.contributions ==> o.w.contributions == w.contributions && o.w.log == w.log && !o.merged)
  {
  }

  lemma ApprovalInOrder(rows: C.Table, rows': C.Table, log: seq<AuditEntry>, log': seq<AuditEntry>, target: Id,
                        copy: C.Contribution,
                        entry: AuditEntry, merged: bool, good: bool, id: Id)
    requires target in rows && ReviewShape(rows, rows', log, log', target, copy, entry, merged, good)
    requires copy.status.Approved? && entry.event.ApproveContribution? && entry.target == target
    ensures InOrder(TallyOf(merged && target == id, rows, rows', log, log', id), rows, rows', good, id)
  {
    LogAppend(log, entry, id);
  }

  /** A command that settles no contribution as approved and logs no approval. */
  predicate NoApproval(rows: C.Table, rows': C.Table, log: seq<AuditEntry>, log': seq<AuditEntry>)
  {
    && (forall x | x in rows && rows[x].status.Approved? :: x in rows' && rows'[x] == rows[x])
    && (forall x | x in rows' && rows'[x].status.Approved? :: x in rows && rows[x] == rows'[x])
    && (log' == log || (|log'| == |log| + 1 && log' == log + [log'[|log|]] && !log'[|log|].event.ApproveContribution?))
  }

  lemma NoApprovalInOrder(rows: C.Table, rows': C.Table, log: seq<AuditEntry>, log': seq<AuditEntry>, good: bool,
                          id: Id)
    requires NoApproval(rows, rows', log, log')
    ensures InOrder(TallyOf(false, rows, rows', log, log', id), rows, rows', good, id)
  {
    if log' != log {
      LogAppend(log, log'[|log|], id);
    }
  }

  lemma RejectNoApproval(w: World, admin: Id, id: Id, note: string, now: Time)
    ensures var o := ContributionRejected(w, admin, id, note, now);
      NoApproval(w.contributions, o.w.contributions, w.log, o.w.log)
  {
  }

  lemma AccountNoApproval(s: State, i: Issue)
    requires i.command.Ban? || i.command.Unban? || i.command.ChangeRole?
    ensures var o := Moderate(s, i); NoApproval(s.contributions, o.w.contributions, s.log, o.w.log)
  {
    hide ContributionApproved, ContributionRejected;
  }

  /** Commands on AI requests log their own entries only. */
  lemma {:induction false} RequestLogs(w: E.World, c: E.Command, now: Time)
    ensures var w' := E.After(w, c, now);
      || w'.log == w.log
      || (|w'.log| == |w.log| + 1 && w'.log == w.log + [w'.log[|w.log|]]
          && (w'.log[|w.log|].event.ApproveAi? || w'.log[|w.log|].event.RejectAi?))
  {
  }

  lemma OtherNoApproval(env: S.Env, s: State, i: Issue)
    requires i.command.Submit? || i.command.Withdraw? || i.command.OnAccount?
    ensures var s' := Step(env, s, i); NoApproval(s.contributions, s'.contributions, s.log, s'.log)
  {
    hide Moderate, E.After, S.After, MergeContribution, NoApproval;
    if i.command.Submit? && i.command.id !in s.contributions && C.IsSubmission(i.command.c) {
      SubmitNoApproval(s.contributions, s.log, i.command.id, i.command.c);
    } else if i.command.Withdraw? {
      WithdrawNoApproval(s.contributions, s.log, i.command.id, i.command.caller);
    }
    SameNoApproval(s.contributions, s.log);
  }

  lemma SubmitNoApproval(rows: C.Table, log: seq<AuditEntry>, id: Id, c: C.Contribution)
    requires id !in rows && C.IsSubmission(c)
    ensures NoApproval(rows, rows[id := c], log, log)
  {
  }

  lemma WithdrawNoApproval(rows: C.Table, log: seq<AuditEntry>, id: Id, caller: Id)
    ensures NoApproval(rows, C.Command(rows, id, C.WithdrawBy(caller)), log, log)
  {
  }

  lemma SameNoApproval(rows: C.Table, log: seq<AuditEntry>)
    ensures NoApproval(rows, rows, log, log)
  {
  }

  /** One command: an audit entry means the write, the write means the merge; over good links each means the others. */
  lemma StepInOrder(env: S.Env, s: State, i: Issue, id: Id)
    ensures InOrder(StepTally(env, s, i, id), s.contributions, Step(env, s, i).contributions, i.links == GOOD, id)
  {
    hide ContributionApproved, ContributionRejected, UserBanned, UserUnbanned, UserRoleChanged, E.After, S.After;
    var s' := Step(env, s, i);
    if i.command.Approve? {
      var target, admin, note := i.command.id, i.command.admin, i.command.note;
      ApproveShape(WorldOf(s, i.links), admin, target, note, i.now);
      if target in s.contributions {
        var copy := C.Reviewed(s.contributions[target], C.Approved, admin, note, i.now);
        var good := i.links.contributions.Up? && i.links.log.Up?;
        ApprovalInOrder(s.contributions, s'.contributions, s.log, s'.log, target, copy,
                        AuditEntry(admin, ApproveContribution, target),
                        Moderate(s, i).merged, good, id);
      }
    } else {
      if i.command.Reject? {
        RejectNoApproval(WorldOf(s, i.links), i.command.admin, i.command.id, i.command.note, i.now);
      } else if i.command.Ban? || i.command.Unban? || i.command.ChangeRole? {
        AccountNoApproval(s, i);
      } else if i.command.OnRequest? {
        RequestLogs(RequestWorld(s, i.links), i.command.request, i.now);
      } else {
        OtherNoApproval(env, s, i);
      }
      NoApprovalInOrder(s.contributions, s'.contributions, s.log, s'.log, i.links == GOOD, id);
    }
  }

  /**
   * Whichever calls fail: of each contribution there are no more audit entries than status writes, no more status
   * writes than merges, and at most one status write. When none fails the three are equal.
   */
  lemma {:induction false} WriteOrdering(env: S.Env, s: State, trace: Trace, id: Id)
    ensures var t := RunTally(env, s, trace, id);
      && 0 <= t.audits <= t.writes <= t.merges && t.writes <= 1
      && (IsApproved(s.contributions, id) ==> t.writes == 0)
      && (AllGood(trace) ==> t.audits == t.writes == t.merges)
    decreases |trace|
  {
    if trace != [] {
      StepInOrder(env, s, trace[0], id);
      WriteOrdering(env, Step(env, s, trace[0]), trace[1..], id);
      assert AllGood(trace) ==> trace[0].links == GOOD && AllGood(trace[1..]);
    }
  }

  // ---- exactly how often a contribution is merged ----

  /**
   * Before the call: the contribution is pending and merges over its word link, and its status write will not take
   * effect.
   */
  predicate WriteIsLost(s: State, i: Issue, id: Id)
  {
    && i.command.Approve? && i.command.id == id && id in s.contributions && s.contributions[id].status.Pending?
    && var one := Call(i.links.contributions);
    && one.ok && !Call(one.link).applied
    && MergeContribution(s.d, i.links.words, s.contributions[id], i.now).error.None?
  }

  ghost function LostWrites(env: S.Env, s: State, trace: Trace, id: Id): nat
    decreases |trace|
  {
    if trace == [] then 0
      else CountIf(WriteIsLost(s, trace[0], id)) + LostWrites(env, Step(env, s, trace[0]), trace[1..], id)
  }

  /** A merge looks at what was submitted only. */
  lemma {:induction false} MergeIgnoresReview(d: Dict, link: Link, a: C.Contribution, b: C.Contribution, now: Time)
    requires C.SameSubmission(a, b)
    ensures MergeContribution(d, link, a, now) == MergeContribution(d, link, b, now)
  {
    assert EditOf(a) == EditOf(b);
  }

  /**
   * An approval merges when it loads a pending contribution that merges, and makes it approved if also its write
   * takes effect.
   */
  lemma {:induction false} ApproveExactly(w: World, admin: Id, id: Id, note: string, now: Time)
    requires id in w.contributions
    ensures var o, one := ContributionApproved(w, admin, id, note, now), Call(w.clink);
      var copy := C.Reviewed(w.contributions[id], C.Approved, admin, note, now);
      && (o.merged <==>
            && one.ok && w.contributions[id].status.Pending?
            && MergeContribution(w.d, w.wlink, copy, now).error.None?)
      && o.w.contributions == if o.merged && Call(one.link).applied then C.Write(w.contributions, id, copy)
        else w.contributions
  {
  }

  lemma {:induction false} StepLoses(env: S.Env, s: State, i: Issue, id: Id)
    ensures var t := StepTally(env, s, i, id); t.merges == t.writes + CountIf(WriteIsLost(s, i, id))
  {
    StepInOrder(env, s, i, id);
    var c := i.command;
    if c.Approve? && c.id == id && id in s.contributions {
      var copy := C.Reviewed(s.contributions[id], C.Approved, c.admin, c.note, i.now);
      ApproveExactly(WorldOf(s, i.links), c.admin, id, c.note, i.now);
      MergeIgnoresReview(s.d, i.links.words, copy, s.contributions[id], i.now);
    }
  }

  /**
   * Whatever fails, the merges of a contribution are its approved writes, of which there is at most one, and one more
   * for each approval whose status write was lost. So no approval merges without being recorded exactly when none was
   * lost, and the contribution is merged at most once exactly when lost and recorded approvals together are at most
   * one.
   */
  lemma {:induction false} MergedOnceIff(env: S.Env, s: State, trace: Trace, id: Id)
    ensures var t, lost := RunTally(env, s, trace, id), LostWrites(env, s, trace, id);
      && t.merges == t.writes + lost && t.writes <= 1
      && (t.merges == t.writes <==> lost == 0)
      && (t.merges <= 1 <==> lost == 0 || (lost == 1 && t.writes == 0))
    decreases |trace|
  {
    WriteOrdering(env, s, trace, id);
    if trace != [] {
      StepLoses(env, s, trace[0], id);
      MergedOnceIff(env, Step(env, s, trace[0]), trace[1..], id);
    }
  }

  /** No approval of the contribution loses its write exactly when, at every command of the run, the guard is false. */
  lemma {:induction false} NoneLostIff(env: S.Env, s: State, trace: Trace, id: Id)
    ensures LostWrites(env, s, trace, id) == 0
      <==> forall k | 0 <= k < |trace| :: !WriteIsLost(Run(env, s, trace[..k]), trace[k], id)
    decreases |trace|
  {
    if trace != [] {
      var s1, rest := Step(env, s, trace[0]), trace[1..];
      NoneLostIff(env, s1, rest, id);
      assert Run(env, s, trace[..0]) == s;
      forall k | 0 < k < |trace| ensures Run(env, s, trace[..k]) == Run(env, s1, rest[..k - 1])
        && trace[k] == rest[k - 1] {
        assert trace[..k][1..] == rest[..k - 1];
      }
      if forall k | 0 <= k < |trace| :: !WriteIsLost(Run(env, s, trace[..k]), trace[k], id) {
        forall k | 0 <= k < |rest| ensures !WriteIsLost(Run(env, s1, rest[..k]), rest[k], id) {
          assert !WriteIsLost(Run(env, s, trace[..k + 1]), trace[k + 1], id);
        }
      }
    }
  }

  // ---- what approvals do to the dictionary ----

  /**
   * The meaning that reaches the word w with a command: that of the contribution or the AI request it makes approved.
   */
  ghost function MeaningsOf(env: S.Env, s: State, i: Issue, w: Id): seq<string>
  {
    var s' := Step(env, s, i);
    if i.command.Approve? && IsApproved(s'.contributions, i.command.id)
      && !IsApproved(s.contributions, i.command.id) then
      Carried(OfContribution(s'.contributions[i.command.id], i.now), w)
    else if i.command.OnRequest? then E.MeaningsOf(RequestWorld(s, i.links), i.command.request, i.now, w)
    else []
  }

  ghost function MeaningsOfRun(env: S.Env, s: State, trace: Trace, w: Id): seq<string>
    decreases |trace|
  {
    if trace == [] then []
      else MeaningsOf(env, s, trace[0], w) + MeaningsOfRun(env, Step(env, s, trace[0]), trace[1..], w)
  }

  lemma ApprovalAppends(w: World, admin: Id, id: Id, note: string, now: Time, x: Id)
    requires w.clink.Up? && w.wlink.Up? && w.alink.Up?
    requires Valid(w.d) && Sorted(w.d, x) && id in w.contributions && w.contributions[id].status.Pending?
    ensures var o := ContributionApproved(w, admin, id, note, now);
      var copy := C.Reviewed(w.contributions[id], C.Approved, admin, note, now);
      var meanings := if IsApproved(o.w.contributions, id) then Carried(OfContribution(copy, now), x) else [];
      && (IsApproved(o.w.contributions, id) ==> o.w.contributions[id] == copy)
      && (|DefinitionsOf(w.d, x)| + |meanings| <= 0x7FFF ==>
            Valid(o.w.d) && Sorted(o.w.d, x) && Appended(w.d, o.w.d, x, meanings))
  {
    var copy := C.Reviewed(w.contributions[id], C.Approved, admin, note, now);
    var a := OfContribution(copy, now);
    if Carried(a, x) != [] {
      CarriedMerges(w.d, a, x);
    }
    SortedFits(w.d, x);
    if |DefinitionsOf(w.d, x)| + |Carried(a, x)| <= 0x7FFF {
      OneMerge(w.d, a, x);
    }
  }

  lemma StepAppends(env: S.Env, s: State, i: Issue, x: Id)
    requires i.links == GOOD && Valid(s.d) && Sorted(s.d, x)
    requires |DefinitionsOf(s.d, x)| + |MeaningsOf(env, s, i, x)| <= 0x7FFF
    ensures var s' := Step(env, s, i);
      Valid(s'.d) && Sorted(s'.d, x) && Appended(s.d, s'.d, x, MeaningsOf(env, s, i, x))
  {
    hide ContributionApproved, ContributionRejected, UserBanned, UserUnbanned, UserRoleChanged, E.After, S.After,
        E.MeaningsOf;
    var c := i.command;
    if c.Approve? && c.id in s.contributions && s.contributions[c.id].status.Pending? {
      ApprovalAppends(WorldOf(s, i.links), c.admin, c.id, c.note, i.now, x);
    } else if c.OnRequest? {
      E.CommandAppends(RequestWorld(s, i.links), c.request, i.now, x);
    } else {
      OthersMergeNothing(env, s, i);
    }
  }

  lemma ReviewMergesNothing(s: State, i: Issue)
    requires i.command.Reject? || (i.command.Approve?
      && (i.command.id !in s.contributions || !s.contributions[i.command.id].status.Pending?))
    ensures Moderate(s, i).w.d == s.d && (i.command.Approve? ==> Moderate(s, i).w.contributions == s.contributions)
  {
    hide MergeContribution;
  }

  lemma AccountMergesNothing(s: State, i: Issue)
    requires i.command.Ban? || i.command.Unban? || i.command.ChangeRole?
    ensures Moderate(s, i).w.d == s.d
  {
    hide ContributionApproved, ContributionRejected;
  }

  lemma OthersMergeNothing(env: S.Env, s: State, i: Issue)
    requires !i.command.OnRequest?
    requires i.command.Approve? ==>
      i.command.id !in s.contributions || !s.contributions[i.command.id].status.Pending?
    ensures Step(env, s, i).d == s.d && (i.command.Approve? ==> Step(env, s, i).contributions == s.contributions)
  {
    hide Moderate, E.After, S.After;
    if i.command.Approve? || i.command.Reject? {
      ReviewMergesNothing(s, i);
    } else if i.command.Ban? || i.command.Unban? || i.command.ChangeRole? {
      AccountMergesNothing(s, i);
    }
  }

  /**
   * When no call fails, a word numbered 1..n keeps its definitions, and gains one each time a command makes a
   * contribution or an AI request approved that carries a usable meaning to it, in the order of the approvals.
   * Nothing else adds any.
   */
  lemma {:induction false} ApprovalsReachTheDictionary(env: S.Env, s: State, trace: Trace, x: Id)
    requires AllGood(trace) && Valid(s.d) && Sorted(s.d, x)
    requires |DefinitionsOf(s.d, x)| + |MeaningsOfRun(env, s, trace, x)| <= 0x7FFF
    ensures var s' := Run(env, s, trace);
      Valid(s'.d) && Sorted(s'.d, x) && Appended(s.d, s'.d, x, MeaningsOfRun(env, s, trace, x))
    decreases |trace|
  {
    if trace != [] {
      var s1 := Step(env, s, trace[0]);
      assert trace[0].links == GOOD && AllGood(trace[1..]);
      StepAppends(env, s, trace[0], x);
      ApprovalsReachTheDictionary(env, s1, trace[1..], x);
      AppendedTwice(s.d, s1.d, Run(env, s, trace).d, x, MeaningsOf(env, s, trace[0], x),
                    MeaningsOfRun(env, s1, trace[1..], x));
    }
  }

  // ---- and what a failing status write does ----

  predicate ReadyToMerge(w: World, id: Id, copy: C.Contribution, now: Time)
  {
    && id in w.contributions && w.contributions[id].status.Pending? && w.wlink.Up? && w.alink.Up?
    && MergeContribution(w.d, Up, copy, now).error.None?
  }

  lemma FailingApproval(w: World, admin: Id, id: Id, now: Time, copy: C.Contribution)
    requires ReadyToMerge(w, id, copy, now) && w.clink == Good(Bad(false, Up))
    requires copy == C.Reviewed(w.contributions[id], C.Approved, admin, "", now)
    ensures var o := ContributionApproved(w, admin, id, "", now);
      && o.merged && o.w.contributions == w.contributions && o.w.log == w.log && o.w.users == w.users
      && o.w.d == MergeContribution(w.d, Up, copy, now).d
  {
    assert C.Decide(w.contributions[id], C.ApproveBy(admin, "", now)) == Ok(copy);
  }

  lemma GoodApproval(w: World, admin: Id, id: Id, now: Time, copy: C.Contribution)
    requires ReadyToMerge(w, id, copy, now) && w.clink == Up
    requires copy == C.Reviewed(w.contributions[id], C.Approved, admin, "", now)
    ensures var o := ContributionApproved(w, admin, id, "", now);
      && o.merged && o.w.contributions == w.contributions[id := copy]
      && o.w.log == w.log + [AuditEntry(admin, ApproveContribution, id)]
      && o.w.d == MergeContribution(w.d, Up, copy, now).d
  {
    assert C.Decide(w.contributions[id], C.ApproveBy(admin, "", now)) == Ok(copy);
  }

  /** An approval whose status write fails, and the same approval again. */
  function Retry(id: Id, admin: Id): Trace
  {
    [Issue(Approve(id, admin, ""), GOOD.(contributions := Good(Bad(false, Up))), 0),
     Issue(Approve(id, admin, ""), GOOD, 0)]
  }

  lemma RunTwo(env: S.Env, s: State, i: Issue, j: Issue, id: Id)
    ensures Run(env, s, [i, j]) == Step(env, Step(env, s, i), j)
    ensures var one, two := StepTally(env, s, i, id), StepTally(env, Step(env, s, i), j, id);
      RunTally(env, s, [i, j], id) == Tally(one.merges + two.merges, one.writes + two.writes, one.audits + two.audits)
  {
    var s1 := Step(env, s, i);
    assert [i, j][1..] == [j] && [j][1..] == [];
    assert Run(env, s, [i, j]) == Run(env, s1, [j]) == Run(env, Step(env, s1, j), []);
    assert RunTally(env, s1, [j], id) == StepTally(env, s1, j, id);
  }

  lemma FirstTry(env: S.Env, s: State, id: Id, admin: Id, copy: C.Contribution)
    requires ReadyToMerge(WorldOf(s, GOOD), id, copy, 0)
    requires copy == C.Reviewed(s.contributions[id], C.Approved, admin, "", 0)
    ensures var i := Retry(id, admin)[0];
      && Step(env, s, i) == s.(d := MergeContribution(s.d, Up, copy, 0).d)
      && StepTally(env, s, i, id) == Tally(1, 0, 0)
  {
    hide ContributionApproved, MergeContribution;
    var i := Retry(id, admin)[0];
    FailingApproval(WorldOf(s, i.links), admin, id, 0, copy);
  }

  lemma SecondTry(env: S.Env, s: State, id: Id, admin: Id, copy: C.Contribution)
    requires ReadyToMerge(WorldOf(s, GOOD), id, copy, 0)
    requires copy == C.Reviewed(s.contributions[id], C.Approved, admin, "", 0)
    ensures var j := Retry(id, admin)[1];
      && Step(env, s, j).d == MergeContribution(s.d, Up, copy, 0).d
      && StepTally(env, s, j, id) == Tally(1, 1, 1)
  {
    hide ContributionApproved, MergeContribution;
    GoodApproval(WorldOf(s, GOOD), admin, id, 0, copy);
    LogAppend(s.log, AuditEntry(admin, ApproveContribution, id), id);
  }

  /** The contribution is merged, stays pending, and is merged again when its approval is tried again. */
  lemma RetryMergesAgain(env: S.Env, s: State, id: Id, admin: Id, x: Id)
    requires Valid(s.d) && Sorted(s.d, x) && |DefinitionsOf(s.d, x)| + 2 <= 0x7FFF
    requires id in s.contributions && s.contributions[id].status.Pending?
    requires Carried(OfContribution(s.contributions[id], 0), x) != []
    ensures var meaning := Carried(OfContribution(s.contributions[id], 0), x)[0];
      && Appended(s.d, Run(env, s, Retry(id, admin)).d, x, [meaning, meaning])
      && RunTally(env, s, Retry(id, admin), id) == Tally(2, 1, 1)
  {
    hide Valid, Sorted, Step, StepTally;
    var meaning := Carried(OfContribution(s.contributions[id], 0), x)[0];
    var copy := C.Reviewed(s.contributions[id], C.Approved, admin, "", 0);
    var a := OfContribution(copy, 0);
    var d1 := Merge(s.d, Up, a).d;
    assert Carried(a, x) == [meaning];
    CarriedMerges(s.d, a, x);
    OneMerge(s.d, a, x);
    CarriedMerges(d1, a, x);
    OneMerge(d1, a, x);
    AppendedTwice(s.d, d1, Merge(d1, Up, a).d, x, [meaning], [meaning]);
    assert [meaning] + [meaning] == [meaning, meaning];
    FirstTry(env, s, id, admin, copy);
    SecondTry(env, s.(d := d1), id, admin, copy);
    RunTwo(env, s, Retry(id, admin)[0], Retry(id, admin)[1], id);
    assert Retry(id, admin) == [Retry(id, admin)[0], Retry(id, admin)[1]];
  }
}
