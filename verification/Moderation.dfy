/**
 * internal/moderation: reviewing contributions and moderating users, with an audit log. No command is a transaction.
 */
module Moderation {
  import opened Common
  import opened Dictionary
  import opened WordRepository
  import opened Merges
  import C = Contributions
  import I = Identity

  datatype Event =
    | ApproveContribution | RejectContribution(note: string)
    | BanUser(reason: string) | UnbanUser | ChangeRole(role: I.Role)
    | ApproveAi | RejectAi

  datatype AuditEntry = AuditEntry(actor: Id, event: Event, target: Id)

  class AuditRepository {
    var log: seq<AuditEntry>
    var link: Link

    method CreateAuditLog(entry: AuditEntry) returns (ok: bool)
      modifies this
      ensures var reply := Call(old(link));
        ok == reply.ok && link == reply.link && log == if reply.applied then old(log) + [entry] else old(log)
    {
      var reply := Call(link);
      link := reply.link;
      if reply.applied {
        log := log + [entry];
      }
      ok := reply.ok;
    }
  }

  datatype Error =
    | ContributionNotFound | ContributionConflict | NoteRequired | MergeFailed(error: MergeError)
    | UserNotFound | CannotBanAdmin | CannotSelfDemote | InvalidRole | CallFailed

  /** The four stores and the links to them. */
  datatype World = World(
    contributions: C.Table, clink: Link, d: Dict, wlink: Link, users: I.Table, ulink: Link, log: seq<AuditEntry>,
        alink: Link)

  /** How a command ended, and whether it had merged something into the dictionary. */
  datatype Outcome = Outcome(w: World, error: Option<Error>, merged: bool)

  // ---- the commands, call by call ----

  function Logged(w: World, entry: AuditEntry, merged: bool): Outcome
  {
    var reply := Call(w.alink);
    Outcome(w.(log := if reply.applied then w.log + [entry] else w.log, alink := reply.link),
            if reply.ok then None else Some(CallFailed), merged)
  }

  /** The status write, then the audit entry. */
  function Settled(w: World, id: Id, copy: C.Contribution, entry: AuditEntry, merged: bool): Outcome
    requires id in w.contributions
  {
    var reply := Call(w.clink);
    var rows := if reply.applied then C.Write(w.contributions, id, copy) else w.contributions;
    var w1 := w.(contributions := rows, clink := reply.link);
    if !reply.ok then Outcome(w1, Some(CallFailed), merged) else Logged(w1, entry, merged)
  }

  function ContributionApproved(w: World, admin: Id, id: Id, note: string, now: Time): Outcome
  {
    var reply := Call(w.clink);
    var w1 := w.(clink := reply.link);
    if !reply.ok || id !in w.contributions then Outcome(w1, Some(ContributionNotFound), false)
    else
      var decided := C.Decide(w.contributions[id], C.ApproveBy(admin, note, now));
      if decided.Err? then Outcome(w1, Some(ContributionConflict), false)
      else
        var merge := MergeContribution(w.d, w.wlink, decided.value, now);
        var w2 := w1.(d := merge.d, wlink := merge.link);
        if merge.error.Some? then Outcome(w2, Some(MergeFailed(merge.error.value)), false)
        else Settled(w2, id, decided.value, AuditEntry(admin, ApproveContribution, id), true)
  }

  function ContributionRejected(w: World, admin: Id, id: Id, note: string, now: Time): Outcome
  {
    if note == "" then Outcome(w, Some(NoteRequired), false)
    else
      var reply := Call(w.clink);
      var w1 := w.(clink := reply.link);
      if !reply.ok || id !in w.contributions then Outcome(w1, Some(ContributionNotFound), false)
      else
        var decided := C.Decide(w.contributions[id], C.RejectBy(admin, note, now));
        if decided.Err? then Outcome(w1, Some(ContributionConflict), false)
        else Settled(w1, id, decided.value, AuditEntry(admin, RejectContribution(note), id), false)
  }

  /** The account's write, then the audit entry. */
  function Moderated(w: World, id: Id, copy: I.UserRow, entry: AuditEntry, now: Time): Outcome
    requires id in w.users
  {
    var reply := Call(w.ulink);
    var users := if reply.applied then w.users[id := I.Overwrite(w.users[id], copy, now)] else w.users;
    var w1 := w.(users := users, ulink := reply.link);
    if !reply.ok then Outcome(w1, Some(CallFailed), false) else Logged(w1, entry, false)
  }

  function UserBanned(w: World, admin: Id, target: Id, reason: string, now: Time): Outcome
  {
    var reply := Call(w.ulink);
    var w1 := w.(ulink := reply.link);
    if !reply.ok || target !in w.users then Outcome(w1, Some(UserNotFound), false)
    else if w.users[target].role.Admin? then Outcome(w1, Some(CannotBanAdmin), false)
    else Moderated(w1, target, I.Banned(w.users[target], now), AuditEntry(admin, BanUser(reason), target), now)
  }

  function UserUnbanned(w: World, admin: Id, target: Id, now: Time): Outcome
  {
    var reply := Call(w.ulink);
    var w1 := w.(ulink := reply.link);
    if !reply.ok || target !in w.users then Outcome(w1, Some(UserNotFound), false)
    else Moderated(w1, target, I.Unbanned(w.users[target], now), AuditEntry(admin, UnbanUser, target), now)
  }

  function RoleCode(s: string): Option<I.Role>
  {
    match s
    case "user" => Some(I.Member)
    case "admin" => Some(I.Admin)
    case _ => None
  }

  function UserRoleChanged(w: World, admin: Id, target: Id, role: string, now: Time): Outcome
  {
    if RoleCode(role).None? then Outcome(w, Some(InvalidRole), false)
    else if admin == target then Outcome(w, Some(CannotSelfDemote), false)
    else
      var reply := Call(w.ulink);
      var w1 := w.(ulink := reply.link);
      if !reply.ok || target !in w.users then Outcome(w1, Some(UserNotFound), false)
      else
        var r := RoleCode(role).value;
        Moderated(w1, target, I.Promoted(w.users[target], r, now), AuditEntry(admin, ChangeRole(r), target), now)
  }

  // ---- the code ----

  class ModerationService {
    const modRepo: AuditRepository
    const contribs: C.Repository
    const words: PostgresWordRepository
    const users: I.UserRepository

    function State(): World
      reads contribs, words.q, users, modRepo
    {
      World(contribs.rows, contribs.link, words.q.d, words.q.link, users.users, users.link, modRepo.log, modRepo.link)
    }

    constructor (modRepo: AuditRepository, contribs: C.Repository, words: PostgresWordRepository,
                 users: I.UserRepository)
      ensures this.modRepo == modRepo && this.contribs == contribs && this.words == words && this.users == users
    {
      this.modRepo, this.contribs, this.words, this.users := modRepo, contribs, words, users;
    }

    method ApproveContribution(admin: Id, id: Id, note: string, now: Time) returns (error: Option<Error>)
      modifies contribs, words.q, modRepo
      ensures var done := ContributionApproved(old(State()), admin, id, note, now);
        State() == done.w && error == done.error
    {
      var c := contribs.FindByID(id);
      if c == null {
        return Some(ContributionNotFound);
      }
      var refused := c.Approve(admin, note, now);
      if refused.Some? {
        return Some(ContributionConflict);
      }
      var failed := MergeContribution(c, now);
      if failed.Some? {
        return Some(MergeFailed(failed.value));
      }
      var ok := contribs.Update(id, c);
      if !ok {
        return Some(CallFailed);
      }
      ok := modRepo.CreateAuditLog(AuditEntry(admin, Event.ApproveContribution, id));
      error := if ok then None else Some(CallFailed);
    }

    method RejectContribution(admin: Id, id: Id, note: string, now: Time) returns (error: Option<Error>)
      modifies contribs, modRepo
      ensures var done := ContributionRejected(old(State()), admin, id, note, now);
        State() == done.w && error == done.error
    {
      if note == "" {
        return Some(NoteRequired);
      }
      var c := contribs.FindByID(id);
      if c == null {
        return Some(ContributionNotFound);
      }
      var refused := c.Reject(admin, note, now);
      if refused.Some? {
        return Some(ContributionConflict);
      }
      var ok := contribs.Update(id, c);
      if !ok {
        return Some(CallFailed);
      }
      ok := modRepo.CreateAuditLog(AuditEntry(admin, Event.RejectContribution(note), id));
      error := if ok then None else Some(CallFailed);
    }

    method MergeContribution(c: C.Aggregate, now: Time) returns (error: Option<MergeError>)
      modifies words.q
      ensures Merges.MergeContribution(old(words.q.d), old(words.q.link), c.Value(), now)
        == Merged(words.q.d, error, words.q.link)
    {
      match c.kind
      case NewWord => error := MergeNewWord(c, now);
      case NewDefinition => error := MergeNewDefinition(c, now);
      case NewExample => error := MergeNewExample(c, now);
      case EditWord => error := MergeEditWord(c, now);
    }

    method MergeNewWord(c: C.Aggregate, now: Time) returns (error: Option<MergeError>)
      modifies words.q
      ensures Merges.MergeNewWord(old(words.q.d), old(words.q.link), c.Value(), now)
        == Merged(words.q.d, error, words.q.link)
    {
      var banjar, code := StringAt(c.payload, "banjar"), StringAt(c.payload, "word_class");
      if banjar == "" || code == "" {
        return Some(InvalidPayload);
      }
      var wordClass := WordClassCode(code);
      if wordClass.None? {
        return Some(InvalidWordClass);
      }
      var id := words.q.NewId();
      var word := new WordAggregate(NewWord(id, banjar, wordClass.value, now));
      word.columns := word.columns.(
        source := Contributed, createdBy := Some(c.contributor),
            syllabified := StringAt(c.payload, "banjar_syllabified"));
      AddDefinitions(word, ItemsAt(c.payload, "definitions"), now);
      AddExamples(word, ItemsAt(c.payload, "examples"), now);
      ghost var draft := Draft(word.Value(), words.q.d.nextId);
      assert draft == DraftWord(c.payload, wordClass.value, c.contributor, id, now);
      var failed := words.Create(word, now);
      NewWordSteps(old(words.q.d), old(words.q.link), c.Value(), now, draft, Done(words.q.d, failed, words.q.link));
      error := if failed.Some? then Some(StoreFailed(failed.value)) else None;
    }

    method AddDefinitions(word: WordAggregate, items: seq<Json>, now: Time)
      modifies word, words.q`d
      ensures words.q.d == old(words.q.d).(nextId := words.q.d.nextId)
      ensures Draft(word.Value(), words.q.d.nextId)
        == DraftDefinitions(Draft(old(word.Value()), old(words.q.d.nextId)), items, |items|, now)
    {
      for i := 0 to |items|
        invariant words.q.d == old(words.q.d).(nextId := words.q.d.nextId)
        invariant Draft(word.Value(), words.q.d.nextId)
          == DraftDefinitions(Draft(old(word.Value()), old(words.q.d.nextId)), items, i, now)
      {
        var meaning := FieldOf(items[i], "meaning");
        if meaning != "" {
          var ok := word.AddDefinition(words.q.d.nextId, meaning, i + 1, now);
          if ok {
            var _ := words.q.NewId();
          }
        }
      }
    }

    method AddExamples(word: WordAggregate, items: seq<Json>, now: Time)
      modifies word, words.q`d
      ensures words.q.d == old(words.q.d).(nextId := words.q.d.nextId)
      ensures Draft(word.Value(), words.q.d.nextId)
        == DraftExamples(Draft(old(word.Value()), old(words.q.d.nextId)), items, |items|, now)
    {
      for i := 0 to |items|
        invariant words.q.d == old(words.q.d).(nextId := words.q.d.nextId)
        invariant Draft(word.Value(), words.q.d.nextId)
          == DraftExamples(Draft(old(word.Value()), old(words.q.d.nextId)), items, i, now)
      {
        var sentence := FieldOf(items[i], "banjar_sentence");
        if sentence != "" {
          var child := words.q.NewId();
          word.AddExample(child, sentence, FieldOf(items[i], "indonesian_translation"), now);
        }
      }
    }

    method MergeNewDefinition(c: C.Aggregate, now: Time) returns (error: Option<MergeError>)
      requires c.kind.NewDefinition?
      modifies words.q
      ensures MergeEdit(old(words.q.d), old(words.q.link), c.target, EditOf(c.Value()), now)
        == Merged(words.q.d, error, words.q.link)
    {
      hide Updated, FoundOver;
      if c.target.None? {
        return Some(InvalidPayload);
      }
      var meaning := StringAt(c.payload, "meaning");
      if meaning == "" {
        return Some(InvalidPayload);
      }
      var word, missing := words.FindByID(c.target.value);
      if word == null {
        return Some(WordNotFound);
      }
      ghost var was, link, edit := word.Value(), words.q.link, AddDefinition(meaning, false);
      var ok := word.AddDefinition(words.q.d.nextId, meaning, |word.definitions| + 1, now);
      if !ok {
        return Some(MeaningTooLong);
      }
      var _ := words.q.NewId();
      var failed := words.Update(word, now);
      EditSteps(old(words.q.d), old(words.q.link), c.target.value, edit, now, was, link, word.Value(),
                Done(words.q.d, failed, words.q.link));
      error := if failed.Some? then Some(StoreFailed(failed.value)) else None;
    }

    method MergeNewExample(c: C.Aggregate, now: Time) returns (error: Option<MergeError>)
      requires c.kind.NewExample?
      modifies words.q
      ensures MergeEdit(old(words.q.d), old(words.q.link), c.target, EditOf(c.Value()), now)
        == Merged(words.q.d, error, words.q.link)
    {
      hide Updated, FoundOver;
      if c.target.None? {
        return Some(InvalidPayload);
      }
      var sentence := StringAt(c.payload, "banjar_sentence");
      if sentence == "" {
        return Some(InvalidPayload);
      }
      var word, missing := words.FindByID(c.target.value);
      if word == null {
        return Some(WordNotFound);
      }
      ghost var was, link, edit := word.Value(), words.q.link, EditOf(c.Value()).value;
      var id := words.q.NewId();
      word.AddExample(id, sentence, StringAt(c.payload, "indonesian_translation"), now);
      var failed := words.Update(word, now);
      EditSteps(old(words.q.d), old(words.q.link), c.target.value, edit, now, was, link, word.Value(),
                Done(words.q.d, failed, words.q.link));
      error := if failed.Some? then Some(StoreFailed(failed.value)) else None;
    }

    method MergeEditWord(c: C.Aggregate, now: Time) returns (error: Option<MergeError>)
      requires c.kind.EditWord?
      modifies words.q
      ensures MergeEdit(old(words.q.d), old(words.q.link), c.target, EditOf(c.Value()), now)
        == Merged(words.q.d, error, words.q.link)
    {
      hide Updated, FoundOver;
      if c.target.None? {
        return Some(InvalidPayload);
      }
      var word, missing := words.FindByID(c.target.value);
      if word == null {
        return Some(WordNotFound);
      }
      ghost var was, link, edit := word.Value(), words.q.link, EditOf(c.Value()).value;
      var banjar, code := StringAt(c.payload, "banjar"), StringAt(c.payload, "word_class");
      if banjar != "" {
        word.columns := word.columns.(banjar := banjar);
      }
      if "banjar_syllabified" in c.payload && c.payload["banjar_syllabified"].Str? {
        word.columns := word.columns.(syllabified := c.payload["banjar_syllabified"].text);
      }
      if code != "" {
        var wordClass := WordClassCode(code);
        if wordClass.None? {
          return Some(InvalidWordClass);
        }
        word.columns := word.columns.(wordClass := wordClass.value);
      }
      var failed := words.Update(word, now);
      EditSteps(old(words.q.d), old(words.q.link), c.target.value, edit, now, was, link, word.Value(),
                Done(words.q.d, failed, words.q.link));
      error := if failed.Some? then Some(StoreFailed(failed.value)) else None;
    }

    method BanUser(admin: Id, target: Id, reason: string, now: Time) returns (error: Option<Error>)
      modifies users, modRepo
      ensures var done := UserBanned(old(State()), admin, target, reason, now); State() == done.w && error == done.error
    {
      var user, missing := users.FindByID(target);
      if user == null {
        return Some(UserNotFound);
      }
      if user.role == I.Admin {
        return Some(CannotBanAdmin);
      }
      user.Ban(now);
      var ok := users.Update(user, now);
      if !ok {
        return Some(CallFailed);
      }
      ok := modRepo.CreateAuditLog(AuditEntry(admin, Event.BanUser(reason), target));
      error := if ok then None else Some(CallFailed);
    }

    method UnbanUser(admin: Id, target: Id, now: Time) returns (error: Option<Error>)
      modifies users, modRepo
      ensures var done := UserUnbanned(old(State()), admin, target, now); State() == done.w && error == done.error
    {
      var user, missing := users.FindByID(target);
      if user == null {
        return Some(UserNotFound);
      }
      user.Unban(now);
      var ok := users.Update(user, now);
      if !ok {
        return Some(CallFailed);
      }
      ok := modRepo.CreateAuditLog(AuditEntry(admin, Event.UnbanUser, target));
      error := if ok then None else Some(CallFailed);
    }

    method ChangeUserRole(admin: Id, target: Id, role: string, now: Time) returns (error: Option<Error>)
      modifies users, modRepo
      ensures var done := UserRoleChanged(old(State()), admin, target, role, now);
        State() == done.w && error == done.error
    {
      var code := RoleCode(role);
      if code.None? {
        return Some(InvalidRole);
      }
      if admin == target {
        return Some(CannotSelfDemote);
      }
      var user, missing := users.FindByID(target);
      if user == null {
        return Some(UserNotFound);
      }
      user.Promote(code.value, now);
      var ok := users.Update(user, now);
      if !ok {
        return Some(CallFailed);
      }
      ok := modRepo.CreateAuditLog(AuditEntry(admin, ChangeRole(code.value), target));
      error := if ok then None else Some(CallFailed);
    }
  }
}
