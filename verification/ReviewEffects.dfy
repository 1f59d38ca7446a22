/** What reviewing does to contributions and AI requests, told call by call and without the functions that decide it. */
module ReviewEffects {
  import opened Common
  import opened Dictionary
  import opened WordRepository
  import opened MergeEffects
  import opened Merges
  import A = AiRequests
  import C = Contributions
  import E = Enrichment
  import M = Moderation

  // ---- contributions ----

  /** Pending, and asked for by one who may: anyone reviews, only the contributor withdraws. */
  predicate MayBe(c: C.Contribution, decision: C.Decision)
  {
    c.status == C.Pending && (decision.WithdrawBy? ==> decision.caller == c.contributor)
  }

  /** What a decision leaves: the submission, with the status, reviewer, note and time that go with the decision. */
  predicate DecidedAs(c: C.Contribution, copy: C.Contribution, decision: C.Decision)
  {
    && copy.kind == c.kind && copy.contributor == c.contributor && copy.target == c.target && copy.payload == c.payload
    && match decision
      case ApproveBy(admin, note, at) =>
        copy.status == C.Approved && copy.reviewer == Some(admin) && copy.reviewedAt == Some(at)
        && copy.note == if |note| > 0 then Some(note) else c.note
      case RejectBy(admin, note, at) =>
        copy.status == C.Rejected && copy.reviewer == Some(admin) && copy.reviewedAt == Some(at)
        && copy.note == if |note| > 0 then Some(note) else c.note
      case WithdrawBy(_) =>
        copy.status == C.Withdrawn && copy.reviewer == c.reviewer && copy.reviewedAt == c.reviewedAt
        && copy.note == c.note
  }

  /** A decision is taken exactly when it may be; someone else's withdrawal is told apart. */
  lemma DecidedIff(c: C.Contribution, decision: C.Decision)
    ensures var r := C.Decide(c, decision);
      && (r.Ok? <==> MayBe(c, decision))
      && (r == Err(C.Forbidden) <==> decision.WithdrawBy? && decision.caller != c.contributor)
      && (r.Ok? ==> DecidedAs(c, r.value, decision))
  {
  }

  /** A submission is pending and unreviewed; all but a new word need a target. */
  lemma SubmittedIff(contributor: Id, kind: C.Kind, target: Option<Id>, payload: map<string, Json>)
    ensures var r := C.Submitted(contributor, kind, target, payload);
      && (r.Ok? <==> kind == C.NewWord || target != None)
      && (r.Ok? ==>
            && var c := r.value;
            && c.kind == kind && c.contributor == contributor && c.target == target && c.payload == payload
            && c.status == C.Pending && c.reviewer == None && c.note == None && c.reviewedAt == None)
  {
  }

  /** The decisions that end with a status, on a contribution of this contributor. */
  predicate LeadsTo(decision: C.Decision, status: C.Status, contributor: Id)
  {
    match decision
    case ApproveBy(_, _, _) => status == C.Approved
    case RejectBy(_, _, _) => status == C.Rejected
    case WithdrawBy(caller) => status == C.Withdrawn && caller == contributor
  }

  /** The status is the row's, or that of a copy in flight. */
  ghost predicate Around(s: C.State, id: Id, status: C.Status)
  {
    (id in s.rows && s.rows[id].status == status)
    || exists t | t in s.tasks :: s.tasks[t].id == id && s.tasks[t].copy.status == status
  }

  lemma StepNeedsDecision(s: C.State, a: C.Action, id: Id, status: C.Status, contributor: Id)
    requires C.Inv(s) && status != C.Pending && !Around(s, id, status)
    requires id in s.rows ==> s.rows[id].contributor == contributor
    requires a.Submit? && a.id == id ==> a.c.contributor == contributor
    requires !(a.Load? && a.id == id && LeadsTo(a.decision, status, contributor))
    ensures var s' := C.Step(s, a);
      !Around(s', id, status) && (id in s'.rows ==> s'.rows[id].contributor == contributor)
  {
    if a.Load? && id in s.rows {
      DecidedIff(s.rows[id], a.decision);
    }
  }

  /**
   * Under every interleaving a contribution becomes approved or rejected only by such a review of it, and withdrawn
   * only by a withdrawal of its own contributor.
   */
  lemma {:induction false} NeedsItsDecision(s: C.State, actions: seq<C.Action>, id: Id, status: C.Status,
                                            contributor: Id)
    requires C.Inv(s) && status != C.Pending && !Around(s, id, status)
    requires id in s.rows ==> s.rows[id].contributor == contributor
    requires forall k | 0 <= k < |actions| ::
      && (actions[k].Submit? && actions[k].id == id ==> actions[k].c.contributor == contributor)
      && !(actions[k].Load? && actions[k].id == id && LeadsTo(actions[k].decision, status, contributor))
    ensures var s' := C.Run(s, actions); id in s'.rows ==> s'.rows[id].status != status
    decreases |actions|
  {
    hide LeadsTo;
    if actions != [] {
      C.StepKeepsInv(s, actions[0]);
      StepNeedsDecision(s, actions[0], id, status, contributor);
      NeedsItsDecision(C.Step(s, actions[0]), actions[1..], id, status, contributor);
    }
  }

  /** A row that was decided on, and every other as it was. */
  ghost predicate OnlyDecided(rows: C.Table, rows': C.Table, id: Id, decision: C.Decision)
    requires id in rows
  {
    && rows'.Keys == rows.Keys && (forall x | x in rows && x != id :: rows'[x] == rows[x])
    && DecidedAs(rows[id], rows'[id], decision)
  }

  lemma WrittenIsDecided(rows: C.Table, id: Id, decision: C.Decision)
    requires id in rows && C.Decide(rows[id], decision).Ok?
    ensures OnlyDecided(rows, C.Write(rows, id, C.Decide(rows[id], decision).value), id, decision)
  {
  }

  /** A withdrawal or review on its own does it exactly when it may, and nothing otherwise. */
  lemma CommandIff(rows: C.Table, id: Id, decision: C.Decision)
    ensures var rows' := C.Command(rows, id, decision);
      if id in rows && MayBe(rows[id], decision) then OnlyDecided(rows, rows', id, decision) else rows' == rows
  {
    if id in rows && MayBe(rows[id], decision) {
      WrittenIsDecided(rows, id, decision);
    }
  }

  // ---- approving and rejecting contributions, over any links ----

  /** The contribution is loaded, and pending. */
  predicate LoadsPending(w: M.World, id: Id)
  {
    Call(w.clink).ok && id in w.contributions && w.contributions[id].status == C.Pending
  }

  /** What an approval's merge does: that of the contribution as it is stored, whoever approves it. */
  function MergeOf(w: M.World, id: Id, now: Time): Merged
    requires id in w.contributions
  {
    MergeContribution(w.d, w.wlink, w.contributions[id], now)
  }

  lemma {:induction false} MergeIsTheContributions(d: Dict, link: Link, c: C.Contribution, copy: C.Contribution,
                                                   decision: C.Decision, now: Time)
    requires DecidedAs(c, copy, decision)
    ensures MergeContribution(d, link, copy, now) == MergeContribution(d, link, c, now)
  {
    assert EditOf(copy) == EditOf(c);
  }

  /**
   * An approval loads a pending contribution, merges it, writes the status and logs the approval, each only if what
   * comes before it went well; what was done before a failure stays.
   */
  lemma ApprovedExactly(w: M.World, admin: Id, id: Id, note: string, now: Time)
    ensures var o, write := M.ContributionApproved(w, admin, id, note, now), Call(Call(w.clink).link);
      var merged := LoadsPending(w, id) && MergeOf(w, id, now).error.None?;
      && o.merged == merged
      && (o.error.None? <==> merged && write.ok && Call(w.alink).ok)
      && (o.error == Some(M.ContributionNotFound) <==> !Call(w.clink).ok || id !in w.contributions)
      && (o.error == Some(M.ContributionConflict) <==>
          Call(w.clink).ok && id in w.contributions && w.contributions[id].status != C.Pending)
      && (LoadsPending(w, id) && MergeOf(w, id, now).error.Some? ==>
          o.error == Some(M.MergeFailed(MergeOf(w, id, now).error.value)))
      && o.w.d == (if LoadsPending(w, id) then MergeOf(w, id, now).d else w.d)
      && (if merged && write.applied
            then OnlyDecided(w.contributions, o.w.contributions, id, C.ApproveBy(admin, note, now))
          else o.w.contributions == w.contributions)
      && o.w.log == (if merged && write.ok && Call(w.alink).applied
                       then w.log + [M.AuditEntry(admin, M.ApproveContribution, id)] else w.log)
      && o.w.users == w.users
  {
    hide MergeContribution;
    if LoadsPending(w, id) {
      var decision := C.ApproveBy(admin, note, now);
      DecidedIff(w.contributions[id], decision);
      var copy := C.Decide(w.contributions[id], decision).value;
      WrittenIsDecided(w.contributions, id, decision);
      MergeIsTheContributions(w.d, w.wlink, w.contributions[id], copy, decision, now);
    }
  }

  /** A rejection needs a note; it touches no word. */
  lemma RejectedExactly(w: M.World, admin: Id, id: Id, note: string, now: Time)
    ensures var o, write := M.ContributionRejected(w, admin, id, note, now), Call(Call(w.clink).link);
      var loads := |note| > 0 && LoadsPending(w, id);
      && (o.error == Some(M.NoteRequired) <==> note == "")
      && (o.error.None? <==> loads && write.ok && Call(w.alink).ok)
      && (o.error == Some(M.ContributionNotFound) <==>
          note != "" && (!Call(w.clink).ok || id !in w.contributions))
      && (o.error == Some(M.ContributionConflict) <==>
          note != "" && Call(w.clink).ok && id in w.contributions && w.contributions[id].status != C.Pending)
      && (if loads && write.applied
            then OnlyDecided(w.contributions, o.w.contributions, id, C.RejectBy(admin, note, now))
          else o.w.contributions == w.contributions)
      && o.w.log == (if loads && write.ok && Call(w.alink).applied
                       then w.log + [M.AuditEntry(admin, M.RejectContribution(note), id)] else w.log)
      && o.w.d == w.d && o.w.users == w.users
  {
    if LoadsPending(w, id) {
      DecidedIff(w.contributions[id], C.RejectBy(admin, note, now));
      WrittenIsDecided(w.contributions, id, C.RejectBy(admin, note, now));
    }
  }

  // ---- AI requests ----

  /** An approval is for anything but a quality check, not approved yet; a rejection for anything not rejected yet. */
  predicate MayBeJudged(r: A.Request, verdict: A.Verdict)
  {
    if verdict == A.Approve then r.kind != A.QualityCheck && r.review != A.Approved else r.review != A.Rejected
  }

  /** The request with its review, the reviewer and the time, and otherwise as it was. */
  predicate JudgedAs(r: A.Request, copy: A.Request, verdict: A.Verdict, admin: Id, at: Time)
  {
    && copy.review == (if verdict == A.Approve then A.Approved else A.Rejected)
    && copy.reviewedBy == Some(admin) && copy.reviewedAt == Some(at)
    && copy.(review := r.review, reviewedBy := r.reviewedBy, reviewedAt := r.reviewedAt) == r
  }

  lemma JudgedIff(r: A.Request, verdict: A.Verdict, admin: Id, at: Time)
    ensures var judged := A.Judge(r, verdict, admin, at);
      && (judged.Ok? <==> MayBeJudged(r, verdict))
      && (judged == Err(A.CannotApproveQualityCheck) <==> verdict == A.Approve && r.kind == A.QualityCheck)
      && (judged.Ok? ==> JudgedAs(r, judged.value, verdict, admin, at))
  {
  }

  /** The request with its answer: completed with response and extract, or failed with the error. */
  predicate AnsweredAs(r: A.Request, copy: A.Request, model: string, decode: string -> Option<A.Document>,
                       completion: E.Completion)
  {
    match completion
    case LlmFailure(message) =>
      && copy.status == A.Failed && copy.parsed == r.parsed
      && copy.response == Some(map["model" := Str(model), "error" := Str(message)])
      && copy.(status := r.status, response := r.response) == r
    case LlmText(content, writer) =>
      if r.status != A.Pending then copy == r
      else
        && copy.status == A.Completed && copy.parsed == decode(E.Trimmed(content))
        && copy.response == Some(map["model" := Str(writer), "content" := Str(content)])
        && copy.(status := r.status, response := r.response, parsed := r.parsed) == r
  }

  /** The goroutine loads its request and writes it back with the answer, if the calls go well; nothing else changes. */
  lemma RanExactly(w: E.World, id: Id, model: string, decode: string -> Option<A.Document>, completion: E.Completion)
    ensures var w', write := E.Ran(w, id, E.AnswerOf(model, decode, completion)), Call(Call(w.rlink).link);
      && w'.runners == w.runners - {id} && w'.d == w.d && w'.log == w.log
      && (if Call(w.rlink).ok && id in w.requests && write.applied then
            && w'.requests.Keys == w.requests.Keys
            && (forall x | x in w.requests && x != id :: w'.requests[x] == w.requests[x])
            && AnsweredAs(w.requests[id], w'.requests[id], model, decode, completion)
          else w'.requests == w.requests)
  {
  }

  /** A new request: pending and unreviewed, with what was asked, by whom and when. */
  predicate IsAsked(r: A.Request, kind: A.Kind, word: Option<Id>, contribution: Option<Id>, admin: Id, model: string,
                    prompt: string, now: Time)
  {
    && r.kind == kind && r.targetWord == word && r.targetContribution == contribution && r.requestedBy == admin
    && r.model == model && r.prompt == prompt && r.createdAt == now && r.status == A.Pending
    && r.review == A.Unreviewed && r.response == None && r.parsed == None && r.reviewedBy == None
    && r.reviewedAt == None
  }

  lemma AskedIs(kind: A.Kind, word: Option<Id>, contribution: Option<Id>, admin: Id, model: string, prompt: string,
                now: Time, r: A.Request)
    ensures r == A.NewRequest(kind, word, contribution, admin, model, prompt, now)
      <==> IsAsked(r, kind, word, contribution, admin, model, prompt, now)
  {
  }

  // ---- approving and rejecting AI requests, over any links ----

  ghost predicate OnlyJudged(rows: A.Table, rows': A.Table, id: Id, verdict: A.Verdict, admin: Id, at: Time)
    requires id in rows
  {
    && rows'.Keys == rows.Keys && (forall x | x in rows && x != id :: rows'[x] == rows[x])
    && JudgedAs(rows[id], rows'[id], verdict, admin, at)
  }

  lemma WrittenIsJudged(rows: A.Table, id: Id, verdict: A.Verdict, admin: Id, at: Time)
    requires id in rows && A.Judge(rows[id], verdict, admin, at).Ok?
    ensures OnlyJudged(rows, A.Write(rows, id, A.Judge(rows[id], verdict, admin, at).value), id, verdict, admin, at)
  {
  }

  predicate LoadsOpen(w: E.World, verdict: A.Verdict, id: Id)
  {
    Call(w.rlink).ok && id in w.requests && MayBeJudged(w.requests[id], verdict)
  }

  /** An approval merges the stored answer; a rejection merges nothing. */
  function ReviewMerge(w: E.World, verdict: A.Verdict, id: Id, now: Time): Merged
    requires id in w.requests
  {
    if verdict == A.Approve then MergeAnswer(w.d, w.wlink, w.requests[id], now) else Merged(w.d, None, w.wlink)
  }

  lemma MergeIsTheAnswers(d: Dict, link: Link, r: A.Request, copy: A.Request, verdict: A.Verdict, admin: Id, now: Time)
    requires JudgedAs(r, copy, verdict, admin, now)
    ensures MergeAnswer(d, link, copy, now) == MergeAnswer(d, link, r, now)
  {
  }

  /**
   * A review loads its request, merges the answer if it approves, writes the review and logs it, each only if what
   * comes before went well; the log's failure is ignored.
   */
  lemma ReviewedExactly(w: E.World, verdict: A.Verdict, admin: Id, id: Id, now: Time)
    ensures var o, write := E.ReviewCommand(w, verdict, admin, id, now), Call(Call(w.rlink).link);
      var loads := LoadsOpen(w, verdict, id);
      var merged := loads && ReviewMerge(w, verdict, id, now).error.None?;
      var event := if verdict == A.Approve then M.ApproveAi else M.RejectAi;
      && (o.error.None? <==> merged && write.ok)
      && (o.error == Some(E.RequestNotFound) <==> !Call(w.rlink).ok || id !in w.requests)
      && (o.error == Some(E.Conflict) <==>
          Call(w.rlink).ok && id in w.requests && !MayBeJudged(w.requests[id], verdict))
      && o.w.d == (if loads then ReviewMerge(w, verdict, id, now).d else w.d)
      && (if merged && write.applied then OnlyJudged(w.requests, o.w.requests, id, verdict, admin, now)
          else o.w.requests == w.requests)
      && o.w.log == (if merged && write.ok && Call(w.alink).applied
                       then w.log + [M.AuditEntry(admin, event, id)] else w.log)
      && o.w.runners == w.runners && o.w.contributions == w.contributions
  {
    hide MergeAnswer;
    if id in w.requests {
      JudgedIff(w.requests[id], verdict, admin, now);
      if LoadsOpen(w, verdict, id) {
        var copy := A.Judge(w.requests[id], verdict, admin, now).value;
        WrittenIsJudged(w.requests, id, verdict, admin, now);
        MergeIsTheAnswers(w.d, w.wlink, w.requests[id], copy, verdict, admin, now);
      }
    }
  }

  // ---- an approval, from the payload to the word ----

  /** Approving a suggested example succeeds only with the example under the word, as the model's. */
  lemma SuggestionApproved(w: E.World, admin: Id, id: Id, now: Time, x: Id, sentence: string, translation: string)
    requires Valid(w.d) && id in w.requests && E.AiApproved(w, admin, id, now).error.None?
    requires var r := w.requests[id];
      && r.kind.SuggestExample? && r.targetWord == Some(x) && r.parsed.Some? && sentence != ""
      && Says(r.parsed.value, "banjar_sentence", sentence)
      && Says(r.parsed.value, "indonesian_translation", translation)
    ensures Visible(w.d, x)
    ensures var o, was := E.AiApproved(w, admin, id, now), Found(w.d, x).value;
      && id in o.w.requests && o.w.requests[id].review == A.Approved
      && Becomes(w.d, o.w.d, x, Untouched(was.columns, now).(source := AiGenerated), [],
                 [Example(w.d.nextId, sentence, translation, AiGenerated)])
  {
    hide MergeAnswer, Becomes, E.AiApproved;
    ReviewedIsApproved(w, admin, id, now);
    ReviewedExactly(w, A.Approve, admin, id, now);
    ExampleAnswered(w.d, w.wlink, w.requests[id], now, x, sentence, translation);
  }

  lemma ReviewedIsApproved(w: E.World, admin: Id, id: Id, now: Time)
    ensures E.ReviewCommand(w, A.Approve, admin, id, now) == E.AiApproved(w, admin, id, now)
  {
  }

  /** Approving a change of a word succeeds only with the word spelled, syllabified and classed as the payload says. */
  lemma EditApproved(w: M.World, admin: Id, id: Id, note: string, now: Time, banjar: string, code: string)
    requires Valid(w.d) && id in w.contributions && w.contributions[id].kind.EditWord?
    requires Says(w.contributions[id].payload, "banjar", banjar)
    requires Says(w.contributions[id].payload, "word_class", code)
    requires M.ContributionApproved(w, admin, id, note, now).error.None?
    ensures w.contributions[id].target.Some? && Visible(w.d, w.contributions[id].target.value)
    ensures var c, o := w.contributions[id], M.ContributionApproved(w, admin, id, note, now);
      var was, r := Found(w.d, c.target.value).value.columns, Found(o.w.d, c.target.value);
      && id in o.w.contributions && o.w.contributions[id].status == C.Approved && r.Some?
      && r.value.columns.banjar == (if banjar == "" then was.banjar else banjar)
      && r.value.columns.syllabified
         == (if "banjar_syllabified" in c.payload && c.payload["banjar_syllabified"].Str?
               then c.payload["banjar_syllabified"].text else was.syllabified)
      && (code == "" ==> r.value.columns.wordClass == was.wordClass)
      && (code != "" ==> WordClassCode(code) == Some(r.value.columns.wordClass))
  {
    hide MergeContribution, M.ContributionApproved, Becomes;
    ApprovedExactly(w, admin, id, note, now);
    WordEdited(w.d, w.wlink, w.contributions[id], now, banjar, code);
  }
}
