/** internal/ai: enrichment requests, the goroutine that answers each, and their reviews. */
module AiRequests {
  import opened Common

  datatype Kind = EnrichDefinition | SuggestExample | SuggestRelated | QualityCheck

  datatype Status = Pending | Completed | Failed

  datatype Review = Unreviewed | Approved | Rejected

  type Document = map<string, Json>

  datatype Request = Request(
    kind: Kind, targetWord: Option<Id>, targetContribution: Option<Id>, requestedBy: Id, model: string, prompt: string,
    createdAt: Time,
    response: Option<Document>, parsed: Option<Document>, status: Status,
    review: Review, reviewedBy: Option<Id>, reviewedAt: Option<Time>)

  datatype DomainError = CannotApproveQualityCheck | InvalidTransition

  // ---- the aggregate ----

  function NewRequest(kind: Kind, targetWord: Option<Id>, targetContribution: Option<Id>, requestedBy: Id,
                      model: string,
                      prompt: string, now: Time): Request
  {
    Request(kind, targetWord, targetContribution, requestedBy, model, prompt, now, None, None, Pending, Unreviewed,
            None, None)
  }

  function Complete(r: Request, response: Document, parsed: Option<Document>): Result<Request, DomainError>
  {
    if !r.status.Pending? then Err(InvalidTransition)
    else Ok(r.(status := Completed, response := Some(response), parsed := parsed))
  }

  function Fail(r: Request, response: Document): Request
  {
    r.(status := Failed, response := Some(response))
  }

  datatype Verdict = Approve | Reject

  function Judge(r: Request, verdict: Verdict, admin: Id, at: Time): Result<Request, DomainError>
  {
    match verdict
    case Approve =>
      if r.kind.QualityCheck? then Err(CannotApproveQualityCheck)
      else if r.review.Approved? then Err(InvalidTransition)
      else Ok(r.(review := Approved, reviewedBy := Some(admin), reviewedAt := Some(at)))
    case Reject =>
      if r.review.Rejected? then Err(InvalidTransition)
      else Ok(r.(review := Rejected, reviewedBy := Some(admin), reviewedAt := Some(at)))
  }

  class Aggregate {
    const kind: Kind
    const targetWord: Option<Id>
    const targetContribution: Option<Id>
    const requestedBy: Id
    const model: string
    const prompt: string
    const createdAt: Time
    var response: Option<Document>
    var parsed: Option<Document>
    var status: Status
    var review: Review
    var reviewedBy: Option<Id>
    var reviewedAt: Option<Time>

    function Value(): Request
      reads this
    {
      Request(kind, targetWord, targetContribution, requestedBy, model, prompt, createdAt,
              response, parsed, status, review, reviewedBy, reviewedAt)
    }

    constructor (r: Request)
      ensures Value() == r
    {
      kind, targetWord, targetContribution, requestedBy := r.kind, r.targetWord, r.targetContribution, r.requestedBy;
      model, prompt, createdAt, response, parsed := r.model, r.prompt, r.createdAt, r.response, r.parsed;
      status, review, reviewedBy, reviewedAt := r.status, r.review, r.reviewedBy, r.reviewedAt;
    }

    method MarkCompleted(response: Document, parsed: Option<Document>) returns (error: Option<DomainError>)
      modifies this
      ensures Complete(old(Value()), response, parsed) == if error.None? then Ok(Value()) else Err(error.value)
      ensures error.Some? ==> Value() == old(Value())
    {
      if status != Pending {
        return Some(InvalidTransition);
      }
      status := Completed;
      this.response, this.parsed := Some(response), parsed;
      error := None;
    }

    method MarkFailed(response: Document)
      modifies this
      ensures Value() == Fail(old(Value()), response)
    {
      status := Failed;
      this.response := Some(response);
    }

    method ApproveBy(admin: Id, at: Time) returns (error: Option<DomainError>)
      modifies this
      ensures Judge(old(Value()), Approve, admin, at) == if error.None? then Ok(Value()) else Err(error.value)
      ensures error.Some? ==> Value() == old(Value())
    {
      if kind == QualityCheck {
        return Some(CannotApproveQualityCheck);
      }
      if review == Approved {
        return Some(InvalidTransition);
      }
      review, reviewedBy, reviewedAt := Approved, Some(admin), Some(at);
      error := None;
    }

    method RejectBy(admin: Id, at: Time) returns (error: Option<DomainError>)
      modifies this
      ensures Judge(old(Value()), Reject, admin, at) == if error.None? then Ok(Value()) else Err(error.value)
      ensures error.Some? ==> Value() == old(Value())
    {
      if review == Rejected {
        return Some(InvalidTransition);
      }
      review, reviewedBy, reviewedAt := Rejected, Some(admin), Some(at);
      error := None;
    }
  }

  // ---- the table ----

  type Table = map<Id, Request>

  /** UPDATE: answer and review columns come from the copy, the others are not written. */
  function Overwrite(row: Request, copy: Request): Request
  {
    row.(response := copy.response, parsed := copy.parsed, status := copy.status,
         review := copy.review, reviewedBy := copy.reviewedBy, reviewedAt := copy.reviewedAt)
  }

  /** The statement returns nothing, so a missing row goes unnoticed. */
  function Write(rows: Table, id: Id, copy: Request): Table
  {
    if id in rows then rows[id := Overwrite(rows[id], copy)] else rows
  }

  // ---- the protocol: every repository call is one step ----

  /** What the language model comes back with: an error, or text from which a JSON object was or was not extracted. */
  datatype Answer = LlmError(raw: Document) | LlmReply(raw: Document, parsed: Option<Document>)

  /** The copy a goroutine writes back. A refused completion is ignored. */
  function Finish(copy: Request, answer: Answer): Request
  {
    match answer
    case LlmError(raw) => Fail(copy, raw)
    case LlmReply(raw, parsed) =>
      var done := Complete(copy, raw, parsed);
      if done.Ok? then done.value else copy
  }

  datatype Runner = Spawned | Asking(copy: Request)

  /** A review between its read and its write. */
  datatype Task = Task(id: Id, verdict: Verdict, loaded: Request, copy: Request, merged: bool)

  datatype WordWrite = WordWrite(request: Id, word: Id, status: Status)

  /** `runners` holds the goroutine of each request that still has one; `history` the reviews that reached the table. */
  datatype State = State(
    rows: Table, runners: map<Id, Runner>, tasks: map<nat, Task>, wordWrites: seq<WordWrite>,
        history: seq<(Id, Verdict)>)

  const EMPTY: State := State(map[], map[], map[], [], [])

  datatype Action =
    | Trigger(id: Id, r: Request, ok: bool)
    | RunnerLoad(id: Id, ok: bool)
    | RunnerStore(id: Id, answer: Answer, applied: bool)
    | ReviewLoad(task: nat, id: Id, verdict: Verdict, admin: Id, at: Time)
    | MergeWord(task: nat)
    | ReviewStore(task: nat, applied: bool)
    | ReviewAbandon(task: nat)

  predicate IsNew(r: Request)
  {
    r == NewRequest(r.kind, r.targetWord, r.targetContribution, r.requestedBy, r.model, r.prompt, r.createdAt)
  }

  /** Approving merges into the dictionary when the request targets a word and has an extracted answer. */
  predicate Merges(task: Task)
  {
    task.verdict.Approve? && task.copy.targetWord.Some? && task.copy.parsed.Some?
  }

  /** One step. `ok` and `applied` are how the call went; an action that is not possible changes nothing. */
  function Step(s: State, a: Action): State
  {
    match a
    case Trigger(id, r, ok) =>
      if id in s.rows || !IsNew(r) then s
      else s.(rows := s.rows[id := r], runners := if ok then s.runners[id := Spawned] else s.runners)
    case RunnerLoad(id, ok) =>
      if id !in s.runners || !s.runners[id].Spawned? then s
      else if !ok || id !in s.rows then s.(runners := s.runners - {id})
      else s.(runners := s.runners[id := Asking(s.rows[id])])
    case RunnerStore(id, answer, applied) =>
      if id !in s.runners || s.runners[id].Spawned? then s
      else
        s.(rows := if applied then Write(s.rows, id, Finish(s.runners[id].copy, answer)) else s.rows,
           runners := s.runners - {id})
    case ReviewLoad(t, id, verdict, admin, at) =>
      if t in s.tasks || id !in s.rows then s
      else
        var copy := Judge(s.rows[id], verdict, admin, at);
        if copy.Err? then s else s.(tasks := s.tasks[t := Task(id, verdict, s.rows[id], copy.value, false)])
    case MergeWord(t) =>
      if t !in s.tasks || !Merges(s.tasks[t]) || s.tasks[t].merged then s
      else
        var task := s.tasks[t];
        s.(tasks := s.tasks[t := task.(merged := true)],
           wordWrites := s.wordWrites + [WordWrite(task.id, task.copy.targetWord.value, task.loaded.status)])
    case ReviewStore(t, applied) =>
      if t !in s.tasks || (Merges(s.tasks[t]) && !s.tasks[t].merged) then s
      else
        var task := s.tasks[t];
        s.(rows := if applied then Write(s.rows, task.id, task.copy) else s.rows,
           tasks := s.tasks - {t},
           history := if applied then s.history + [(task.id, task.verdict)] else s.history)
    case ReviewAbandon(t) => s.(tasks := s.tasks - {t})
  }

  function Run(s: State, actions: seq<Action>): State
    decreases |actions|
  {
    if actions == [] then s else Run(Step(s, actions[0]), actions[1..])
  }

  // ---- what every interleaving keeps ----

  predicate SameRequest(a: Request, b: Request)
  {
    && a.kind == b.kind && a.targetWord == b.targetWord && a.targetContribution == b.targetContribution
    && a.requestedBy == b.requestedBy && a.model == b.model && a.prompt == b.prompt && a.createdAt == b.createdAt
  }

  predicate Sound(r: Request)
  {
    && !(r.kind.QualityCheck? && r.review.Approved?)
    && r.reviewedBy.Some? == r.reviewedAt.Some? == !r.review.Unreviewed?
    && (r.parsed.Some? ==> r.status.Completed?)
  }

  predicate RunnerOk(row: Request, runner: Runner)
  {
    && row.status.Pending?
    && (runner.Asking? ==> Sound(runner.copy) && runner.copy.status.Pending? && SameRequest(runner.copy, row))
  }

  predicate TaskOk(row: Request, running: bool, task: Task)
  {
    && Sound(task.loaded) && Sound(task.copy) && SameRequest(task.loaded, row) && SameRequest(task.copy, row)
    && task.copy.status == task.loaded.status && task.copy.parsed == task.loaded.parsed
    && task.copy.review == (if task.verdict.Approve? then Approved else Rejected)
    && task.loaded.review != task.copy.review
    && (running ==> task.loaded.status.Pending?)
  }

  ghost predicate Inv(s: State)
  {
    && (forall id | id in s.rows :: Sound(s.rows[id]))
    && (forall id | id in s.runners :: id in s.rows && RunnerOk(s.rows[id], s.runners[id]))
    && (forall t | t in s.tasks ::
        s.tasks[t].id in s.rows && TaskOk(s.rows[s.tasks[t].id], s.tasks[t].id in s.runners, s.tasks[t]))
    && (forall i | 0 <= i < |s.wordWrites| :: s.wordWrites[i].status.Completed?)
  }

  lemma RunnerKeepsInv(s: State, a: Action)
    requires Inv(s) && (a.Trigger? || a.RunnerLoad? || a.RunnerStore?)
    ensures Inv(Step(s, a))
  {
  }

  lemma ReviewKeepsInv(s: State, a: Action)
    requires Inv(s) && (a.ReviewLoad? || a.ReviewAbandon? || a.MergeWord?)
    ensures Inv(Step(s, a))
  {
  }

  lemma ReviewStoreKeepsInv(s: State, t: nat, applied: bool)
    requires Inv(s)
    ensures Inv(Step(s, ReviewStore(t, applied)))
  {
    if t in s.tasks {
      var task := s.tasks[t];
      assert TaskOk(s.rows[task.id], task.id in s.runners, task);
      assert Overwrite(s.rows[task.id], task.copy) == task.copy;
    }
  }

  lemma StepKeepsInv(s: State, a: Action)
    requires Inv(s)
    ensures Inv(Step(s, a))
  {
    match a
    case ReviewStore(t, applied) => ReviewStoreKeepsInv(s, t, applied);
    case ReviewLoad(_, _, _, _, _) => ReviewKeepsInv(s, a);
    case ReviewAbandon(_) => ReviewKeepsInv(s, a);
    case MergeWord(_) => ReviewKeepsInv(s, a);
    case _ => RunnerKeepsInv(s, a);
  }

  /** Requests stay, and what was asked never changes. */
  ghost predicate Later(s: State, s': State)
  {
    forall id | id in s.rows :: id in s'.rows && SameRequest(s.rows[id], s'.rows[id])
  }

  lemma StepIsLater(s: State, a: Action)
    requires Inv(s)
    ensures Later(s, Step(s, a))
  {
  }

  /**
   * Whatever the interleaving and whichever calls fail: in the table and in every copy in flight, quality checks are
   * never approved, reviewed_by and reviewed_at go with the review, an extracted answer means completed, and the
   * question never changes; words are written for completed requests only.
   */
  lemma {:induction false} Protocol(s: State, actions: seq<Action>)
    requires Inv(s)
    ensures Inv(Run(s, actions)) && Later(s, Run(s, actions))
    decreases |actions|
  {
    if actions != [] {
      StepKeepsInv(s, actions[0]);
      StepIsLater(s, actions[0]);
      Protocol(Step(s, actions[0]), actions[1..]);
    }
  }

  /** The goroutine of a request loads it pending, so it can always mark it completed, however long the model takes. */
  lemma RunnerCanFinish(actions: seq<Action>, id: Id, raw: Document, parsed: Option<Document>)
    ensures var s := Run(EMPTY, actions);
      id in s.runners ==>
        && id in s.rows && s.rows[id].status.Pending?
        && (s.runners[id].Asking? ==> Complete(s.runners[id].copy, raw, parsed).Ok?)
  {
    Protocol(EMPTY, actions);
    var s := Run(EMPTY, actions);
    assert id in s.runners ==> RunnerOk(s.rows[id], s.runners[id]);
  }

  /** An approval about to touch a word has loaded a completed request. */
  lemma MergesCompletedOnly(actions: seq<Action>, t: nat)
    ensures var s := Run(EMPTY, actions);
      t in s.tasks && Merges(s.tasks[t]) ==>
        s.tasks[t].loaded.status.Completed? && !s.tasks[t].loaded.kind.QualityCheck?
  {
    Protocol(EMPTY, actions);
    var s := Run(EMPTY, actions);
    assert t in s.tasks ==> TaskOk(s.rows[s.tasks[t].id], s.tasks[t].id in s.runners, s.tasks[t]);
  }

  // ---- what interleavings can lose ----

  lemma {:induction false} RunAppend(s: State, a: seq<Action>, b: seq<Action>)
    ensures Run(s, a + b) == Run(Run(s, a), b)
    decreases |a|
  {
    if a == [] {
      assert a + b == b;
    } else {
      assert (a + b)[1..] == a[1..] + b;
      RunAppend(Step(s, a[0]), a[1..], b);
    }
  }

  lemma RunSnoc(s: State, actions: seq<Action>, a: Action)
    ensures Run(s, actions + [a]) == Step(Run(s, actions), a)
  {
    RunAppend(s, actions, [a]);
    assert [a][1..] == [];
  }

  lemma RunFour(s: State, a: Action, b: Action, c: Action, d: Action)
    ensures Run(s, [a, b, c, d]) == Step(Step(Step(Step(s, a), b), c), d)
  {
    RunSnoc(s, [], a);
    RunSnoc(s, [a], b);
    RunSnoc(s, [a, b], c);
    RunSnoc(s, [a, b, c], d);
    assert [] + [a] == [a] && [a] + [b] == [a, b] && [a, b] + [c] == [a, b, c] && [a, b, c] + [d] == [a, b, c, d];
  }

  /** An approval stored while the model is still thinking is undone by the goroutine's write. */
  lemma ApprovalCanBeLost(r: Request, raw: Document, admin: Id)
    requires IsNew(r) && !r.kind.QualityCheck?
    ensures var approved := [Trigger(1, r, true), RunnerLoad(1, true), ReviewLoad(0, 1, Approve, admin, 5),
                             ReviewStore(0, true)];
      var s, s' := Run(EMPTY, approved), Run(EMPTY, approved + [RunnerStore(1, LlmReply(raw, None), true)]);
      && 1 in s.rows && s.rows[1].review.Approved?
      && 1 in s'.rows && s'.rows[1].review.Unreviewed? && s'.rows[1].status.Completed?
  {
    var a := [Trigger(1, r, true), RunnerLoad(1, true), ReviewLoad(0, 1, Approve, admin, 5), ReviewStore(0, true)];
    RunFour(EMPTY, a[0], a[1], a[2], a[3]);
    RunSnoc(EMPTY, a, RunnerStore(1, LlmReply(raw, None), true));
  }

  /**
   * A review read before the answer and stored after it puts the request back to pending, with no goroutine left to
   * answer it.
   */
  lemma AnswerCanBeLost(r: Request, raw: Document, admin: Id)
    requires IsNew(r)
    ensures var answered := [Trigger(1, r, true), RunnerLoad(1, true), ReviewLoad(0, 1, Reject, admin, 5),
                             RunnerStore(1, LlmReply(raw, None), true)];
      var s, s' := Run(EMPTY, answered), Run(EMPTY, answered + [ReviewStore(0, true)]);
      && 1 in s.rows && s.rows[1].status.Completed?
      && 1 in s'.rows && s'.rows[1].status.Pending? && 1 !in s'.runners
  {
    var a := [Trigger(1, r, true), RunnerLoad(1, true), ReviewLoad(0, 1, Reject, admin, 5),
              RunnerStore(1, LlmReply(raw, None), true)];
    RunFour(EMPTY, a[0], a[1], a[2], a[3]);
    RunSnoc(EMPTY, a, ReviewStore(0, true));
  }

  // ---- exactly when an answer or an approval is lost ----

  predicate HasAnswer(s: State, id: Id)
  {
    id in s.rows && !s.rows[id].status.Pending?
  }

  function AnswerOf(r: Request): (Status, Option<Document>, Option<Document>)
  {
    (r.status, r.response, r.parsed)
  }

  predicate HoldsAnswer(task: Task)
  {
    !task.loaded.status.Pending?
  }

  /** A request has at most one answer: the table and the copies that have one have the same. */
  ghost predicate OneAnswer(s: State)
  {
    && (forall t | t in s.tasks :: AnswerOf(s.tasks[t].copy) == AnswerOf(s.tasks[t].loaded))
    && (forall t | t in s.tasks && HoldsAnswer(s.tasks[t]) ::
          s.tasks[t].id !in s.runners
          && (HasAnswer(s, s.tasks[t].id) ==> AnswerOf(s.rows[s.tasks[t].id]) == AnswerOf(s.tasks[t].loaded)))
    && (forall t, u | t in s.tasks && u in s.tasks && HoldsAnswer(s.tasks[t]) && HoldsAnswer(s.tasks[u])
                      && s.tasks[t].id == s.tasks[u].id :: AnswerOf(s.tasks[t].loaded) == AnswerOf(s.tasks[u].loaded))
  }

  /** The write of a review that loaded the request before its answer was stored. */
  predicate StaleReview(s: State, a: Action, id: Id)
  {
    a.ReviewStore? && a.applied && a.task in s.tasks && s.tasks[a.task].id == id
      && s.tasks[a.task].loaded.status.Pending?
  }

  /** A step changes a stored answer exactly when it is such a write, which puts the request back to pending. */
  lemma AnswerLostIff(s: State, a: Action, id: Id)
    requires Inv(s) && OneAnswer(s) && HasAnswer(s, id)
    ensures id in Step(s, a).rows
    ensures Step(s, a).rows[id].status.Pending? <==> StaleReview(s, a, id)
    ensures AnswerOf(Step(s, a).rows[id]) != AnswerOf(s.rows[id]) <==> StaleReview(s, a, id)
  {
    if a.ReviewStore? && a.task in s.tasks && s.tasks[a.task].id == id {
      assert TaskOk(s.rows[id], id in s.runners, s.tasks[a.task]);
    }
  }

  lemma RunnerKeepsOneAnswer(s: State, a: Action)
    requires Inv(s) && OneAnswer(s) && (a.Trigger? || a.RunnerLoad? || a.RunnerStore?)
    ensures OneAnswer(Step(s, a))
  {
  }

  lemma LoadKeepsOneAnswer(s: State, a: Action)
    requires Inv(s) && OneAnswer(s) && a.ReviewLoad?
    ensures OneAnswer(Step(s, a))
  {
  }

  lemma MergeKeepsOneAnswer(s: State, a: Action)
    requires Inv(s) && OneAnswer(s) && (a.MergeWord? || a.ReviewAbandon?)
    ensures OneAnswer(Step(s, a))
  {
  }

  lemma StoreKeepsOneAnswer(s: State, a: Action)
    requires Inv(s) && OneAnswer(s) && a.ReviewStore?
    ensures OneAnswer(Step(s, a))
  {
  }

  lemma StepKeepsOneAnswer(s: State, a: Action)
    requires Inv(s) && OneAnswer(s)
    ensures OneAnswer(Step(s, a))
  {
    hide Step, OneAnswer, Inv;
    if a.Trigger? || a.RunnerLoad? || a.RunnerStore? {
      RunnerKeepsOneAnswer(s, a);
    } else if a.ReviewStore? {
      StoreKeepsOneAnswer(s, a);
    } else if a.ReviewLoad? {
      LoadKeepsOneAnswer(s, a);
    } else {
      MergeKeepsOneAnswer(s, a);
    }
  }

  ghost predicate AnswerSteady(s: State, actions: seq<Action>, id: Id)
    decreases |actions|
  {
    if actions == [] then true
    else
      var s1 := Step(s, actions[0]);
      id in s.rows && id in s1.rows && AnswerOf(s1.rows[id]) == AnswerOf(s.rows[id])
        && AnswerSteady(s1, actions[1..], id)
  }

  ghost predicate NoStaleReview(s: State, actions: seq<Action>, id: Id)
    decreases |actions|
  {
    if actions == [] then true
      else !StaleReview(s, actions[0], id) && NoStaleReview(Step(s, actions[0]), actions[1..], id)
  }

  /**
   * Over a run a stored answer stays throughout exactly when no review that loaded the request before it is stored
   * after it.
   */
  lemma {:induction false} AnswerSurvivesIff(s: State, actions: seq<Action>, id: Id)
    requires Inv(s) && OneAnswer(s) && HasAnswer(s, id)
    ensures AnswerSteady(s, actions, id) <==> NoStaleReview(s, actions, id)
    decreases |actions|
  {
    if actions != [] {
      var a := actions[0];
      AnswerLostIff(s, a, id);
      if !StaleReview(s, a, id) {
        StepKeepsInv(s, a);
        StepKeepsOneAnswer(s, a);
        AnswerSurvivesIff(Step(s, a), actions[1..], id);
      }
    }
  }

  predicate IsApproved(s: State, id: Id)
  {
    id in s.rows && s.rows[id].review.Approved?
  }

  /** The write of a goroutine that loaded the request before it was approved, or of a rejection. */
  predicate Unapproves(s: State, a: Action, id: Id)
  {
    match a
    case RunnerStore(r, _, applied) => r == id && applied && id in s.runners && s.runners[id].Asking?
      && !s.runners[id].copy.review.Approved?
    case ReviewStore(t, applied) => applied && t in s.tasks && s.tasks[t].id == id && s.tasks[t].verdict.Reject?
    case _ => false
  }

  lemma ApprovalLostIff(s: State, a: Action, id: Id)
    requires Inv(s) && IsApproved(s, id)
    ensures id in Step(s, a).rows
    ensures !IsApproved(Step(s, a), id) <==> Unapproves(s, a, id)
  {
    if a.ReviewStore? && a.task in s.tasks && s.tasks[a.task].id == id {
      assert TaskOk(s.rows[id], id in s.runners, s.tasks[a.task]);
    }
  }

  ghost predicate ApprovalSteady(s: State, actions: seq<Action>, id: Id)
    decreases |actions|
  {
    if actions == [] then true
      else IsApproved(Step(s, actions[0]), id) && ApprovalSteady(Step(s, actions[0]), actions[1..], id)
  }

  ghost predicate NothingUnapproves(s: State, actions: seq<Action>, id: Id)
    decreases |actions|
  {
    if actions == [] then true
      else !Unapproves(s, actions[0], id) && NothingUnapproves(Step(s, actions[0]), actions[1..], id)
  }

  /**
   * Over a run an approval stays throughout exactly when no rejection and no goroutine that loaded the request before
   * it is stored after it.
   */
  lemma {:induction false} ApprovalSurvivesIff(s: State, actions: seq<Action>, id: Id)
    requires Inv(s) && IsApproved(s, id)
    ensures ApprovalSteady(s, actions, id) <==> NothingUnapproves(s, actions, id)
    decreases |actions|
  {
    if actions != [] {
      ApprovalLostIff(s, actions[0], id);
      if !Unapproves(s, actions[0], id) {
        StepKeepsInv(s, actions[0]);
        ApprovalSurvivesIff(Step(s, actions[0]), actions[1..], id);
      }
    }
  }

  /** The empty table has at most one answer, and every run keeps it so. */
  lemma {:induction false} OneAnswerThroughout(s: State, actions: seq<Action>)
    requires Inv(s) && OneAnswer(s)
    ensures Inv(Run(s, actions)) && OneAnswer(Run(s, actions))
    decreases |actions|
  {
    if actions != [] {
      var a := actions[0];
      StepKeepsInv(s, a);
      StepKeepsOneAnswer(s, a);
      OneAnswerThroughout(Step(s, a), actions[1..]);
    }
  }

  // ---- what undisturbed runs keep besides ----

  /** No write hits a row that has changed since it was read. Serial runs are of this kind. */
  ghost predicate Undisturbed(s: State, actions: seq<Action>)
    decreases |actions|
  {
    if actions == [] then true else Current(s, actions[0]) && Undisturbed(Step(s, actions[0]), actions[1..])
  }

  predicate Current(s: State, a: Action)
  {
    match a
    case RunnerStore(id, _, _) => id in s.runners && s.runners[id].Asking? ==>
      id in s.rows && s.rows[id] == s.runners[id].copy
    case ReviewStore(t, _) => t in s.tasks ==> s.tasks[t].id in s.rows && s.rows[s.tasks[t].id] == s.tasks[t].loaded
    case _ => true
  }

  function VerdictsOn(history: seq<(Id, Verdict)>, id: Id): seq<Verdict>
  {
    if history == [] then []
    else
      var n := |history| - 1;
      VerdictsOn(history[..n], id) + if history[n].0 == id then [history[n].1] else []
  }

  predicate Alternates(vs: seq<Verdict>)
  {
    forall i | 0 < i < |vs| :: vs[i - 1] != vs[i]
  }

  /** The verdicts on a request alternate, and its review is the last of them. */
  predicate Tells(vs: seq<Verdict>, review: Review)
  {
    Alternates(vs) && review == if vs == [] then Unreviewed else if vs[|vs| - 1].Approve? then Approved else Rejected
  }

  /** The verdicts on every request are told by the table, and there are none on requests that do not exist. */
  ghost predicate HistoryTold(s: State)
  {
    forall id :: if id in s.rows then Tells(VerdictsOn(s.history, id), s.rows[id].review)
      else VerdictsOn(s.history, id) == []
  }

  lemma SameHistoryTold(s: State, s': State)
    requires HistoryTold(s) && s'.history == s.history
    requires forall id | id in s.rows :: id in s'.rows && s'.rows[id].review == s.rows[id].review
    requires forall id | id in s'.rows && id !in s.rows :: s'.rows[id].review.Unreviewed?
    ensures HistoryTold(s')
  {
  }

  lemma ReviewStoreKeepsHistoryTold(s: State, t: nat)
    requires Inv(s) && HistoryTold(s) && Current(s, ReviewStore(t, true))
    requires t in s.tasks && (Merges(s.tasks[t]) ==> s.tasks[t].merged)
    ensures HistoryTold(Step(s, ReviewStore(t, true)))
  {
    var task := s.tasks[t];
    var s' := Step(s, ReviewStore(t, true));
    assert TaskOk(s.rows[task.id], task.id in s.runners, task);
    assert s'.history[..|s.history|] == s.history;
    assert Tells(VerdictsOn(s.history, task.id), s.rows[task.id].review);
    forall id ensures if id in s'.rows then Tells(VerdictsOn(s'.history, id), s'.rows[id].review)
      else VerdictsOn(s'.history, id) == [] {
      if id != task.id {
        assert VerdictsOn(s'.history, id) == VerdictsOn(s.history, id);
      } else {
        assert VerdictsOn(s'.history, id) == VerdictsOn(s.history, id) + [task.verdict];
      }
    }
  }

  lemma StepKeepsHistoryTold(s: State, a: Action)
    requires Inv(s) && HistoryTold(s) && Current(s, a)
    ensures HistoryTold(Step(s, a))
  {
    if a.ReviewStore? && Step(s, a).history != s.history {
      ReviewStoreKeepsHistoryTold(s, a.task);
    } else {
      SameHistoryTold(s, Step(s, a));
    }
  }

  /** In undisturbed runs the reviews of a request strictly alternate, and its review status is the last of them. */
  lemma {:induction false} ReviewsAlternate(s: State, actions: seq<Action>)
    requires Inv(s) && HistoryTold(s) && Undisturbed(s, actions)
    ensures HistoryTold(Run(s, actions))
    decreases |actions|
  {
    if actions != [] {
      StepKeepsInv(s, actions[0]);
      StepKeepsHistoryTold(s, actions[0]);
      ReviewsAlternate(Step(s, actions[0]), actions[1..]);
    }
  }

  function Tally(vs: seq<Verdict>, v: Verdict): nat
  {
    if vs == [] then 0 else Tally(vs[..|vs| - 1], v) + if vs[|vs| - 1] == v then 1 else 0
  }

  lemma {:induction false} AlternatingTally(vs: seq<Verdict>)
    requires Alternates(vs)
    ensures var d := Tally(vs, Approve) - Tally(vs, Reject);
      if |vs| % 2 == 0 then d == 0 else d == if vs[|vs| - 1].Approve? then 1 else -1
    decreases |vs|
  {
    if |vs| > 1 {
      var n := |vs| - 1;
      AlternatingTally(vs[..n]);
      assert vs[..n][n - 1] == vs[n - 1];
    }
  }

  /** So from an empty table approvals and rejections of a request never differ by more than one. */
  lemma ApprovalsMatchRejections(actions: seq<Action>, id: Id)
    requires Undisturbed(EMPTY, actions)
    ensures var vs := VerdictsOn(Run(EMPTY, actions).history, id);
      -1 <= Tally(vs, Approve) - Tally(vs, Reject) <= 1
  {
    ReviewsAlternate(EMPTY, actions);
    AlternatingTally(VerdictsOn(Run(EMPTY, actions).history, id));
  }

  /** And an answer, once stored, is never lost. */
  lemma {:induction false} AnswerKept(s: State, actions: seq<Action>, id: Id)
    requires Inv(s) && Undisturbed(s, actions)
    requires id in s.rows && !s.rows[id].status.Pending?
    ensures var s' := Run(s, actions);
      id in s'.rows && s'.rows[id].status == s.rows[id].status && s'.rows[id].parsed == s.rows[id].parsed
    decreases |actions|
  {
    if actions != [] {
      StepKeepsInv(s, actions[0]);
      StepKeepsAnswer(s, actions[0], id);
      AnswerKept(Step(s, actions[0]), actions[1..], id);
    }
  }

  lemma StepKeepsAnswer(s: State, a: Action, id: Id)
    requires Inv(s) && Current(s, a)
    requires id in s.rows && !s.rows[id].status.Pending?
    ensures var s' := Step(s, a);
      id in s'.rows && s'.rows[id].status == s.rows[id].status && s'.rows[id].parsed == s.rows[id].parsed
  {
    if a.ReviewStore? && a.task in s.tasks {
      assert TaskOk(s.rows[s.tasks[a.task].id], s.tasks[a.task].id in s.runners, s.tasks[a.task]);
    }
  }

  /** A review run on its own, without a merge, is a load followed at once by its store. */
  function ReviewCommand(rows: Table, id: Id, verdict: Verdict, admin: Id, at: Time): Table
  {
    if id !in rows || Judge(rows[id], verdict, admin, at).Err? then rows
    else Write(rows, id, Judge(rows[id], verdict, admin, at).value)
  }

  lemma ReviewCommandIsUndisturbed(s: State, t: nat, id: Id, verdict: Verdict, admin: Id, at: Time)
    requires t !in s.tasks
    ensures var actions := [ReviewLoad(t, id, verdict, admin, at), MergeWord(t), ReviewStore(t, true)];
      Run(s, actions).rows == ReviewCommand(s.rows, id, verdict, admin, at) && Undisturbed(s, actions)
  {
    var actions := [ReviewLoad(t, id, verdict, admin, at), MergeWord(t), ReviewStore(t, true)];
    assert actions[1..] == [MergeWord(t), ReviewStore(t, true)] && actions[1..][1..] == [ReviewStore(t, true)];
    assert [ReviewStore(t, true)][1..] == [];
    var s1 := Step(s, actions[0]);
    var s2 := Step(s1, MergeWord(t));
    assert s2.rows == s1.rows == s.rows && (t in s2.tasks <==> t in s1.tasks);
    assert t in s1.tasks ==>
      s2.tasks[t].copy == s1.tasks[t].copy && s2.tasks[t].id == id && s2.tasks[t].loaded == s.rows[id];
    assert Undisturbed(s2, [ReviewStore(t, true)]);
    assert Undisturbed(s1, actions[1..]);
    assert Run(s, actions) == Run(s1, actions[1..]) == Run(s2, [ReviewStore(t, true)])
      == Step(s2, ReviewStore(t, true));
  }

  // ---- serial runs ----

  /** How a review ends: with its write, which may not take effect, or with an error before or after its merge. */
  datatype Fate = Stored(applied: bool) | Dropped(merged: bool)

  /**
   * One thing at a time: a trigger, a goroutine from its read to its write, a review from its read to its end. Any of
   * their calls may fail.
   */
  datatype Turn =
    | Ask(id: Id, r: Request, ok: bool)
    | Answered(id: Id, answer: Answer, loaded: bool, applied: bool)
    | Judged(id: Id, verdict: Verdict, admin: Id, at: Time, fate: Fate)

  function ActionsOf(turn: Turn): seq<Action>
  {
    match turn
    case Ask(id, r, ok) => [Trigger(id, r, ok)]
    case Answered(id, answer, loaded, applied) => [RunnerLoad(id, loaded), RunnerStore(id, answer, applied)]
    case Judged(id, verdict, admin, at, fate) => [ReviewLoad(0, id, verdict, admin, at)] + EndOf(fate)
  }

  function EndOf(fate: Fate): seq<Action>
  {
    match fate
    case Stored(applied) => [MergeWord(0), ReviewStore(0, applied)]
    case Dropped(merged) => if merged then [MergeWord(0), ReviewAbandon(0)] else [ReviewAbandon(0)]
  }

  function Serial(turns: seq<Turn>): seq<Action>
  {
    if turns == [] then [] else ActionsOf(turns[0]) + Serial(turns[1..])
  }

  /** No call fails that a review makes. */
  predicate Faultless(turns: seq<Turn>)
  {
    forall i | 0 <= i < |turns| && turns[i].Judged? :: turns[i].fate == Stored(true)
  }

  /** Nothing is in flight. */
  ghost predicate Idle(s: State)
  {
    0 !in s.tasks && forall id | id in s.runners :: s.runners[id].Spawned?
  }

  lemma {:induction false} UndisturbedAppend(s: State, a: seq<Action>, b: seq<Action>)
    requires Undisturbed(s, a) && Undisturbed(Run(s, a), b)
    ensures Undisturbed(s, a + b)
    decreases |a|
  {
    if a == [] {
      assert a + b == b;
    } else {
      assert (a + b)[1..] == a[1..] + b;
      UndisturbedAppend(Step(s, a[0]), a[1..], b);
    }
  }

  lemma OneAction(s: State, a: Action)
    requires Current(s, a)
    ensures Run(s, [a]) == Step(s, a) && Undisturbed(s, [a])
  {
    assert [a][1..] == [];
  }

  lemma TwoActions(s: State, a: Action, b: Action)
    requires Current(s, a) && Current(Step(s, a), b)
    ensures Run(s, [a, b]) == Step(Step(s, a), b) && Undisturbed(s, [a, b])
  {
    OneAction(Step(s, a), b);
    assert [a, b][1..] == [b];
  }

  lemma ThreeActions(s: State, a: Action, b: Action, c: Action)
    requires Current(s, a) && Current(Step(s, a), b) && Current(Step(Step(s, a), b), c)
    ensures Run(s, [a, b, c]) == Step(Step(Step(s, a), b), c) && Undisturbed(s, [a, b, c])
  {
    TwoActions(Step(s, a), b, c);
    assert [a, b, c][1..] == [b, c];
  }

  /** What a turn of reviewing does, step by step. */
  function AfterJudged(s: State, turn: Turn): State
    requires turn.Judged?
  {
    var loaded := Step(s, ReviewLoad(0, turn.id, turn.verdict, turn.admin, turn.at));
    var merged := Step(loaded, MergeWord(0));
    match turn.fate
    case Stored(applied) => Step(merged, ReviewStore(0, applied))
    case Dropped(afterMerge) => Step(if afterMerge then merged else loaded, ReviewAbandon(0))
  }

  lemma JudgeTurn(s: State, turn: Turn)
    requires Idle(s) && turn.Judged?
    ensures Undisturbed(s, ActionsOf(turn)) && Run(s, ActionsOf(turn)) == AfterJudged(s, turn)
  {
    var load, merge := ReviewLoad(0, turn.id, turn.verdict, turn.admin, turn.at), MergeWord(0);
    var s2 := Step(Step(s, load), merge);
    assert s2.rows == s.rows;
    match turn.fate
    case Stored(applied) =>
      assert ActionsOf(turn) == [load, merge, ReviewStore(0, applied)];
      ThreeActions(s, load, merge, ReviewStore(0, applied));
    case Dropped(merged) =>
      if merged {
        assert ActionsOf(turn) == [load, merge, ReviewAbandon(0)];
        ThreeActions(s, load, merge, ReviewAbandon(0));
      } else {
        assert ActionsOf(turn) == [load, ReviewAbandon(0)];
        TwoActions(s, load, ReviewAbandon(0));
      }
  }

  lemma JudgeTurnEnds(s: State, turn: Turn)
    requires Idle(s) && turn.Judged?
    ensures AfterJudged(s, turn).tasks == s.tasks && AfterJudged(s, turn).runners == s.runners
  {
    var load, merge := ReviewLoad(0, turn.id, turn.verdict, turn.admin, turn.at), MergeWord(0);
    var s1 := Step(s, load);
    var s2 := Step(s1, merge);
    assert s1.tasks - {0} == s.tasks && s2.tasks - {0} == s.tasks;
    assert 0 in s2.tasks ==> !Merges(s2.tasks[0]) || s2.tasks[0].merged;
  }

  lemma AnswerTurn(s: State, turn: Turn)
    requires Idle(s) && turn.Answered?
    ensures Undisturbed(s, ActionsOf(turn))
    ensures var s' := Run(s, ActionsOf(turn)); Idle(s') && s'.tasks == s.tasks && s'.wordWrites == s.wordWrites
  {
    TwoActions(s, RunnerLoad(turn.id, turn.loaded), RunnerStore(turn.id, turn.answer, turn.applied));
  }

  lemma AskTurn(s: State, turn: Turn)
    requires Idle(s) && turn.Ask?
    ensures Undisturbed(s, ActionsOf(turn))
    ensures var s' := Run(s, ActionsOf(turn)); Idle(s') && s'.tasks == s.tasks && s'.wordWrites == s.wordWrites
  {
    OneAction(s, Trigger(turn.id, turn.r, turn.ok));
  }

  lemma TurnIdle(s: State, turn: Turn)
    requires Idle(s)
    ensures var s' := Run(s, ActionsOf(turn)); Undisturbed(s, ActionsOf(turn)) && Idle(s') && s'.tasks == s.tasks
  {
    match turn
    case Ask(_, _, _) => AskTurn(s, turn);
    case Answered(_, _, _, _) => AnswerTurn(s, turn);
    case Judged(_, _, _, _, _) =>
      JudgeTurn(s, turn);
      JudgeTurnEnds(s, turn);
  }

  /** Serial runs are undisturbed, whichever calls fail, and leave nothing in flight. */
  lemma {:induction false} SerialIsUndisturbed(s: State, turns: seq<Turn>)
    requires Idle(s)
    ensures Undisturbed(s, Serial(turns)) && Idle(Run(s, Serial(turns))) && Run(s, Serial(turns)).tasks == s.tasks
    decreases |turns|
  {
    if turns != [] {
      TurnIdle(s, turns[0]);
      SerialIsUndisturbed(Run(s, ActionsOf(turns[0])), turns[1..]);
      UndisturbedAppend(s, ActionsOf(turns[0]), Serial(turns[1..]));
      RunAppend(s, ActionsOf(turns[0]), Serial(turns[1..]));
    }
  }

  /**
   * So in serial runs the reviews of every request alternate, its review status is the last of them, and they
   * balance.
   */
  lemma SerialReviewsAlternate(turns: seq<Turn>, id: Id)
    ensures var s := Run(EMPTY, Serial(turns));
      var vs := VerdictsOn(s.history, id);
      && (if id in s.rows then Tells(vs, s.rows[id].review) else vs == [])
      && -1 <= Tally(vs, Approve) - Tally(vs, Reject) <= 1
  {
    SerialIsUndisturbed(EMPTY, turns);
    ReviewsAlternate(EMPTY, Serial(turns));
    ApprovalsMatchRejections(Serial(turns), id);
  }

  // ---- how often an answer is merged ----

  function WritesFor(writes: seq<WordWrite>, id: Id): nat
  {
    if writes == [] then 0
    else WritesFor(writes[..|writes| - 1], id) + if writes[|writes| - 1].request == id then 1 else 0
  }

  lemma WritesAppend(writes: seq<WordWrite>, w: WordWrite, id: Id)
    ensures WritesFor(writes + [w], id) == WritesFor(writes, id) + if w.request == id then 1 else 0
  {
    assert (writes + [w])[..|writes|] == writes;
  }

  predicate IsHeld(s: State, t: nat, id: Id)
  {
    t in s.tasks && s.tasks[t].id == id && s.tasks[t].merged
  }

  /** The reviews of a request that have merged and not ended. */
  ghost function Held(s: State, id: Id): set<nat>
  {
    set t | t in s.tasks && IsHeld(s, t, id)
  }

  /** The review has merged, and its write takes effect. */
  predicate RecordsMerge(s: State, a: Action, id: Id)
  {
    a.ReviewStore? && a.applied && IsHeld(s, a.task, id)
  }

  /** The review has merged, and it ends without a write that takes effect. */
  predicate LosesMerge(s: State, a: Action, id: Id)
  {
    ((a.ReviewStore? && !a.applied) || a.ReviewAbandon?) && IsHeld(s, a.task, id)
  }

  ghost function RecordedMerges(s: State, actions: seq<Action>, id: Id): nat
    decreases |actions|
  {
    if actions == [] then 0
    else CountIf(RecordsMerge(s, actions[0], id)) + RecordedMerges(Step(s, actions[0]), actions[1..], id)
  }

  ghost function LostMerges(s: State, actions: seq<Action>, id: Id): nat
    decreases |actions|
  {
    if actions == [] then 0
    else CountIf(LosesMerge(s, actions[0], id)) + LostMerges(Step(s, actions[0]), actions[1..], id)
  }

  lemma MergeAccounts(s: State, t: nat, id: Id)
    ensures var s' := Step(s, MergeWord(t));
      WritesFor(s'.wordWrites, id) + |Held(s, id)| == WritesFor(s.wordWrites, id) + |Held(s', id)|
  {
    hide WritesFor;
    var s' := Step(s, MergeWord(t));
    if t in s.tasks && Merges(s.tasks[t]) && !s.tasks[t].merged {
      var task := s.tasks[t];
      WritesAppend(s.wordWrites, WordWrite(task.id, task.copy.targetWord.value, task.loaded.status), id);
      assert Held(s', id) == if task.id == id then Held(s, id) + {t} else Held(s, id);
    } else {
      assert s' == s;
    }
  }

  lemma HeldWithout(s: State, s': State, t: nat, id: Id)
    requires s'.tasks == s.tasks - {t}
    ensures |Held(s, id)| == |Held(s', id)| + CountIf(IsHeld(s, t, id))
  {
    assert Held(s', id) == Held(s, id) - {t};
    assert t in Held(s, id) <==> IsHeld(s, t, id);
  }

  lemma EndAccounts(s: State, a: Action, id: Id)
    requires a.ReviewAbandon? || (a.ReviewStore? && Step(s, a) != s)
    ensures Step(s, a).wordWrites == s.wordWrites
    ensures |Held(s, id)| == |Held(Step(s, a), id)| + CountIf(RecordsMerge(s, a, id)) + CountIf(LosesMerge(s, a, id))
  {
    hide Held, IsHeld, Write;
    HeldWithout(s, Step(s, a), a.task, id);
  }

  lemma OthersAccount(s: State, a: Action, id: Id)
    requires !a.MergeWord? && !a.ReviewAbandon? && (a.ReviewStore? ==> Step(s, a) == s)
    ensures Step(s, a).wordWrites == s.wordWrites && Held(Step(s, a), id) == Held(s, id)
    ensures !RecordsMerge(s, a, id) && !LosesMerge(s, a, id)
  {
    if a.ReviewStore? && a.task in s.tasks {
      assert a.task !in Step(s, a).tasks || Step(s, a).tasks == s.tasks;
    }
  }

  lemma StepAccounts(s: State, a: Action, id: Id)
    ensures var s' := Step(s, a);
      WritesFor(s'.wordWrites, id) + |Held(s, id)|
      == WritesFor(s.wordWrites, id) + |Held(s', id)| + CountIf(RecordsMerge(s, a, id)) + CountIf(LosesMerge(s, a, id))
  {
    hide Step, Held, RecordsMerge, LosesMerge, WritesFor;
    if a.MergeWord? {
      MergeAccounts(s, a.task, id);
      MergesNothingElse(s, a, id);
    } else if a.ReviewAbandon? || (a.ReviewStore? && Step(s, a) != s) {
      EndAccounts(s, a, id);
    } else {
      OthersAccount(s, a, id);
    }
  }

  lemma MergesNothingElse(s: State, a: Action, id: Id)
    requires a.MergeWord?
    ensures !RecordsMerge(s, a, id) && !LosesMerge(s, a, id)
  {
  }

  /**
   * Under every interleaving of reviews, goroutines and triggers with any call failing, every merge of a request is
   * accounted for: its review is recorded, or it is lost, or it is still to end.
   */
  lemma {:induction false} MergesAccounted(s: State, actions: seq<Action>, id: Id)
    ensures var s' := Run(s, actions);
      WritesFor(s'.wordWrites, id) + |Held(s, id)|
      == WritesFor(s.wordWrites, id) + |Held(s', id)| + RecordedMerges(s, actions, id) + LostMerges(s, actions, id)
    decreases |actions|
  {
    if actions != [] {
      StepAccounts(s, actions[0], id);
      MergesAccounted(Step(s, actions[0]), actions[1..], id);
    }
  }

  /** No merge of the request is lost exactly when the guard is false at every step of the run. */
  lemma {:induction false} NoneLostIff(s: State, actions: seq<Action>, id: Id)
    ensures LostMerges(s, actions, id) == 0
      <==> forall k | 0 <= k < |actions| :: !LosesMerge(Run(s, actions[..k]), actions[k], id)
    decreases |actions|
  {
    if actions != [] {
      var s1, rest := Step(s, actions[0]), actions[1..];
      NoneLostIff(s1, rest, id);
      assert Run(s, actions[..0]) == s;
      forall k | 0 < k < |actions| ensures Run(s, actions[..k]) == Run(s1, rest[..k - 1]) && actions[k] == rest[k - 1] {
        assert actions[..k][1..] == rest[..k - 1];
      }
      if forall k | 0 <= k < |actions| :: !LosesMerge(Run(s, actions[..k]), actions[k], id) {
        forall k | 0 <= k < |rest| ensures !LosesMerge(Run(s1, rest[..k]), rest[k], id) {
          assert !LosesMerge(Run(s, actions[..k + 1]), actions[k + 1], id);
        }
      }
    }
  }

  // ---- once there is an answer, recorded merges are approvals ----

  /** The request has an extracted answer for a word. */
  predicate Mergeable(s: State, id: Id)
  {
    id in s.rows && s.rows[id].status.Completed? && s.rows[id].parsed.Some? && s.rows[id].targetWord.Some?
  }

  /** And every review in flight has loaded one; those that have merged approve. */
  ghost predicate Ready(s: State, id: Id)
  {
    && Inv(s) && Mergeable(s, id)
    && forall t | t in s.tasks && s.tasks[t].id == id ::
      s.tasks[t].copy.parsed.Some? && (s.tasks[t].merged ==> s.tasks[t].verdict.Approve?)
  }

  lemma TallyAppend(vs: seq<Verdict>, x: Verdict, v: Verdict)
    ensures Tally(vs + [x], v) == Tally(vs, v) + if x == v then 1 else 0
  {
    assert (vs + [x])[..|vs|] == vs;
  }

  lemma VerdictsAppend(history: seq<(Id, Verdict)>, x: (Id, Verdict), id: Id)
    ensures VerdictsOn(history + [x], id) == VerdictsOn(history, id) + if x.0 == id then [x.1] else []
  {
    assert (history + [x])[..|history|] == history;
  }

  function Approvals(s: State, id: Id): nat
  {
    Tally(VerdictsOn(s.history, id), Approve)
  }

  /** The request's row keeps its answer, since no review in flight is without it and no goroutine is left. */
  lemma StepStaysReady(s: State, a: Action, id: Id)
    requires Ready(s, id)
    ensures Ready(Step(s, a), id)
  {
    hide Inv;
    StepKeepsInv(s, a);
    ReadyTasks(s, id);
    assert id !in s.runners by {
      AnsweredHasNoRunner(s, id);
    }
  }

  lemma AnsweredHasNoRunner(s: State, id: Id)
    requires Inv(s) && Mergeable(s, id)
    ensures id !in s.runners
  {
    assert id in s.runners ==> RunnerOk(s.rows[id], s.runners[id]);
  }

  /** The copies of the reviews in flight are completed and target the word. */
  lemma ReadyTasks(s: State, id: Id)
    requires Ready(s, id)
    ensures forall t | t in s.tasks && s.tasks[t].id == id ::
      s.tasks[t].copy.status.Completed? && s.tasks[t].copy.targetWord.Some?
  {
    forall t | t in s.tasks && s.tasks[t].id == id
      ensures s.tasks[t].copy.status.Completed? && s.tasks[t].copy.targetWord.Some? {
      assert TaskOk(s.rows[id], id in s.runners, s.tasks[t]);
    }
  }

  lemma StepRecords(s: State, a: Action, id: Id)
    requires Ready(s, id)
    ensures Approvals(Step(s, a), id) == Approvals(s, id) + CountIf(RecordsMerge(s, a, id))
  {
    var s' := Step(s, a);
    if a.ReviewStore? && s'.history != s.history {
      var task := s.tasks[a.task];
      ReadyTasks(s, id);
      assert s'.history == s.history + [(task.id, task.verdict)];
      VerdictsAppend(s.history, (task.id, task.verdict), id);
      if task.id == id {
        TallyAppend(VerdictsOn(s.history, id), task.verdict, Approve);
      } else {
        assert VerdictsOn(s.history, id) + [] == VerdictsOn(s.history, id);
      }
    }
  }

  lemma {:induction false} ApprovalsAreRecorded(s: State, actions: seq<Action>, id: Id)
    requires Ready(s, id)
    ensures Ready(Run(s, actions), id)
    ensures Approvals(Run(s, actions), id) == Approvals(s, id) + RecordedMerges(s, actions, id)
    decreases |actions|
  {
    hide Ready, Approvals;
    if actions != [] {
      StepStaysReady(s, actions[0], id);
      StepRecords(s, actions[0], id);
      ApprovalsAreRecorded(Step(s, actions[0]), actions[1..], id);
    }
  }

  /** An approval, a rejection and another approval, in turn. */
  predicate ReapprovedAt(vs: seq<Verdict>, i: nat)
  {
    i + 2 < |vs| && vs[i].Approve? && vs[i + 1].Reject? && vs[i + 2].Approve?
  }

  predicate Reapproved(vs: seq<Verdict>)
  {
    exists i | 0 <= i < |vs| :: ReapprovedAt(vs, i)
  }

  lemma {:induction false} TallySum(vs: seq<Verdict>)
    ensures Tally(vs, Approve) + Tally(vs, Reject) == |vs|
  {
    if vs != [] {
      TallySum(vs[..|vs| - 1]);
    }
  }

  /**
   * Among alternating verdicts about half approve, and more than one do exactly if one approves again after a
   * rejection.
   */
  lemma OneApprovalIff(vs: seq<Verdict>)
    requires Alternates(vs)
    ensures Tally(vs, Approve) <= 1 <==> !Reapproved(vs)
  {
    AlternatingTally(vs);
    TallySum(vs);
    if |vs| >= 3 {
      AlternatesFrom(vs, 0);
      if |vs| > 3 {
        AlternatesFrom(vs, 1);
      }
    }
  }

  lemma AlternatesFrom(vs: seq<Verdict>, i: nat)
    requires Alternates(vs) && i + 2 < |vs|
    ensures ReapprovedAt(vs, i) <==> vs[i].Approve?
  {
    assert vs[i] != vs[i + 1] && vs[i + 1] != vs[i + 2];
  }

  /**
   * From where a request has its answer, has not been approved and is not being reviewed, under every interleaving
   * with any call failing: a word is written for it once for each recorded approval, each lost one and each still to
   * end, so at most once exactly when these are at most one.
   */
  lemma MergedOnceIff(s: State, actions: seq<Action>, id: Id)
    requires Ready(s, id) && Held(s, id) == {} && WritesFor(s.wordWrites, id) == 0 && Approvals(s, id) == 0
    ensures var s', lost := Run(s, actions), LostMerges(s, actions, id);
      && WritesFor(s'.wordWrites, id) == Approvals(s', id) + lost + |Held(s', id)|
      && (WritesFor(s'.wordWrites, id) <= 1 <==> Approvals(s', id) + lost + |Held(s', id)| <= 1)
      && (WritesFor(s'.wordWrites, id) == Approvals(s', id) <==> lost == 0 && Held(s', id) == {})
  {
    MergesAccounted(s, actions, id);
    ApprovalsAreRecorded(s, actions, id);
  }

  /**
   * In a serial run with any call failing: when none is lost, at most once exactly when the request is never approved
   * again after being rejected; when one is lost, exactly when none is recorded. Without failing reviews none is lost.
   */
  lemma SerialMergedOnceIff(s: State, turns: seq<Turn>, id: Id)
    requires Idle(s) && HistoryTold(s) && Ready(s, id) && Held(s, id) == {}
    requires WritesFor(s.wordWrites, id) == 0 && Approvals(s, id) == 0
    ensures var s', lost := Run(s, Serial(turns)), LostMerges(s, Serial(turns), id);
      && WritesFor(s'.wordWrites, id) == Approvals(s', id) + lost
      && (WritesFor(s'.wordWrites, id) <= 1 <==>
          if lost == 0 then !Reapproved(VerdictsOn(s'.history, id)) else lost == 1 && Approvals(s', id) == 0)
      && (Faultless(turns) ==> lost == 0)
  {
    hide Ready;
    MergedOnceIff(s, Serial(turns), id);
    SerialIsUndisturbed(s, turns);
    assert Inv(s) && id in s.rows by {
      ReadyInv(s, id);
    }
    ReviewsAlternate(s, Serial(turns));
    Protocol(s, Serial(turns));
    var s' := Run(s, Serial(turns));
    assert Held(s', id) == Held(s, id);
    assert Tells(VerdictsOn(s'.history, id), s'.rows[id].review);
    OneApprovalIff(VerdictsOn(s'.history, id));
    if Faultless(turns) {
      FaultlessLosesNothing(s, turns, id);
    }
  }

  lemma ReadyInv(s: State, id: Id)
    requires Ready(s, id)
    ensures Inv(s) && id in s.rows
  {
  }

  lemma {:induction false} LostAppend(s: State, a: seq<Action>, b: seq<Action>, id: Id)
    ensures LostMerges(s, a + b, id) == LostMerges(s, a, id) + LostMerges(Run(s, a), b, id)
    decreases |a|
  {
    if a == [] {
      assert a + b == b;
    } else {
      assert (a + b)[1..] == a[1..] + b;
      LostAppend(Step(s, a[0]), a[1..], b, id);
    }
  }

  lemma {:induction false} EndsWithItsWrite(s: State, actions: seq<Action>, id: Id)
    requires forall i | 0 <= i < |actions| ::
      !actions[i].ReviewAbandon? && (actions[i].ReviewStore? ==> actions[i].applied)
    ensures LostMerges(s, actions, id) == 0
    decreases |actions|
  {
    if actions != [] {
      EndsWithItsWrite(Step(s, actions[0]), actions[1..], id);
    }
  }

  lemma {:induction false} FaultlessLosesNothing(s: State, turns: seq<Turn>, id: Id)
    requires Faultless(turns)
    ensures LostMerges(s, Serial(turns), id) == 0
    decreases |turns|
  {
    if turns != [] {
      EndsWithItsWrite(s, ActionsOf(turns[0]), id);
      assert Faultless(turns[1..]);
      FaultlessLosesNothing(Run(s, ActionsOf(turns[0])), turns[1..], id);
      LostAppend(s, ActionsOf(turns[0]), Serial(turns[1..]), id);
    }
  }

  // ---- merging turns ----

  /** The turn approves the request, there is an extracted answer, and nothing fails before the merge. */
  predicate MergesOn(s: State, turn: Turn, id: Id)
  {
    && turn.Judged? && turn.id == id && turn.verdict.Approve? && (turn.fate.Stored? || turn.fate.merged) && id in s.rows
    && Judge(s.rows[id], Approve, turn.admin, turn.at).Ok? && s.rows[id].targetWord.Some? && s.rows[id].parsed.Some?
  }

  lemma JudgeTurnWrites(s: State, turn: Turn, id: Id)
    requires Idle(s) && turn.Judged?
    ensures WritesFor(AfterJudged(s, turn).wordWrites, id)
      == WritesFor(s.wordWrites, id) + CountIf(MergesOn(s, turn, id))
  {
    hide WritesFor;
    var s1 := Step(s, ReviewLoad(0, turn.id, turn.verdict, turn.admin, turn.at));
    if 0 in s1.tasks && Merges(s1.tasks[0]) {
      WritesAppend(s.wordWrites, WordWrite(turn.id, s.rows[turn.id].targetWord.value, s.rows[turn.id].status), id);
    }
  }

  ghost function MergingTurns(s: State, turns: seq<Turn>, id: Id): nat
    decreases |turns|
  {
    if turns == [] then 0
    else CountIf(MergesOn(s, turns[0], id)) + MergingTurns(Run(s, ActionsOf(turns[0])), turns[1..], id)
  }

  /**
   * In a serial run with any call failing a word is written for a request once for each approval of it that finds an
   * extracted answer and gets as far as its merge.
   */
  lemma {:induction false} MergesAreApprovals(s: State, turns: seq<Turn>, id: Id)
    requires Idle(s)
    ensures WritesFor(Run(s, Serial(turns)).wordWrites, id) == WritesFor(s.wordWrites, id) + MergingTurns(s, turns, id)
    decreases |turns|
  {
    if turns != [] {
      TurnIdle(s, turns[0]);
      match turns[0] {
        case Ask(_, _, _) => AskTurn(s, turns[0]);
        case Answered(_, _, _, _) => AnswerTurn(s, turns[0]);
        case Judged(_, _, _, _, _) =>
          JudgeTurn(s, turns[0]);
          JudgeTurnWrites(s, turns[0], id);
      }
      RunAppend(s, ActionsOf(turns[0]), Serial(turns[1..]));
      MergesAreApprovals(Run(s, ActionsOf(turns[0])), turns[1..], id);
    }
  }

  /** For one: a status write that fails after the merge, and the approval tried again. */
  function Retry(id: Id, admin: Id): seq<Turn>
  {
    [Judged(id, Approve, admin, 0, Stored(false)), Judged(id, Approve, admin, 1, Stored(true))]
  }

  lemma SerialTwo(s: State, a: Turn, b: Turn)
    ensures Run(s, Serial([a, b])) == Run(Run(s, ActionsOf(a)), ActionsOf(b))
  {
    assert [a, b][1..] == [b] && [b][1..] == [];
    assert ActionsOf(b) + [] == ActionsOf(b) == Serial([b]);
    RunAppend(s, ActionsOf(a), Serial([b]));
  }

  lemma ApprovalTurn(s: State, id: Id, admin: Id, at: Time, applied: bool)
    requires Idle(s) && Mergeable(s, id) && Judge(s.rows[id], Approve, admin, at).Ok?
    ensures var s' := Run(s, ActionsOf(Judged(id, Approve, admin, at, Stored(applied))));
      && Idle(s') && WritesFor(s'.wordWrites, id) == WritesFor(s.wordWrites, id) + 1
      && s'.history == (if applied then s.history + [(id, Approve)] else s.history)
      && (!applied ==> s'.rows == s.rows)
  {
    hide WritesFor;
    var turn := Judged(id, Approve, admin, at, Stored(applied));
    JudgeTurn(s, turn);
    JudgeTurnEnds(s, turn);
    JudgeTurnWrites(s, turn, id);
  }

  lemma RetryMergesAgain(s: State, id: Id, admin: Id)
    requires Idle(s) && Mergeable(s, id) && Judge(s.rows[id], Approve, admin, 0).Ok?
    ensures var s' := Run(s, Serial(Retry(id, admin)));
      && WritesFor(s'.wordWrites, id) == WritesFor(s.wordWrites, id) + 2
      && s'.history == s.history + [(id, Approve)]
  {
    hide WritesFor;
    var turns := Retry(id, admin);
    ApprovalTurn(s, id, admin, 0, false);
    ApprovalTurn(Run(s, ActionsOf(turns[0])), id, admin, 1, true);
    SerialTwo(s, turns[0], turns[1]);
  }
}
