/** EnrichmentService: asking the language model, and reviewing its answers (internal/ai/application/commands). */
module Enrichment {
  import opened Common
  import opened Dictionary
  import opened WordRepository
  import opened Merges
  import A = AiRequests
  import C = Contributions
  import M = Moderation

  // ---- the JSON object in an answer ----

  /** strings.Index: the first position of c, or none. */
  function FirstIndex(s: string, c: char): (r: Option<nat>)
    ensures r.Some? ==> r.value < |s| && s[r.value] == c && c !in s[..r.value]
    ensures r.None? ==> c !in s
  {
    if s == [] then None
    else if s[0] == c then Some(0)
    else
      var rest := FirstIndex(s[1..], c);
      if rest.None? then None else Some(rest.value + 1)
  }

  function LastIndex(s: string, c: char): (r: Option<nat>)
    ensures r.Some? ==> r.value < |s| && s[r.value] == c && c !in s[r.value + 1..]
    ensures r.None? ==> c !in s
  {
    if s == [] then None
    else if s[|s| - 1] == c then Some(|s| - 1)
    else LastIndex(s[..|s| - 1], c)
  }

  /** The text handed to the JSON decoder: from the first opening brace to the last closing one after it. */
  function Trimmed(content: string): string
  {
    var open := FirstIndex(content, '{');
    var tail := if open.Some? then content[open.value..] else content;
    var close := LastIndex(tail, '}');
    if close.Some? then tail[..close.value + 1] else tail
  }

  function ExtractJson(content: string, decode: string -> Option<A.Document>): Option<A.Document>
  {
    decode(Trimmed(content))
  }

  lemma {:induction false} FirstIndexOf(before: string, rest: string, c: char)
    requires c !in before && rest != [] && rest[0] == c
    ensures FirstIndex(before + rest, c) == Some(|before|)
  {
    if before == [] {
      assert before + rest == rest;
    } else {
      assert (before + rest)[1..] == before[1..] + rest;
      FirstIndexOf(before[1..], rest, c);
    }
  }

  lemma {:induction false} LastIndexOf(rest: string, after: string, c: char)
    requires c !in after && rest != [] && rest[|rest| - 1] == c
    ensures LastIndex(rest + after, c) == Some(|rest| - 1)
  {
    if after == [] {
      assert rest + after == rest;
    } else {
      var n := |after| - 1;
      assert (rest + after)[..|rest + after| - 1] == rest + after[..n];
      LastIndexOf(rest, after[..n], c);
    }
  }

  /**
   * Prose around an object does not matter, as long as none before it has an opening brace and none after it a
   * closing one.
   */
  lemma ObjectIsExtracted(before: string, text: string, after: string)
    requires |text| >= 2 && text[0] == '{' && text[|text| - 1] == '}'
    requires '{' !in before && '}' !in after
    ensures Trimmed(before + text + after) == text
  {
    FirstIndexOf(before, text + after, '{');
    assert before + text + after == before + (text + after);
    assert (before + (text + after))[|before|..] == text + after;
    LastIndexOf(text, after, '}');
  }

  lemma FirstIndexIs(s: string, c: char, k: nat)
    requires k < |s| && s[k] == c && c !in s[..k]
    ensures FirstIndex(s, c) == Some(k)
  {
    FirstIndexOf(s[..k], s[k..], c);
    assert s == s[..k] + s[k..];
  }

  lemma LastIndexIs(s: string, c: char, k: nat)
    requires k < |s| && s[k] == c && c !in s[k + 1..]
    ensures LastIndex(s, c) == Some(k)
  {
    LastIndexOf(s[..k + 1], s[k + 1..], c);
    assert s == s[..k + 1] + s[k + 1..];
  }

  /**
   * What is cut out of any text: from its first opening brace, or its beginning if it has none, to the last closing
   * brace after that, or to its end.
   */
  lemma TrimmedIs(content: string, first: nat, end: nat)
    requires first <= end <= |content|
    requires if '{' in content then first < |content| && content[first] == '{' && '{' !in content[..first]
             else first == 0
    requires if '}' in content[first..] then first < end && content[end - 1] == '}' && '}' !in content[end..]
             else end == |content|
    ensures Trimmed(content) == content[first..end]
  {
    hide FirstIndex, LastIndex;
    var tail := content[first..];
    if '{' in content {
      FirstIndexIs(content, '{', first);
    } else {
      assert tail == content;
    }
    if '}' in tail {
      assert tail[end - first..] == content[end..];
      LastIndexIs(tail, '}', end - first - 1);
    }
  }

  // ---- the service's stores ----

  /**
   * Requests, dictionary, contributions and audit log, the links to them, and the requests whose goroutine has not
   * run.
   */
  datatype World = World(
    runners: set<Id>, requests: A.Table, rlink: Link, d: Dict, wlink: Link, contributions: C.Table, clink: Link,
        log: seq<M.AuditEntry>, alink: Link)

  datatype Error =
    | WordNotFound | ContributionNotFound | RequestNotFound | Conflict | MergeFailed(error: MergeError) | CallFailed

  datatype Outcome = Outcome(w: World, error: Option<Error>)

  // ---- the commands, call by call ----

  /** INSERT, then one goroutine for the request. */
  function Asked(w: World, id: Id, r: A.Request): Outcome
  {
    var reply := Call(w.rlink);
    Outcome(w.(requests := if reply.applied then w.requests[id := r] else w.requests, rlink := reply.link,
               runners := if reply.ok then w.runners + {id} else w.runners),
            if reply.ok then None else Some(CallFailed))
  }

  function WordTriggered(w: World, kind: A.Kind, admin: Id, word: Id, model: string, prompt: Word -> string, id: Id,
                         now: Time): Outcome
  {
    var lookup := FoundOver(w.d, w.wlink, word);
    var w1 := w.(wlink := lookup.link);
    if lookup.found.Err? then Outcome(w1, Some(Error.WordNotFound))
    else Asked(w1, id, A.NewRequest(kind, Some(word), None, admin, model, prompt(lookup.found.value), now))
  }

  function CheckTriggered(w: World, admin: Id, contribution: Id, model: string, prompt: C.Contribution -> string,
                          id: Id, now: Time)
    : Outcome
  {
    var reply := Call(w.clink);
    var w1 := w.(clink := reply.link);
    if !reply.ok || contribution !in w.contributions then Outcome(w1, Some(ContributionNotFound))
    else
      Asked(w1, id, A.NewRequest(A.QualityCheck, None, Some(contribution), admin, model,
                                 prompt(w.contributions[contribution]), now))
  }

  /** What the language model's client comes back with: an error, or a text and the model that wrote it. */
  datatype Completion = LlmFailure(message: string) | LlmText(content: string, model: string)

  function AnswerOf(model: string, decode: string -> Option<A.Document>, completion: Completion): A.Answer
  {
    match completion
    case LlmFailure(message) => A.LlmError(map["model" := Str(model), "error" := Str(message)])
    case LlmText(content, writer) => A.LlmReply(map["model" := Str(writer), "content" := Str(content)],
                                                ExtractJson(content, decode))
  }

  /** The goroutine, if nothing else touches its request meanwhile. */
  function Ran(w: World, id: Id, answer: A.Answer): World
  {
    var reply := Call(w.rlink);
    var w1 := w.(rlink := reply.link, runners := w.runners - {id});
    if !reply.ok || id !in w.requests then w1
    else
      var reply2 := Call(w1.rlink);
      w1.(requests := if reply2.applied then A.Write(w.requests, id, A.Finish(w.requests[id], answer)) else w.requests,
          rlink := reply2.link)
  }

  /** The review's write, then an audit entry whose failure is ignored. */
  function Reviewed(w: World, id: Id, copy: A.Request, entry: M.AuditEntry): Outcome
  {
    var reply := Call(w.rlink);
    var w1 := w.(requests := if reply.applied then A.Write(w.requests, id, copy) else w.requests, rlink := reply.link);
    if !reply.ok then Outcome(w1, Some(CallFailed))
    else
      var reply2 := Call(w1.alink);
      Outcome(w1.(log := if reply2.applied then w1.log + [entry] else w1.log, alink := reply2.link), None)
  }

  function AiApproved(w: World, admin: Id, id: Id, now: Time): Outcome
  {
    var reply := Call(w.rlink);
    var w1 := w.(rlink := reply.link);
    if !reply.ok || id !in w.requests then Outcome(w1, Some(RequestNotFound))
    else
      var judged := A.Judge(w.requests[id], A.Approve, admin, now);
      if judged.Err? then Outcome(w1, Some(Error.Conflict))
      else
        var merge := MergeAnswer(w.d, w.wlink, judged.value, now);
        var w2 := w1.(d := merge.d, wlink := merge.link);
        if merge.error.Some? then Outcome(w2, Some(MergeFailed(merge.error.value)))
        else Reviewed(w2, id, judged.value, M.AuditEntry(admin, M.ApproveAi, id))
  }

  function AiRejected(w: World, admin: Id, id: Id, now: Time): Outcome
  {
    var reply := Call(w.rlink);
    var w1 := w.(rlink := reply.link);
    if !reply.ok || id !in w.requests then Outcome(w1, Some(RequestNotFound))
    else
      var judged := A.Judge(w.requests[id], A.Reject, admin, now);
      if judged.Err? then Outcome(w1, Some(Error.Conflict))
      else Reviewed(w1, id, judged.value, M.AuditEntry(admin, M.RejectAi, id))
  }

  /** One command of the service, or one goroutine from its read to its write. */
  datatype Command =
    | Trigger(kind: A.Kind, word: Id, admin: Id, model: string, prompt: string, id: Id)
    | Check(contribution: Id, admin: Id, model: string, prompt: string, id: Id)
    | Finish(id: Id, answer: A.Answer)
    | Review(verdict: A.Verdict, id: Id, admin: Id)

  function ReviewCommand(w: World, verdict: A.Verdict, admin: Id, id: Id, now: Time): Outcome
  {
    if verdict.Approve? then AiApproved(w, admin, id, now) else AiRejected(w, admin, id, now)
  }

  /** A goroutine runs once, and new requests have new ids. */
  function After(w: World, c: Command, now: Time): World
  {
    match c
    case Trigger(kind, word, admin, model, prompt, id) =>
      if kind.QualityCheck? || id in w.requests then w
        else WordTriggered(w, kind, admin, word, model, _ => prompt, id, now).w
    case Check(contribution, admin, model, prompt, id) =>
      if id in w.requests then w else CheckTriggered(w, admin, contribution, model, _ => prompt, id, now).w
    case Finish(id, answer) => if id in w.runners then Ran(w, id, answer) else w
    case Review(verdict, id, admin) => ReviewCommand(w, verdict, admin, id, now).w
  }

  // ---- the code ----

  class AiRequestRepository {
    var rows: A.Table
    var link: Link

    method Create(id: Id, r: A.Request) returns (ok: bool)
      requires id !in rows
      modifies this
      ensures var reply := Call(old(link));
        ok == reply.ok && link == reply.link && rows == if reply.applied then old(rows)[id := r] else old(rows)
    {
      var reply := Call(link);
      link := reply.link;
      if reply.applied {
        rows := rows[id := r];
      }
      ok := reply.ok;
    }

    method FindByID(id: Id) returns (r: A.Aggregate?)
      modifies this`link
      ensures link == Call(old(link)).link
      ensures r != null <==> Call(old(link)).ok && id in rows
      ensures r != null ==> fresh(r) && r.Value() == rows[id]
    {
      var reply := Call(link);
      link := reply.link;
      r := null;
      if reply.ok && id in rows {
        r := new A.Aggregate(rows[id]);
      }
    }

    method Update(id: Id, r: A.Aggregate) returns (ok: bool)
      modifies this
      ensures var reply := Call(old(link));
        && ok == reply.ok && link == reply.link
        && rows == if reply.applied then A.Write(old(rows), id, r.Value()) else old(rows)
    {
      var reply := Call(link);
      link := reply.link;
      if reply.applied {
        rows := A.Write(rows, id, r.Value());
      }
      ok := reply.ok;
    }
  }

  class EnrichmentService {
    const aiRepo: AiRequestRepository
    const words: PostgresWordRepository
    const contribs: C.Repository
    const auditLog: M.AuditRepository
    const model: string
    const wordPrompt: (A.Kind, Word) -> string
    const checkPrompt: C.Contribution -> string
    const decode: string -> Option<A.Document>
    /** The goroutines started and not yet run, by request. */
    var runners: set<Id>

    function State(): World
      reads this, aiRepo, words.q, contribs, auditLog
    {
      World(runners, aiRepo.rows, aiRepo.link, words.q.d, words.q.link, contribs.rows, contribs.link, auditLog.log,
            auditLog.link)
    }

    constructor (aiRepo: AiRequestRepository, words: PostgresWordRepository, contribs: C.Repository,
                 auditLog: M.AuditRepository,
                 model: string, wordPrompt: (A.Kind, Word) -> string, checkPrompt: C.Contribution -> string,
                 decode: string -> Option<A.Document>)
      ensures this.aiRepo == aiRepo && this.words == words && this.contribs == contribs && this.auditLog == auditLog
      ensures this.model == model && this.wordPrompt == wordPrompt && this.checkPrompt == checkPrompt
        && this.decode == decode
      ensures runners == {}
    {
      this.aiRepo, this.words, this.contribs, this.auditLog := aiRepo, words, contribs, auditLog;
      this.model, this.wordPrompt, this.checkPrompt, this.decode, runners := model, wordPrompt, checkPrompt, decode, {};
    }

    /**
     * TriggerDefinitionEnrichment, TriggerExampleSuggestion and TriggerRelatedWordSuggestion differ in kind and
     * prompt only.
     */
    method TriggerOnWord(kind: A.Kind, admin: Id, wordId: Id, id: Id, now: Time) returns (error: Option<Error>)
      requires !kind.QualityCheck? && id !in aiRepo.rows
      modifies this`runners, aiRepo, words.q`link
      ensures WordTriggered(old(State()), kind, admin, wordId, model, w => wordPrompt(kind, w), id, now)
        == Outcome(State(), error)
    {
      var word, missing := words.FindByID(wordId);
      if word == null {
        return Some(Error.WordNotFound);
      }
      var prompt := wordPrompt(kind, word.Value());
      var ok := aiRepo.Create(id, A.NewRequest(kind, Some(wordId), None, admin, model, prompt, now));
      if !ok {
        return Some(CallFailed);
      }
      runners := runners + {id};
      error := None;
    }

    method TriggerQualityCheck(admin: Id, contributionId: Id, id: Id, now: Time) returns (error: Option<Error>)
      requires id !in aiRepo.rows
      modifies this`runners, aiRepo, contribs`link
      ensures CheckTriggered(old(State()), admin, contributionId, model, checkPrompt, id, now)
        == Outcome(State(), error)
    {
      var c := contribs.FindByID(contributionId);
      if c == null {
        return Some(ContributionNotFound);
      }
      var prompt := checkPrompt(c.Value());
      var ok := aiRepo.Create(id, A.NewRequest(A.QualityCheck, None, Some(contributionId), admin, model, prompt, now));
      if !ok {
        return Some(CallFailed);
      }
      runners := runners + {id};
      error := None;
    }

    method RunLLM(id: Id, completion: Completion)
      modifies this`runners, aiRepo
      ensures State() == Ran(old(State()), id, AnswerOf(model, decode, completion))
    {
      runners := runners - {id};
      var r := aiRepo.FindByID(id);
      if r == null {
        return;
      }
      match completion
      case LlmFailure(message) =>
        r.MarkFailed(map["model" := Str(model), "error" := Str(message)]);
        var _ := aiRepo.Update(id, r);
      case LlmText(content, writer) =>
        var parsed := ExtractJson(content, decode);
        var _ := r.MarkCompleted(map["model" := Str(writer), "content" := Str(content)], parsed);
        var _ := aiRepo.Update(id, r);
    }

    method ApproveAIRequest(admin: Id, id: Id, now: Time) returns (error: Option<Error>)
      modifies aiRepo, words.q, auditLog
      ensures AiApproved(old(State()), admin, id, now) == Outcome(State(), error)
    {
      var r := aiRepo.FindByID(id);
      if r == null {
        return Some(RequestNotFound);
      }
      var refused := r.ApproveBy(admin, now);
      if refused.Some? {
        return Some(Error.Conflict);
      }
      if r.targetWord.Some? {
        var failed := MergeAIOutput(r, now);
        if failed.Some? {
          return Some(MergeFailed(failed.value));
        }
      }
      var ok := aiRepo.Update(id, r);
      if !ok {
        return Some(CallFailed);
      }
      var _ := auditLog.CreateAuditLog(M.AuditEntry(admin, M.ApproveAi, id));
      error := None;
    }

    method RejectAIRequest(admin: Id, id: Id, now: Time) returns (error: Option<Error>)
      modifies aiRepo, auditLog
      ensures AiRejected(old(State()), admin, id, now) == Outcome(State(), error)
    {
      var r := aiRepo.FindByID(id);
      if r == null {
        return Some(RequestNotFound);
      }
      var refused := r.RejectBy(admin, now);
      if refused.Some? {
        return Some(Error.Conflict);
      }
      var ok := aiRepo.Update(id, r);
      if !ok {
        return Some(CallFailed);
      }
      var _ := auditLog.CreateAuditLog(M.AuditEntry(admin, M.RejectAi, id));
      error := None;
    }

    method MergeAIOutput(r: A.Aggregate, now: Time) returns (error: Option<MergeError>)
      requires r.targetWord.Some?
      modifies words.q
      ensures MergeAnswer(old(words.q.d), old(words.q.link), r.Value(), now) == Merged(words.q.d, error, words.q.link)
    {
      if r.parsed.None? {
        return None;
      }
      var word, missing := words.FindByID(r.targetWord.value);
      if word == null {
        return Some(MergeError.WordNotFound);
      }
      ghost var was, link := word.Value(), words.q.link;
      var ok := EditByAnswer(word, r.kind, r.parsed.value, now);
      if !ok {
        return Some(MeaningTooLong);
      }
      var failed := words.Update(word, now);
      EditSteps(old(words.q.d), old(words.q.link), r.targetWord.value, AiEditOf(r.kind, r.parsed.value), now, was,
                link, word.Value(),
                Done(words.q.d, failed, words.q.link));
      error := if failed.Some? then Some(StoreFailed(failed.value)) else None;
    }

    /** A suggested related word is looked up, but nothing of it is stored. */
    method EditByAnswer(word: WordAggregate, kind: A.Kind, parsed: A.Document, now: Time) returns (ok: bool)
      modifies word, words.q
      ensures Apply(old(word.Value()), AiEditOf(kind, parsed), old(words.q.d.nextId), now)
        == if ok then Ok(word.Value()) else Err(MeaningTooLong)
      ensures words.q.link == EditLink(old(words.q.d), old(words.q.link), AiEditOf(kind, parsed))
      ensures words.q.d == if ok then Drawn(old(words.q.d), AiEditOf(kind, parsed)) else old(words.q.d)
    {
      ok := true;
      match kind
      case EnrichDefinition =>
        var meaning := StringAt(parsed, "definition");
        if meaning != "" {
          word.columns := word.columns.(source := AiGenerated);
          ok := word.AddDefinition(words.q.d.nextId, meaning, |word.definitions| + 1, now);
          if ok {
            var _ := words.q.NewId();
          }
        }
      case SuggestExample =>
        var sentence := StringAt(parsed, "banjar_sentence");
        if sentence != "" {
          word.columns := word.columns.(source := AiGenerated);
          var child := words.q.NewId();
          word.AddExample(child, sentence, StringAt(parsed, "indonesian_translation"), now);
        }
      case SuggestRelated =>
        var related := StringAt(parsed, "related_word");
        if related != "" {
          var _ := words.FindByBanjar(related);
        }
      case QualityCheck =>
    }
  }

  // ---- the commands are runs of the protocol ----

  /** The machine and the service have the same requests, and the same goroutines to come. */
  ghost predicate Matches(s: A.State, w: World)
  {
    s.rows == w.requests && s.runners.Keys == w.runners
  }

  /**
   * A trigger is the machine's first step: a new request about the word that was found, and a goroutine if it could
   * be stored.
   */
  lemma TriggerRefines(w: World, s: A.State, kind: A.Kind, admin: Id, word: Id, model: string, prompt: Word -> string,
                       id: Id, now: Time)
    requires Matches(s, w) && id !in s.rows && !kind.QualityCheck?
    ensures var o := WordTriggered(w, kind, admin, word, model, prompt, id, now);
      var reply := Call(w.rlink);
      if FoundOver(w.d, w.wlink, word).found.Err? then o.error.Some? && Matches(s, o.w)
      else
        var r := A.NewRequest(kind, Some(word), None, admin, model, prompt(Found(w.d, word).value), now);
        && (o.error.None? <==> reply.ok)
        && (if reply.applied then Matches(A.Step(s, A.Trigger(id, r, reply.ok)), o.w) else Matches(s, o.w))
  {
  }

  /** So is a quality check, whose request targets a contribution and no word. */
  lemma CheckRefines(w: World, s: A.State, admin: Id, c: Id, model: string, prompt: C.Contribution -> string, id: Id,
                     now: Time)
    requires Matches(s, w) && id !in s.rows
    ensures var o := CheckTriggered(w, admin, c, model, prompt, id, now);
      var reply := Call(w.rlink);
      if !Call(w.clink).ok || c !in w.contributions then o.error.Some? && Matches(s, o.w)
      else
        var r := A.NewRequest(A.QualityCheck, None, Some(c), admin, model, prompt(w.contributions[c]), now);
        && (o.error.None? <==> reply.ok)
        && (if reply.applied then Matches(A.Step(s, A.Trigger(id, r, reply.ok)), o.w) else Matches(s, o.w))
  {
  }

  /** No review of a quality check touches the dictionary, in any world and over any links. */
  lemma QualityCheckTouchesNoWord(w: World, verdict: A.Verdict, admin: Id, id: Id, now: Time)
    requires id in w.requests && w.requests[id].kind.QualityCheck?
    ensures var o := ReviewCommand(w, verdict, admin, id, now);
      o.w.d == w.d && (verdict.Approve? ==> o.error.Some? && o.w.requests == w.requests)
  {
  }

  /** The goroutine, run alone, takes the machine's two steps. */
  lemma RunnerRefines(w: World, s: A.State, id: Id, answer: A.Answer)
    requires Matches(s, w) && id in s.runners && s.runners[id].Spawned? && id in s.rows
    ensures var one := Call(w.rlink);
      Matches(A.Run(s, [A.RunnerLoad(id, one.ok), A.RunnerStore(id, answer, Call(one.link).applied)]),
              Ran(w, id, answer))
  {
    var one := Call(w.rlink);
    var load, store := A.RunnerLoad(id, one.ok), A.RunnerStore(id, answer, Call(one.link).applied);
    A.RunSnoc(s, [], load);
    A.RunSnoc(s, [load], store);
    assert [] + [load] == [load] && [load] + [store] == [load, store];
    var s1 := A.Step(s, load);
    assert s1.rows == s.rows;
    assert A.Step(s1, store).runners.Keys == w.runners - {id};
  }

  /** A text with one JSON object in its prose completes a pending request with what the object decodes to. */
  lemma RunnerStoresObject(w: World, model: string, decode: string -> Option<A.Document>, id: Id, writer: string,
                           before: string, text: string, after: string)
    requires Call(w.rlink).ok && Call(Call(w.rlink).link).applied && id in w.requests && w.requests[id].status.Pending?
    requires |text| >= 2 && text[0] == '{' && text[|text| - 1] == '}' && '{' !in before && '}' !in after
    ensures var w' := Ran(w, id, AnswerOf(model, decode, LlmText(before + text + after, writer)));
      id in w'.requests && w'.requests[id].status.Completed? && w'.requests[id].parsed == decode(text)
  {
    ObjectIsExtracted(before, text, after);
  }

  /** A review's load succeeds, and so does its merge if it is an approval. */
  predicate ReachesStore(w: World, verdict: A.Verdict, admin: Id, id: Id, now: Time)
  {
    && Call(w.rlink).ok && id in w.requests && A.Judge(w.requests[id], verdict, admin, now).Ok?
    && (verdict.Approve? ==>
        MergeAnswer(w.d, w.wlink, A.Judge(w.requests[id], verdict, admin, now).value, now).error.None?)
  }

  function Stored(rows: A.Table, verdict: A.Verdict, admin: Id, id: Id, now: Time, applied: bool): A.Table
    requires id in rows && A.Judge(rows[id], verdict, admin, now).Ok?
  {
    if applied then A.Write(rows, id, A.Judge(rows[id], verdict, admin, now).value) else rows
  }

  lemma ReviewStores(w: World, verdict: A.Verdict, admin: Id, id: Id, now: Time)
    ensures ReviewCommand(w, verdict, admin, id, now).w.requests
      == if ReachesStore(w, verdict, admin, id, now)
         then Stored(w.requests, verdict, admin, id, now, Call(Call(w.rlink).link).applied) else w.requests
  {
  }

  lemma ProtocolStores(s: A.State, t: nat, verdict: A.Verdict, admin: Id, id: Id, now: Time, applied: bool)
    requires t !in s.tasks && id in s.rows && A.Judge(s.rows[id], verdict, admin, now).Ok?
    ensures A.Run(s, [A.ReviewLoad(t, id, verdict, admin, now), A.MergeWord(t), A.ReviewStore(t, applied)]).rows
      == Stored(s.rows, verdict, admin, id, now, applied)
  {
    var load, merge, store := A.ReviewLoad(t, id, verdict, admin, now), A.MergeWord(t), A.ReviewStore(t, applied);
    A.RunSnoc(s, [], load);
    A.RunSnoc(s, [load], merge);
    A.RunSnoc(s, [load, merge], store);
    assert [] + [load] == [load] && [load] + [merge] == [load, merge]
      && [load, merge] + [store] == [load, merge, store];
    var s1 := A.Step(s, load);
    var s2 := A.Step(s1, merge);
    assert s1.rows == s.rows && s2.rows == s.rows && t in s2.tasks && s2.tasks[t].copy == s1.tasks[t].copy
      && s2.tasks[t].id == id;
  }

  /** A review, run alone, either never writes its request or takes the protocol's load, merge and store. */
  lemma ReviewRefines(w: World, s: A.State, t: nat, verdict: A.Verdict, admin: Id, id: Id, now: Time)
    requires s.rows == w.requests && t !in s.tasks
    ensures var w' := ReviewCommand(w, verdict, admin, id, now).w;
      if ReachesStore(w, verdict, admin, id, now) then
        w'.requests == A.Run(s,
                             [A.ReviewLoad(t, id, verdict, admin, now), A.MergeWord(t),
                              A.ReviewStore(t, Call(Call(w.rlink).link).applied)]).rows
      else w'.requests == w.requests
  {
    ReviewStores(w, verdict, admin, id, now);
    if ReachesStore(w, verdict, admin, id, now) {
      ProtocolStores(s, t, verdict, admin, id, now, Call(Call(w.rlink).link).applied);
    }
  }

  // ---- and what they do to the dictionary ----

  lemma AnswerLeavesOthers(d: Dict, link: Link, r: A.Request, now: Time, x: Id)
    requires Valid(d) && r.targetWord != Some(x)
    ensures var m := MergeAnswer(d, link, r, now); Valid(m.d) && SameWord(d, m.d, x)
  {
    if r.targetWord.Some? && r.parsed.Some? {
      EditLeavesOthers(d, link, r.targetWord.value, AiEditOf(r.kind, r.parsed.value), now, x);
    }
  }

  lemma ReviewMerges(w: World, verdict: A.Verdict, admin: Id, id: Id, now: Time)
    ensures ReviewCommand(w, verdict, admin, id, now).w.d
      == if verdict.Approve? && Call(w.rlink).ok && id in w.requests && A.Judge(w.requests[id], verdict, admin, now).Ok?
         then MergeAnswer(w.d, w.wlink, A.Judge(w.requests[id], verdict, admin, now).value, now).d else w.d
  {
  }

  /**
   * Whatever fails, a review leaves every word alone but the one its request targets; a rejection leaves that one
   * too.
   */
  lemma {:induction false} ReviewLeavesOthers(w: World, verdict: A.Verdict, admin: Id, id: Id, now: Time, x: Id)
    requires Valid(w.d)
    requires id in w.requests && verdict.Approve? ==> w.requests[id].targetWord != Some(x)
    ensures var w' := ReviewCommand(w, verdict, admin, id, now).w; Valid(w'.d) && SameWord(w.d, w'.d, x)
  {
    ReviewMerges(w, verdict, admin, id, now);
    if verdict.Approve? && id in w.requests && A.Judge(w.requests[id], A.Approve, admin, now).Ok? {
      AnswerLeavesOthers(w.d, w.wlink, A.Judge(w.requests[id], A.Approve, admin, now).value, now, x);
    }
  }

  lemma {:induction false} ApprovalAppends(w: World, admin: Id, id: Id, now: Time, x: Id)
    requires w.rlink.Up? && w.wlink.Up? && id in w.requests && A.Judge(w.requests[id], A.Approve, admin, now).Ok?
    requires Valid(w.d) && Sorted(w.d, x)
    requires Carried(OfRequest(w.requests[id], now), x) != [] && |DefinitionsOf(w.d, x)| < 0x7FFF
    ensures var o := AiApproved(w, admin, id, now);
      && o.error.None? && Valid(o.w.d) && Sorted(o.w.d, x)
        && Appended(w.d, o.w.d, x, Carried(OfRequest(w.requests[id], now), x))
      && o.w.requests == w.requests[id := A.Judge(w.requests[id], A.Approve, admin, now).value]
      && o.w.rlink.Up? && o.w.wlink.Up?
  {
    var r := A.Judge(w.requests[id], A.Approve, admin, now).value;
    var a := OfRequest(r, now);
    assert Carried(a, x) == Carried(OfRequest(w.requests[id], now), x);
    CarriedMerges(w.d, a, x);
    OneMerge(w.d, a, x);
    MergeKeepsLink(w.d, a);
  }

  predicate ApprovedIn(requests: A.Table, id: Id)
  {
    id in requests && requests[id].review.Approved?
  }

  /** The meaning that reaches the word x with a command: that of the request whose review becomes approved with it. */
  function MeaningsOf(w: World, c: Command, now: Time, x: Id): seq<string>
  {
    var w' := After(w, c, now);
    if c.Review? && c.verdict.Approve? && ApprovedIn(w'.requests, c.id) && !ApprovedIn(w.requests, c.id) then
      Carried(OfRequest(w'.requests[c.id], now), x)
    else []
  }

  /** An approval, merged: either it is stored and has appended its meaning, or it carries none and appends nothing. */
  lemma {:induction false} ApprovalShape(w: World, admin: Id, id: Id, now: Time, x: Id)
    requires w.rlink.Up? && w.wlink.Up? && id in w.requests && A.Judge(w.requests[id], A.Approve, admin, now).Ok?
    requires Valid(w.d) && Sorted(w.d, x)
    ensures var o, r := AiApproved(w, admin, id, now), A.Judge(w.requests[id], A.Approve, admin, now).value;
      && o.w.d == Merge(w.d, Up, OfRequest(r, now)).d
      && (if ApprovedIn(o.w.requests, id) then o.w.requests[id] == r else Carried(OfRequest(r, now), x) == [])
  {
    var r := A.Judge(w.requests[id], A.Approve, admin, now).value;
    if Carried(OfRequest(r, now), x) != [] {
      CarriedMerges(w.d, OfRequest(r, now), x);
    }
  }

  lemma {:induction false} OtherCommandsMergeNothing(w: World, c: Command, now: Time)
    requires c.Review? && c.verdict.Approve? ==>
      c.id !in w.requests || A.Judge(w.requests[c.id], A.Approve, c.admin, now).Err?
    ensures After(w, c, now).d == w.d
    ensures c.Review? && c.verdict.Approve? ==> After(w, c, now).requests == w.requests
  {
  }

  /** Over good links a command appends to a sorted word just what its approval carries. */
  lemma {:induction false} CommandAppends(w: World, c: Command, now: Time, x: Id)
    requires w.rlink.Up? && w.wlink.Up? && Valid(w.d) && Sorted(w.d, x)
    requires |DefinitionsOf(w.d, x)| + |MeaningsOf(w, c, now, x)| <= 0x7FFF
    ensures var w' := After(w, c, now);
      Valid(w'.d) && Sorted(w'.d, x) && Appended(w.d, w'.d, x, MeaningsOf(w, c, now, x))
  {
    if c.Review? && c.verdict.Approve? && c.id in w.requests && A.Judge(w.requests[c.id], A.Approve, c.admin, now).Ok? {
      var r := A.Judge(w.requests[c.id], A.Approve, c.admin, now).value;
      ApprovalShape(w, c.admin, c.id, now, x);
      SortedFits(w.d, x);
      OneMerge(w.d, OfRequest(r, now), x);
    } else {
      OtherCommandsMergeNothing(w, c, now);
    }
  }

  lemma MergeKeepsLink(d: Dict, a: Approval)
    requires a.OfRequest?
    ensures Merge(d, Up, a).link == Up
  {
    var r := a.r;
    if r.targetWord.Some? && r.parsed.Some? && Visible(d, r.targetWord.value) {
      var w := Apply(Found(d, r.targetWord.value).value, AiEditOf(r.kind, r.parsed.value), d.nextId, a.now);
      if w.Ok? {
        GoodLinkUpdate(Drawn(d, AiEditOf(r.kind, r.parsed.value)), w.value, a.now);
      }
    }
  }

  lemma RejectionKeeps(w: World, admin: Id, id: Id, now: Time)
    requires w.rlink.Up? && id in w.requests && w.requests[id].review.Approved?
    ensures var w' := AiRejected(w, admin, id, now).w;
      && w'.d == w.d && w'.wlink == w.wlink && w'.rlink.Up?
      && w'.requests == w.requests[id := A.Judge(w.requests[id], A.Reject, admin, now).value]
  {
  }

  /** Nothing marks a request as merged: approving, rejecting and approving it again adds its definition twice. */
  lemma {:induction false} ReapprovalMergesAgain(w: World, admin: Id, id: Id, now: Time, x: Id)
    requires w.rlink.Up? && w.wlink.Up? && id in w.requests && A.Judge(w.requests[id], A.Approve, admin, now).Ok?
    requires Valid(w.d) && Sorted(w.d, x)
    requires Carried(OfRequest(w.requests[id], now), x) != [] && |DefinitionsOf(w.d, x)| + 2 <= 0x7FFF
    ensures var w1 := AiApproved(w, admin, id, now).w;
      var w2 := AiRejected(w1, admin, id, now).w;
      var meaning := Carried(OfRequest(w.requests[id], now), x)[0];
      Appended(w.d, AiApproved(w2, admin, id, now).w.d, x, [meaning, meaning])
  {
    hide Valid, Sorted, Appended, AiApproved, AiRejected;
    var meaning := Carried(OfRequest(w.requests[id], now), x)[0];
    ApprovalAppends(w, admin, id, now, x);
    var w1 := AiApproved(w, admin, id, now).w;
    RejectionKeeps(w1, admin, id, now);
    var w2 := AiRejected(w1, admin, id, now).w;
    assert Carried(OfRequest(w2.requests[id], now), x) == [meaning];
    ApprovalAppends(w2, admin, id, now, x);
    AppendedTwice(w.d, w1.d, AiApproved(w2, admin, id, now).w.d, x, [meaning], [meaning]);
    assert [meaning] + [meaning] == [meaning, meaning];
  }
}
