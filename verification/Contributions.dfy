/** internal/community: contributions, their review, and concurrent commands on them. */
module Contributions {
  import opened Common

  datatype Kind = NewWord | NewDefinition | NewExample | EditWord

  datatype Status = Pending | Approved | Rejected | Withdrawn

  datatype Contribution = Contribution(
    kind: Kind, contributor: Id, target: Option<Id>, payload: map<string, Json>,
    status: Status, reviewer: Option<Id>, note: Option<string>, reviewedAt: Option<Time>)

  datatype DomainError = TargetRequired | InvalidTransition | Forbidden

  // ---- the aggregate ----

  function Submitted(contributor: Id, kind: Kind, target: Option<Id>,
                     payload: map<string, Json>): Result<Contribution, DomainError>
  {
    if !kind.NewWord? && target.None? then Err(TargetRequired)
    else Ok(Contribution(kind, contributor, target, payload, Pending, None, None, None))
  }

  /** What a command decides on a contribution it has loaded. */
  datatype Decision =
    | ApproveBy(admin: Id, note: string, at: Time)
    | RejectBy(admin: Id, note: string, at: Time)
    | WithdrawBy(caller: Id)

  function Reviewed(c: Contribution, status: Status, admin: Id, note: string, at: Time): Contribution
  {
    c.(status := status, reviewer := Some(admin), reviewedAt := Some(at),
       note := if note != "" then Some(note) else c.note)
  }

  function Decide(c: Contribution, decision: Decision): Result<Contribution, DomainError>
  {
    match decision
    case ApproveBy(admin, note, at) =>
      if !c.status.Pending? then Err(InvalidTransition) else Ok(Reviewed(c, Approved, admin, note, at))
    case RejectBy(admin, note, at) =>
      if !c.status.Pending? then Err(InvalidTransition) else Ok(Reviewed(c, Rejected, admin, note, at))
    case WithdrawBy(caller) =>
      if c.contributor != caller then Err(Forbidden)
      else if !c.status.Pending? then Err(InvalidTransition)
      else Ok(c.(status := Withdrawn))
  }

  /** The loaded aggregate: a copy of the row, changed in place and written back whole. */
  class Aggregate {
    const kind: Kind
    const contributor: Id
    const target: Option<Id>
    const payload: map<string, Json>
    var status: Status
    var reviewer: Option<Id>
    var note: Option<string>
    var reviewedAt: Option<Time>

    function Value(): Contribution
      reads this
    {
      Contribution(kind, contributor, target, payload, status, reviewer, note, reviewedAt)
    }

    constructor (c: Contribution)
      ensures Value() == c
    {
      kind, contributor, target, payload := c.kind, c.contributor, c.target, c.payload;
      status, reviewer, note, reviewedAt := c.status, c.reviewer, c.note, c.reviewedAt;
    }

    method Approve(admin: Id, text: string, at: Time) returns (error: Option<DomainError>)
      modifies this
      ensures Decide(old(Value()), ApproveBy(admin, text, at)) == if error.None? then Ok(Value()) else Err(error.value)
      ensures error.Some? ==> Value() == old(Value())
    {
      if status != Pending {
        return Some(InvalidTransition);
      }
      status, reviewer := Approved, Some(admin);
      if text != "" {
        note := Some(text);
      }
      reviewedAt := Some(at);
      error := None;
    }

    method Reject(admin: Id, text: string, at: Time) returns (error: Option<DomainError>)
      modifies this
      ensures Decide(old(Value()), RejectBy(admin, text, at)) == if error.None? then Ok(Value()) else Err(error.value)
      ensures error.Some? ==> Value() == old(Value())
    {
      if status != Pending {
        return Some(InvalidTransition);
      }
      status, reviewer := Rejected, Some(admin);
      if text != "" {
        note := Some(text);
      }
      reviewedAt := Some(at);
      error := None;
    }

    method Withdraw(caller: Id) returns (error: Option<DomainError>)
      modifies this
      ensures Decide(old(Value()), WithdrawBy(caller)) == if error.None? then Ok(Value()) else Err(error.value)
      ensures error.Some? ==> Value() == old(Value())
    {
      if contributor != caller {
        return Some(Forbidden);
      }
      if status != Pending {
        return Some(InvalidTransition);
      }
      status := Withdrawn;
      error := None;
    }
  }

  // ---- the repository ----

  type Table = map<Id, Contribution>

  /** UPDATE: the four review columns come from the copy, the others are not written. */
  function Overwrite(row: Contribution, copy: Contribution): Contribution
  {
    row.(status := copy.status, reviewer := copy.reviewer, note := copy.note, reviewedAt := copy.reviewedAt)
  }

  function Write(rows: Table, id: Id, copy: Contribution): Table
  {
    if id in rows then rows[id := Overwrite(rows[id], copy)] else rows
  }

  class Repository {
    var rows: Table
    var link: Link

    method FindByID(id: Id) returns (c: Aggregate?)
      modifies this`link
      ensures link == Call(old(link)).link
      ensures c != null <==> Call(old(link)).ok && id in rows
      ensures c != null ==> fresh(c) && c.Value() == rows[id]
    {
      var reply := Call(link);
      link := reply.link;
      if reply.ok && id in rows {
        c := new Aggregate(rows[id]);
      } else {
        c := null;
      }
    }

    method Create(id: Id, c: Contribution) returns (ok: bool)
      requires id !in rows
      modifies this
      ensures var reply := Call(old(link));
        ok == reply.ok && link == reply.link && rows == if reply.applied then old(rows)[id := c] else old(rows)
    {
      var reply := Call(link);
      link := reply.link;
      if reply.applied {
        rows := rows[id := c];
      }
      ok := reply.ok;
    }

    /** The statement returns the row, so a missing one is an error. */
    method Update(id: Id, c: Aggregate) returns (ok: bool)
      modifies this
      ensures var reply := Call(old(link));
        && ok == (reply.ok && id in old(rows)) && link == reply.link
        && rows == if reply.applied then Write(old(rows), id, c.Value()) else old(rows)
    {
      var reply := Call(link);
      link := reply.link;
      ok := reply.ok && id in rows;
      if reply.applied {
        rows := Write(rows, id, c.Value());
      }
    }
  }

  // ---- commands that run concurrently: each loads a copy, decides, and writes the copy back later ----

  /** A command between its read and its write: the row as read, the copy as decided, and whether it has merged. */
  datatype Task = Task(id: Id, loaded: Contribution, copy: Contribution, merged: bool)

  /** `merges` holds the contributions merged into the dictionary, once for each time. */
  datatype State = State(rows: Table, tasks: map<nat, Task>, merges: seq<Id>)

  datatype Action =
    | Submit(id: Id, c: Contribution)
    | Load(task: nat, id: Id, decision: Decision)
    | Merge(task: nat)
    | Store(task: nat)
    | Abandon(task: nat)

  /**
   * One atomic repository call, or a successful merge. An approval by the moderation service merges before its write,
   * one by the handler does not. An action that is not possible leaves the state as it is.
   */
  function Step(s: State, a: Action): State
  {
    match a
    case Submit(id, c) =>
      if id in s.rows || !IsSubmission(c) then s else s.(rows := s.rows[id := c])
    case Load(t, id, decision) =>
      if t in s.tasks || id !in s.rows then s
      else
        var copy := Decide(s.rows[id], decision);
        if copy.Err? then s else s.(tasks := s.tasks[t := Task(id, s.rows[id], copy.value, false)])
    case Merge(t) =>
      if t !in s.tasks || !s.tasks[t].copy.status.Approved? || s.tasks[t].merged then s
      else s.(tasks := s.tasks[t := s.tasks[t].(merged := true)], merges := s.merges + [s.tasks[t].id])
    case Store(t) =>
      if t !in s.tasks then s
      else s.(rows := Write(s.rows, s.tasks[t].id, s.tasks[t].copy), tasks := s.tasks - {t})
    case Abandon(t) => s.(tasks := s.tasks - {t})
  }

  predicate IsSubmission(c: Contribution)
  {
    Submitted(c.contributor, c.kind, c.target, c.payload) == Ok(c)
  }

  function Run(s: State, actions: seq<Action>): State
    decreases |actions|
  {
    if actions == [] then s else Run(Step(s, actions[0]), actions[1..])
  }

  /** What no command ever writes. */
  predicate SameSubmission(a: Contribution, b: Contribution)
  {
    a.kind == b.kind && a.contributor == b.contributor && a.target == b.target && a.payload == b.payload
  }

  /** A reviewer and a review time are recorded exactly on approved and rejected contributions. */
  predicate ReviewRecorded(c: Contribution)
  {
    c.reviewer.Some? == c.reviewedAt.Some? == (c.status.Approved? || c.status.Rejected?)
  }

  ghost predicate Inv(s: State)
  {
    && (forall id | id in s.rows :: ReviewRecorded(s.rows[id]))
    && (forall t | t in s.tasks ::
          var task := s.tasks[t];
          && task.id in s.rows && SameSubmission(task.loaded, s.rows[task.id])
            && SameSubmission(task.copy, s.rows[task.id])
          && task.loaded.status.Pending? && !task.copy.status.Pending? && ReviewRecorded(task.copy))
  }

  lemma StepKeepsInv(s: State, a: Action)
    requires Inv(s)
    ensures Inv(Step(s, a))
  {
  }

  /** s' came later than s: nothing settled has become pending again, and no submission has changed. */
  ghost predicate Later(s: State, s': State)
  {
    forall id | id in s.rows ::
      id in s'.rows && SameSubmission(s.rows[id], s'.rows[id])
        && (!s.rows[id].status.Pending? ==> !s'.rows[id].status.Pending?)
  }

  lemma StepIsLater(s: State, a: Action)
    requires Inv(s)
    ensures Later(s, Step(s, a))
  {
  }

  /**
   * Under every interleaving of reads and whole-row writes: the review columns stay consistent, in the table and in
   * all copies; a contribution never goes away or changes what was submitted; and once settled it is never pending
   * again.
   */
  lemma {:induction false} Lifecycle(s: State, actions: seq<Action>, id: Id)
    requires Inv(s)
    ensures var s' := Run(s, actions);
      && Inv(s')
      && (id in s.rows ==>
            && id in s'.rows && SameSubmission(s.rows[id], s'.rows[id])
            && (!s.rows[id].status.Pending? ==> !s'.rows[id].status.Pending?))
    decreases |actions|
  {
    if actions != [] {
      StepKeepsInv(s, actions[0]);
      StepIsLater(s, actions[0]);
      Lifecycle(Step(s, actions[0]), actions[1..], id);
    }
  }

  /** No write hits a row that has changed since its command read it. Serial runs are of this kind. */
  ghost predicate Undisturbed(s: State, actions: seq<Action>)
    decreases |actions|
  {
    if actions == [] then true
    else
      && (actions[0].Store? && actions[0].task in s.tasks ==>
            var task := s.tasks[actions[0].task]; task.id in s.rows && s.rows[task.id] == task.loaded)
      && Undisturbed(Step(s, actions[0]), actions[1..])
  }

  /** In such runs the three final statuses are absorbing: a settled contribution never changes again. */
  lemma {:induction false} SettledForGood(s: State, actions: seq<Action>, id: Id)
    requires Inv(s) && Undisturbed(s, actions)
    requires id in s.rows && !s.rows[id].status.Pending?
    ensures var s' := Run(s, actions); id in s'.rows && s'.rows[id] == s.rows[id]
    decreases |actions|
  {
    if actions != [] {
      StepKeepsInv(s, actions[0]);
      SettledForGood(Step(s, actions[0]), actions[1..], id);
    }
  }

  /** The copies that a run stores on one contribution, in order. */
  ghost function Copies(s: State, actions: seq<Action>, id: Id): seq<Contribution>
    decreases |actions|
  {
    if actions == [] then []
    else
      (if StoresOn(s, actions[0], id) then [s.tasks[actions[0].task].copy] else [])
        + Copies(Step(s, actions[0]), actions[1..], id)
  }

  predicate StoresOn(s: State, a: Action, id: Id)
  {
    a.Store? && a.task in s.tasks && s.tasks[a.task].id == id
  }

  predicate IsSettled(s: State, id: Id)
  {
    id in s.rows && !s.rows[id].status.Pending?
  }

  /** At every point of the run from which the contribution is settled, the next step leaves it as it is. */
  ghost predicate NeverOverturned(s: State, actions: seq<Action>, id: Id)
    decreases |actions|
  {
    if actions == [] then true
    else
      var s1 := Step(s, actions[0]);
      (IsSettled(s, id) ==> id in s1.rows && s1.rows[id] == s.rows[id]) && NeverOverturned(s1, actions[1..], id)
  }

  predicate AllAre(cs: seq<Contribution>, c: Contribution)
  {
    forall i | 0 <= i < |cs| :: cs[i] == c
  }

  lemma AllAreCons(first: Contribution, rest: seq<Contribution>, c: Contribution)
    ensures AllAre([first] + rest, c) <==> first == c && AllAre(rest, c)
  {
    var all := [first] + rest;
    assert all[0] == first && forall i | 0 <= i < |rest| :: all[i + 1] == rest[i];
  }

  lemma {:induction false} SettledStaysIff(s: State, actions: seq<Action>, id: Id)
    requires Inv(s) && IsSettled(s, id)
    ensures NeverOverturned(s, actions, id) <==> AllAre(Copies(s, actions, id), s.rows[id])
    decreases |actions|
  {
    if actions != [] {
      var s1, a := Step(s, actions[0]), actions[0];
      StepKeepsInv(s, a);
      if StoresOn(s, a, id) {
        var copy := s.tasks[a.task].copy;
        assert s1.rows[id] == copy && Copies(s, actions, id) == [copy] + Copies(s1, actions[1..], id);
        AllAreCons(copy, Copies(s1, actions[1..], id), s.rows[id]);
        if copy == s.rows[id] {
          SettledStaysIff(s1, actions[1..], id);
        }
      } else {
        assert s1.rows[id] == s.rows[id] && Copies(s, actions, id) == Copies(s1, actions[1..], id);
        SettledStaysIff(s1, actions[1..], id);
      }
    }
  }

  predicate AllSame(cs: seq<Contribution>)
  {
    cs == [] || AllAre(cs, cs[0])
  }

  /**
   * A contribution that is still pending, or still to come, is never overturned in a run exactly when the commands
   * that write it, all of which loaded it while it was pending, decided the same.
   */
  lemma {:induction false} NeverOverturnedIff(s: State, actions: seq<Action>, id: Id)
    requires Inv(s) && !IsSettled(s, id)
    ensures NeverOverturned(s, actions, id) <==> AllSame(Copies(s, actions, id))
    decreases |actions|
  {
    if actions != [] {
      var s1, a := Step(s, actions[0]), actions[0];
      StepKeepsInv(s, a);
      if StoresOn(s, a, id) {
        var copy, rest := s.tasks[a.task].copy, Copies(s1, actions[1..], id);
        assert s1.rows[id] == copy;
        SettledStaysIff(s1, actions[1..], id);
        assert Copies(s, actions, id) == [copy] + rest;
        AllAreCons(copy, rest, copy);
      } else {
        assert Copies(s, actions, id) == Copies(s1, actions[1..], id);
        NeverOverturnedIff(s1, actions[1..], id);
      }
    }
  }

  function StatusOf(s: State, id: Id): Option<Status>
  {
    if id in s.rows then Some(s.rows[id].status) else None
  }

  /** Racing commands do overturn: here an approval ends up rejected. */
  lemma ApprovalCanBeOverturned(c: Contribution, id: Id, admin: Id, other: Id)
    requires IsSubmission(c)
    ensures var start := State(map[id := c], map[], []);
      var approved := [Load(0, id, ApproveBy(admin, "", 1)), Load(1, id, RejectBy(other, "no", 2)), Store(0)];
      && Inv(start)
      && StatusOf(Run(start, approved), id) == Some(Approved)
      && StatusOf(Run(start, approved + [Store(1)]), id) == Some(Rejected)
  {
    var start := State(map[id := c], map[], []);
    var approved := [Load(0, id, ApproveBy(admin, "", 1)), Load(1, id, RejectBy(other, "no", 2)), Store(0)];
    var s2 := Step(Step(start, approved[0]), approved[1]);
    RunAppend(start, [approved[0]], [approved[1]]);
    RunAppend(start, [approved[0], approved[1]], [Store(0)]);
    RunAppend(start, approved, [Store(1)]);
    RunOne(start, approved[0]);
    RunOne(Step(start, approved[0]), approved[1]);
    RunOne(s2, Store(0));
    RunOne(Step(s2, Store(0)), Store(1));
    assert [approved[0], approved[1]] == [approved[0]] + [approved[1]];
    assert approved == [approved[0], approved[1]] + [Store(0)];
  }

  lemma RunOne(s: State, a: Action)
    ensures Run(s, [a]) == Step(s, a)
  {
    assert [a][1..] == [];
  }

  lemma {:induction false} RunAppend(s: State, a: seq<Action>, b: seq<Action>)
    ensures Run(s, a + b) == Run(Run(s, a), b)
    decreases |a|
  {
    if a == [] {
      assert a + b == b;
    } else {
      assert (a + b)[1..] == a[1..] + b;
      RunAppend(Step(s, a[0]), a[1..], b);
    }
  }

  // ---- how often a contribution is merged ----

  predicate IsHeld(s: State, t: nat, id: Id)
  {
    t in s.tasks && s.tasks[t].id == id && s.tasks[t].merged
  }

  /** The approvals of a contribution that have merged and not ended. */
  ghost function Held(s: State, id: Id): set<nat>
  {
    set t | t in s.tasks && IsHeld(s, t, id)
  }

  predicate RecordsMerge(s: State, a: Action, id: Id)
  {
    a.Store? && IsHeld(s, a.task, id)
  }

  predicate LosesMerge(s: State, a: Action, id: Id)
  {
    a.Abandon? && IsHeld(s, a.task, id)
  }

  ghost function RecordedMerges(s: State, actions: seq<Action>, id: Id): nat
    decreases |actions|
  {
    if actions == [] then 0
    else CountIf(RecordsMerge(s, actions[0], id)) + RecordedMerges(Step(s, actions[0]), actions[1..], id)
  }

  ghost function LostMerges(s: State, actions: seq<Action>, id: Id): nat
    decreases |actions|
  {
    if actions == [] then 0
    else CountIf(LosesMerge(s, actions[0], id)) + LostMerges(Step(s, actions[0]), actions[1..], id)
  }

  lemma MergeAccounts(s: State, t: nat, id: Id)
    ensures var s' := Step(s, Merge(t));
      multiset(s'.merges)[id] + |Held(s, id)| == multiset(s.merges)[id] + |Held(s', id)|
  {
    var s' := Step(s, Merge(t));
    if s' != s {
      assert Held(s', id) == if s.tasks[t].id == id then Held(s, id) + {t} else Held(s, id);
    }
  }

  lemma HeldWithout(s: State, s': State, t: nat, id: Id)
    requires s'.tasks == s.tasks - {t}
    ensures |Held(s, id)| == |Held(s', id)| + CountIf(IsHeld(s, t, id))
  {
    assert Held(s', id) == Held(s, id) - {t};
    assert t in Held(s, id) <==> IsHeld(s, t, id);
  }

  lemma EndAccounts(s: State, a: Action, id: Id)
    requires a.Store? || a.Abandon?
    ensures Step(s, a).merges == s.merges
    ensures |Held(s, id)| == |Held(Step(s, a), id)| + CountIf(RecordsMerge(s, a, id)) + CountIf(LosesMerge(s, a, id))
  {
    hide Held, IsHeld, Write;
    HeldWithout(s, Step(s, a), a.task, id);
  }

  lemma StartAccounts(s: State, a: Action, id: Id)
    requires a.Submit? || a.Load?
    ensures Step(s, a).merges == s.merges && Held(Step(s, a), id) == Held(s, id)
  {
  }

  lemma StepAccounts(s: State, a: Action, id: Id)
    ensures var s' := Step(s, a);
      multiset(s'.merges)[id] + |Held(s, id)| == multiset(s.merges)[id] + |Held(s', id)|
        + CountIf(RecordsMerge(s, a, id)) + CountIf(LosesMerge(s, a, id))
  {
    hide Step, Held, IsHeld;
    if a.Store? || a.Abandon? {
      EndAccounts(s, a, id);
    } else if a.Merge? {
      MergeAccounts(s, a.task, id);
    } else {
      StartAccounts(s, a, id);
    }
  }

  /**
   * Under every interleaving of commands with any call failing, every merge of a contribution is accounted for: its
   * approval is recorded, or it is lost, or it is still to end.
   */
  lemma {:induction false} MergesAccounted(s: State, actions: seq<Action>, id: Id)
    ensures var s' := Run(s, actions);
      multiset(s'.merges)[id] + |Held(s, id)| == multiset(s.merges)[id] + |Held(s', id)|
        + RecordedMerges(s, actions, id) + LostMerges(s, actions, id)
    decreases |actions|
  {
    if actions != [] {
      StepAccounts(s, actions[0], id);
      MergesAccounted(Step(s, actions[0]), actions[1..], id);
    }
  }

  /** Undisturbed, at most one of them is recorded, and none once the contribution is settled. */
  lemma {:induction false} RecordedOnce(s: State, actions: seq<Action>, id: Id)
    requires Inv(s) && Undisturbed(s, actions)
    ensures RecordedMerges(s, actions, id) <= if IsSettled(s, id) then 0 else 1
    decreases |actions|
  {
    if actions != [] {
      StepKeepsInv(s, actions[0]);
      RecordedOnce(Step(s, actions[0]), actions[1..], id);
    }
  }

  /**
   * So a contribution not merged yet is merged at most once exactly when recorded, lost and unfinished approvals
   * together are at most one; in undisturbed runs at most one is recorded.
   */
  lemma MergedOnceIff(s: State, actions: seq<Action>, id: Id)
    requires Inv(s) && Held(s, id) == {} && id !in s.merges
    ensures var s', recorded, lost := Run(s, actions), RecordedMerges(s, actions, id), LostMerges(s, actions, id);
      && multiset(s'.merges)[id] == recorded + lost + |Held(s', id)|
      && (multiset(s'.merges)[id] <= 1 <==> recorded + lost + |Held(s', id)| <= 1)
      && (Undisturbed(s, actions) ==> recorded <= 1)
  {
    MergesAccounted(s, actions, id);
    if Undisturbed(s, actions) {
      RecordedOnce(s, actions, id);
    }
  }

  /** Racing approvals merge twice, though nothing fails. */
  lemma RacingApprovalsMergeTwice(c: Contribution, id: Id, admin: Id, other: Id)
    requires IsSubmission(c)
    ensures var start := State(map[id := c], map[], []);
      var loads := [Load(0, id, ApproveBy(admin, "", 1)), Load(1, id, ApproveBy(other, "", 2))];
      var s := Run(start, loads + [Merge(0), Merge(1)] + [Store(0), Store(1)]);
      s.merges == [id, id] && s.tasks == map[] && StatusOf(s, id) == Some(Approved)
  {
    var start := State(map[id := c], map[], []);
    var loads := [Load(0, id, ApproveBy(admin, "", 1)), Load(1, id, ApproveBy(other, "", 2))];
    RunAppend(start, loads + [Merge(0), Merge(1)], [Store(0), Store(1)]);
    RunAppend(start, loads, [Merge(0), Merge(1)]);
    RunTwo(start, loads[0], loads[1]);
    var s2 := Run(start, loads);
    RunTwo(s2, Merge(0), Merge(1));
    var s4 := Run(s2, [Merge(0), Merge(1)]);
    RunTwo(s4, Store(0), Store(1));
    assert s4.tasks.Keys == {0, 1} && s4.merges == [id, id];
  }

  lemma RunTwo(s: State, a: Action, b: Action)
    ensures Run(s, [a, b]) == Step(Step(s, a), b)
  {
    RunOne(s, a);
    RunOne(Step(s, a), b);
    RunAppend(s, [a], [b]);
    assert [a] + [b] == [a, b];
  }

  // ---- the commands, run on their own ----

  /** A command that reads, decides and writes without interruption. */
  function Command(rows: Table, id: Id, decision: Decision): Table
  {
    if id !in rows || Decide(rows[id], decision).Err? then rows else Write(rows, id, Decide(rows[id], decision).value)
  }

  /** It is a load followed at once by its store, and so never disturbed. */
  lemma CommandIsLoadThenStore(s: State, t: nat, id: Id, decision: Decision)
    requires t !in s.tasks
    ensures Step(Step(s, Load(t, id, decision)), Store(t)) == s.(rows := Command(s.rows, id, decision))
    ensures Undisturbed(s, [Load(t, id, decision), Store(t)])
  {
    assert [Load(t, id, decision), Store(t)][1..] == [Store(t)] && [Store(t)][1..] == [];
    var s1 := Step(s, Load(t, id, decision));
    if t in s1.tasks {
      assert s1.tasks - {t} == s.tasks;
    }
  }

  /** Commands one after the other. */
  function Serial(commands: seq<(Id, Decision)>): seq<Action>
  {
    if commands == [] then []
    else [Load(0, commands[0].0, commands[0].1), Store(0)] + Serial(commands[1..])
  }

  function RunCommands(rows: Table, commands: seq<(Id, Decision)>): Table
    decreases |commands|
  {
    if commands == [] then rows else RunCommands(Command(rows, commands[0].0, commands[0].1), commands[1..])
  }

  lemma {:induction false} UndisturbedAppend(s: State, a: seq<Action>, b: seq<Action>)
    requires Undisturbed(s, a) && Undisturbed(Run(s, a), b)
    ensures Undisturbed(s, a + b)
    decreases |a|
  {
    if a == [] {
      assert a + b == b;
    } else {
      assert (a + b)[1..] == a[1..] + b;
      UndisturbedAppend(Step(s, a[0]), a[1..], b);
    }
  }

  /** Serial runs are undisturbed, and do what the commands do. */
  lemma {:induction false} SerialIsUndisturbed(s: State, commands: seq<(Id, Decision)>)
    requires 0 !in s.tasks
    ensures Undisturbed(s, Serial(commands))
    ensures Run(s, Serial(commands)) == s.(rows := RunCommands(s.rows, commands))
    decreases |commands|
  {
    if commands != [] {
      var one := [Load(0, commands[0].0, commands[0].1), Store(0)];
      CommandIsLoadThenStore(s, 0, commands[0].0, commands[0].1);
      assert one == [one[0]] + [one[1]];
      RunAppend(s, [one[0]], [one[1]]);
      RunOne(s, one[0]);
      RunOne(Step(s, one[0]), one[1]);
      var s1 := Run(s, one);
      SerialIsUndisturbed(s1, commands[1..]);
      UndisturbedAppend(s, one, Serial(commands[1..]));
      RunAppend(s, one, Serial(commands[1..]));
    }
  }

  /** So in serial runs approved, rejected and withdrawn are absorbing. */
  lemma {:induction false} SerialAbsorbs(rows: Table, commands: seq<(Id, Decision)>, id: Id)
    requires forall x | x in rows :: ReviewRecorded(rows[x])
    requires id in rows && !rows[id].status.Pending?
    ensures var rows' := RunCommands(rows, commands); id in rows' && rows'[id] == rows[id]
  {
    var s := State(rows, map[], []);
    SerialIsUndisturbed(s, commands);
    SettledForGood(s, Serial(commands), id);
  }

  class ContributionService {
    const contributions: Repository

    constructor (contributions: Repository)
      ensures this.contributions == contributions
    {
      this.contributions := contributions;
    }

    /**
     * SubmitContribution: `verified` and `targetExists` are what the account and word lookups answer, none when one
     * errs.
     */
    method SubmitContribution(user: Id, kind: Kind, target: Option<Id>, payload: map<string, Json>, id: Id,
                              verified: Option<bool>, targetExists: Option<bool>) returns (ok: bool)
      requires id !in contributions.rows
      modifies contributions
      ensures var c := Submitted(user, kind, target, payload);
        var accepted := verified == Some(true) && (kind.NewWord? || target.None? || targetExists == Some(true))
          && c.Ok?;
        && ok == (accepted && Call(old(contributions.link)).ok)
        && contributions.rows == if accepted && Call(old(contributions.link)).applied
             then old(contributions.rows)[id := c.value] else old(contributions.rows)
    {
      if verified != Some(true) {
        return false;
      }
      if !kind.NewWord? && target.Some? && targetExists != Some(true) {
        return false;
      }
      var c := Submitted(user, kind, target, payload);
      if c.Err? {
        return false;
      }
      ok := contributions.Create(id, c.value);
    }

    method WithdrawContribution(caller: Id, id: Id) returns (ok: bool)
      modifies contributions
      ensures var one := Call(old(contributions.link)); var two := Call(one.link);
        && ok == (one.ok && two.ok && id in old(contributions.rows)
                  && Decide(old(contributions.rows[id]), WithdrawBy(caller)).Ok?)
        && contributions.rows ==
             if one.ok && two.applied then Command(old(contributions.rows), id, WithdrawBy(caller))
               else old(contributions.rows)
    {
      var c := contributions.FindByID(id);
      if c == null {
        return false;
      }
      var error := c.Withdraw(caller);
      if error.Some? {
        return false;
      }
      ok := contributions.Update(id, c);
    }
  }
}
