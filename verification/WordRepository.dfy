/** The word aggregate (internal/dictionary/domain) and its repository (internal/dictionary/infrastructure/postgres). */
module WordRepository {
  import opened Common
  import opened Dictionary
  import Queries

  datatype Definition = Definition(id: Id, meaning: string, sortOrder: int, source: Source, upvotes: int,
                                   downvotes: int)

  datatype Example = Example(id: Id, banjar: string, indonesian: string, source: Source)

  /** The aggregate's own columns; an empty text stands for a NULL in the row. */
  datatype Columns = Columns(
    banjar: string, syllabified: string, dialect: Dialect, wordClass: WordClass, homonym: int, isRoot: bool,
        root: Option<Id>,
    status: Status, source: Source, reference: string, createdBy: Option<Id>, createdAt: Time, updatedAt: Time)

  datatype Word = Word(id: Id, columns: Columns, definitions: seq<Definition>, examples: seq<Example>)

  datatype RepoError = NotFound | Conflict | Unavailable

  // ---- building an aggregate ----

  const MAX_MEANING_LENGTH := 2000

  function NewWord(id: Id, banjar: string, wordClass: WordClass, now: Time): Word
  {
    Word(id, Columns(banjar, "", Hulu, wordClass, 1, true, None, Active, Seeded, "", None, now, now), [], [])
  }

  function WithDefinition(w: Word, id: Id, meaning: string, sortOrder: int, now: Time): Word
  {
    w.(definitions := w.definitions + [Definition(id, meaning, sortOrder, w.columns.source, 0, 0)],
       columns := w.columns.(updatedAt := now))
  }

  function WithExample(w: Word, id: Id, banjar: string, indonesian: string, now: Time): Word
  {
    w.(examples := w.examples + [Example(id, banjar, indonesian, w.columns.source)],
       columns := w.columns.(updatedAt := now))
  }

  class WordAggregate {
    const id: Id
    var columns: Columns
    var definitions: seq<Definition>
    var examples: seq<Example>

    function Value(): Word
      reads this
    {
      Word(id, columns, definitions, examples)
    }

    constructor (w: Word)
      ensures Value() == w
    {
      id, columns, definitions, examples := w.id, w.columns, w.definitions, w.examples;
    }

    /** Refuses a meaning that is too long; the length is in bytes, as are the texts of this model. */
    method AddDefinition(id: Id, meaning: string, sortOrder: int, now: Time) returns (ok: bool)
      modifies this
      ensures ok == (|meaning| <= MAX_MEANING_LENGTH)
      ensures Value() == if ok then WithDefinition(old(Value()), id, meaning, sortOrder, now) else old(Value())
    {
      if |meaning| > MAX_MEANING_LENGTH {
        return false;
      }
      definitions := definitions + [Definition(id, meaning, sortOrder, columns.source, 0, 0)];
      columns := columns.(updatedAt := now);
      ok := true;
    }

    method AddExample(id: Id, banjar: string, indonesian: string, now: Time)
      modifies this
      ensures Value() == WithExample(old(Value()), id, banjar, indonesian, now)
    {
      examples := examples + [Example(id, banjar, indonesian, columns.source)];
      columns := columns.(updatedAt := now);
    }
  }

  // ---- rows and aggregates ----

  function Nullable(s: string): Option<string> { if s == "" then None else Some(s) }

  function Text(o: Option<string>): string { if o.Some? then o.value else "" }

  function ToColumns(row: WordRow): Columns
  {
    Columns(row.banjar, Text(row.syllabified), row.dialect, row.wordClass, row.homonym, row.isRoot, row.root,
            row.status, row.source, Text(row.reference), row.createdBy, row.createdAt, row.updatedAt)
  }

  /** The columns UpdateWord sets; dialect, creator and creation time stay. */
  function WriteColumns(row: WordRow, c: Columns, now: Time): WordRow
  {
    row.(banjar := c.banjar, syllabified := Nullable(c.syllabified), wordClass := c.wordClass,
         homonym := Int16(c.homonym),
         isRoot := c.isRoot, root := c.root, status := c.status, source := c.source, reference := Nullable(c.reference),
         updatedAt := now)
  }

  function NewRow(c: Columns): WordRow
  {
    WordRow(c.banjar, Nullable(c.syllabified), c.dialect, c.wordClass, Int16(c.homonym), c.isRoot, c.root,
            c.status, c.source, Nullable(c.reference), c.createdBy, c.createdAt, c.updatedAt, None)
  }

  function DefinitionRow(x: Definition, w: Id, now: Time): Child<DefinitionBody>
  {
    Child(x.id, w, DefinitionBody(x.meaning, Int16(x.sortOrder), x.source, Int32(x.upvotes), Int32(x.downvotes)), now,
          now)
  }

  function ExampleRow(x: Example, w: Id, now: Time): Child<ExampleBody>
  {
    Child(x.id, w, ExampleBody(x.banjar, x.indonesian, x.source), now, now)
  }

  function DefinitionRows(xs: seq<Definition>, w: Id, now: Time): (r: seq<Child<DefinitionBody>>)
    ensures |r| == |xs| && forall i | 0 <= i < |xs| :: r[i] == DefinitionRow(xs[i], w, now)
  {
    seq(|xs|, i requires 0 <= i < |xs| => DefinitionRow(xs[i], w, now))
  }

  function ExampleRows(xs: seq<Example>, w: Id, now: Time): (r: seq<Child<ExampleBody>>)
    ensures |r| == |xs| && forall i | 0 <= i < |xs| :: r[i] == ExampleRow(xs[i], w, now)
  {
    seq(|xs|, i requires 0 <= i < |xs| => ExampleRow(xs[i], w, now))
  }

  function ToDefinition(row: Child<DefinitionBody>): Definition
  {
    Definition(row.id, row.body.meaning, row.body.sortOrder, row.body.source, row.body.upvotes, row.body.downvotes)
  }

  function ToExample(row: Child<ExampleBody>): Example
  {
    Example(row.id, row.body.banjar, row.body.indonesian, row.body.source)
  }

  function ToDefinitions(rows: seq<Child<DefinitionBody>>): (r: seq<Definition>)
    ensures |r| == |rows| && forall i | 0 <= i < |rows| :: r[i] == ToDefinition(rows[i])
  {
    seq(|rows|, i requires 0 <= i < |rows| => ToDefinition(rows[i]))
  }

  function ToExamples(rows: seq<Child<ExampleBody>>): (r: seq<Example>)
    ensures |r| == |rows| && forall i | 0 <= i < |rows| :: r[i] == ToExample(rows[i])
  {
    seq(|rows|, i requires 0 <= i < |rows| => ToExample(rows[i]))
  }

  // ---- ORDER BY; ties, which SQL leaves open, stay in insertion order ----

  /** sort_order ASC, then net score DESC. */
  predicate DefinitionBefore(a: Child<DefinitionBody>, b: Child<DefinitionBody>)
  {
    || a.body.sortOrder < b.body.sortOrder
    || (a.body.sortOrder == b.body.sortOrder && a.body.upvotes - a.body.downvotes >= b.body.upvotes - b.body.downvotes)
  }

  /** created_at ASC. */
  predicate ExampleBefore(a: Child<ExampleBody>, b: Child<ExampleBody>) { a.createdAt <= b.createdAt }

  function InsertBy<T>(x: T, s: seq<T>, before: (T, T) -> bool): seq<T>
  {
    if s == [] || before(x, s[0]) then [x] + s else [s[0]] + InsertBy(x, s[1..], before)
  }

  function OrderBy<T>(s: seq<T>, before: (T, T) -> bool): seq<T>
  {
    if s == [] then [] else InsertBy(s[0], OrderBy(s[1..], before), before)
  }

  predicate Ordered<T>(s: seq<T>, before: (T, T) -> bool)
  {
    forall i | 0 < i < |s| :: before(s[i - 1], s[i])
  }

  lemma {:induction false} InsertByPermutes<T>(x: T, s: seq<T>, before: (T, T) -> bool)
    ensures multiset(InsertBy(x, s, before)) == multiset{x} + multiset(s)
  {
    if s != [] && !before(x, s[0]) {
      InsertByPermutes(x, s[1..], before);
      assert s == [s[0]] + s[1..];
    }
  }

  lemma {:induction false} OrderByPermutes<T>(s: seq<T>, before: (T, T) -> bool)
    ensures multiset(OrderBy(s, before)) == multiset(s)
  {
    if s != [] {
      OrderByPermutes(s[1..], before);
      InsertByPermutes(s[0], OrderBy(s[1..], before), before);
      assert s == [s[0]] + s[1..];
    }
  }

  lemma {:induction false} InsertByOrders<T>(x: T, s: seq<T>, before: (T, T) -> bool)
    requires Ordered(s, before) && forall a: T, b: T :: before(a, b) || before(b, a)
    ensures Ordered(InsertBy(x, s, before), before)
  {
    if s != [] && !before(x, s[0]) {
      InsertByOrders(x, s[1..], before);
    }
  }

  lemma {:induction false} OrderByOrders<T>(s: seq<T>, before: (T, T) -> bool)
    requires forall a: T, b: T :: before(a, b) || before(b, a)
    ensures Ordered(OrderBy(s, before), before)
  {
    if s != [] {
      OrderByOrders(s[1..], before);
      InsertByOrders(s[0], OrderBy(s[1..], before), before);
    }
  }

  /** What is in order already stays as it is. */
  lemma {:induction false} OrderByKeepsOrder<T>(s: seq<T>, before: (T, T) -> bool)
    requires Ordered(s, before)
    ensures OrderBy(s, before) == s
  {
    if s != [] {
      OrderByKeepsOrder(s[1..], before);
    }
  }

  // ---- statements on the words table ----

  predicate Taken(words: map<Id, WordRow>, key: Key, self: Id)
  {
    exists x | x in words :: x != self && KeyOf(words[x]) == key
  }

  /** UPDATE ... WHERE id AND NOT deleted: no row, a broken constraint, or the rewritten row. */
  function UpdateWord(words: map<Id, WordRow>, id: Id, c: Columns, now: Time): Result<map<Id, WordRow>, RepoError>
  {
    if id !in words || words[id].deletedAt.Some? then Err(NotFound)
    else
      var row := WriteColumns(words[id], c, now);
      if (c.root.Some? && c.root.value !in words) || Taken(words, KeyOf(row), id) then Err(Unavailable)
      else Ok(words[id := row])
  }

  function CreateWord(words: map<Id, WordRow>, id: Id, c: Columns): Result<map<Id, WordRow>, RepoError>
  {
    var row := NewRow(c);
    if id in words || Taken(words, KeyOf(row), id) then Err(Conflict)
    else if c.root.Some? && c.root.value !in words then Err(Unavailable)
    else Ok(words[id := row])
  }

  // ---- the repository ----

  datatype Done = Done(d: Dict, error: Option<RepoError>, link: Link)

  datatype Upserted<C> = Upserted(rows: seq<Child<C>>, ok: bool, link: Link)

  /** Upserts in order, up to the first error. */
  function UpsertAll<C>(rows: seq<Child<C>>, incoming: seq<Child<C>>, overwrite: (C, C) -> C, link: Link): Upserted<C>
    decreases |incoming|
  {
    if incoming == [] then Upserted(rows, true, link)
    else
      var reply := Call(link);
      var rows' := if reply.applied then Upsert(rows, incoming[0], overwrite) else rows;
      if !reply.ok then Upserted(rows', false, reply.link) else UpsertAll(rows', incoming[1..], overwrite, reply.link)
  }

  function UpsertChildren(d: Dict, link: Link, w: Word, now: Time): Done
  {
    var defs := UpsertAll(d.definitions, DefinitionRows(w.definitions, w.id, now), OverwriteDefinition, link);
    var d1 := d.(definitions := defs.rows);
    if !defs.ok then Done(d1, Some(Unavailable), defs.link)
    else
      var exs := UpsertAll(d.examples, ExampleRows(w.examples, w.id, now), OverwriteExample, defs.link);
      Done(d1.(examples := exs.rows), if exs.ok then None else Some(Unavailable), exs.link)
  }

  /** DELETE both kinds of children, then UPSERT the aggregate's. */
  function ReplaceChildren(d: Dict, link: Link, w: Word, now: Time): Done
  {
    var one := Call(link);
    var d1 := if one.applied then d.(definitions := Without(d.definitions, w.id)) else d;
    if !one.ok then Done(d1, Some(Unavailable), one.link)
    else
      var two := Call(one.link);
      var d2 := if two.applied then d1.(examples := Without(d1.examples, w.id)) else d1;
      if !two.ok then Done(d2, Some(Unavailable), two.link) else UpsertChildren(d2, two.link, w, now)
  }

  /** PostgresWordRepository.Update: no transaction, so an error leaves whatever was done before it. */
  function Updated(d: Dict, link: Link, w: Word, now: Time): Done
  {
    var reply := Call(link);
    match UpdateWord(d.words, w.id, w.columns, now)
    case Err(e) => Done(d, Some(if reply.ok then e else Unavailable), reply.link)
    case Ok(words) =>
      var d1 := if reply.applied then d.(words := words) else d;
      if !reply.ok then Done(d1, Some(Unavailable), reply.link) else ReplaceChildren(d1, reply.link, w, now)
  }

  function Created(d: Dict, link: Link, w: Word, now: Time): Done
  {
    var reply := Call(link);
    match CreateWord(d.words, w.id, w.columns)
    case Err(e) => Done(d, Some(if reply.ok then e else Unavailable), reply.link)
    case Ok(words) =>
      var d1 := if reply.applied then d.(words := words) else d;
      if !reply.ok then Done(d1, Some(Unavailable), reply.link) else UpsertChildren(d1, reply.link, w, now)
  }

  predicate Visible(d: Dict, id: Id) { id in d.words && d.words[id].deletedAt.None? }

  function DefinitionsOf(d: Dict, w: Id): seq<Definition>
  {
    ToDefinitions(OrderBy(RowsOf(d.definitions, w), DefinitionBefore))
  }

  function ExamplesOf(d: Dict, w: Id): seq<Example>
  {
    ToExamples(OrderBy(RowsOf(d.examples, w), ExampleBefore))
  }

  /** FindByID over a good link: the row, and its children in order. */
  function Found(d: Dict, id: Id): Option<Word>
  {
    if Visible(d, id) then Some(Word(id, ToColumns(d.words[id]), DefinitionsOf(d, id), ExamplesOf(d, id))) else None
  }

  datatype Lookup = Lookup(found: Result<Word, RepoError>, link: Link)

  /** FindByID over any link: three statements, each of which may fail. */
  function FoundOver(d: Dict, link: Link, id: Id): Lookup
  {
    var one := Call(link);
    if !one.ok then Lookup(Err(Unavailable), one.link)
    else if !Visible(d, id) then Lookup(Err(NotFound), one.link)
    else
      var two := Call(one.link);
      if !two.ok then Lookup(Err(Unavailable), two.link)
      else
        var three := Call(two.link);
        Lookup(if three.ok then Ok(Found(d, id).value) else Err(Unavailable), three.link)
  }

  predicate Spelled(d: Dict, banjar: string)
  {
    exists id | id in d.words :: d.words[id].banjar == banjar && d.words[id].deletedAt.None?
  }

  /** The link after FindByBanjar: one statement, and the two for the children if there is such a word. */
  function AfterFindByBanjar(d: Dict, link: Link, banjar: string): Link
  {
    var one := Call(link);
    if !one.ok || !Spelled(d, banjar) then one.link
    else
      var two := Call(one.link);
      if two.ok then Call(two.link).link else two.link
  }

  // ---- every other word is left alone, whatever goes wrong ----

  /** None of these ids is held by another word's row. */
  ghost predicate NotForeign<C>(rows: seq<Child<C>>, incoming: seq<Child<C>>, w: Id)
  {
    forall i, j | 0 <= i < |rows| && 0 <= j < |incoming| && rows[i].id == incoming[j].id :: rows[i].wordId == w
  }

  ghost predicate OwnChildIds(d: Dict, w: Word, now: Time)
  {
    && NotForeign(d.definitions, DefinitionRows(w.definitions, w.id, now), w.id)
    && NotForeign(d.examples, ExampleRows(w.examples, w.id, now), w.id)
  }

  lemma {:induction false} UpsertLeavesOthers<C>(rows: seq<Child<C>>, row: Child<C>, overwrite: (C, C) -> C, x: Id)
    requires row.wordId != x && forall i | 0 <= i < |rows| && rows[i].id == row.id :: rows[i].wordId != x
    ensures RowsOf(Upsert(rows, row, overwrite), x) == RowsOf(rows, x)
  {
    if rows != [] && rows[0].id != row.id {
      UpsertLeavesOthers(rows[1..], row, overwrite, x);
    }
  }

  lemma {:induction false} UpsertAllLeavesOthers<C>(rows: seq<Child<C>>, incoming: seq<Child<C>>, w: Id,
                                                    overwrite: (C, C) -> C, link: Link, x: Id)
    requires OwnedBy(incoming, w) && NotForeign(rows, incoming, w) && x != w
    ensures RowsOf(UpsertAll(rows, incoming, overwrite, link).rows, x) == RowsOf(rows, x)
    decreases |incoming|
  {
    if incoming != [] {
      UpsertLeavesOthers(rows, incoming[0], overwrite, x);
      UpsertKeepsIds(rows, incoming[0], overwrite);
      var reply := Call(link);
      var rows' := if reply.applied then Upsert(rows, incoming[0], overwrite) else rows;
      if reply.ok {
        UpsertAllLeavesOthers(rows', incoming[1..], w, overwrite, reply.link, x);
      }
    }
  }

  /** No row holds any of the new ids. */
  ghost predicate FreshIds<C>(rows: seq<Child<C>>, incoming: seq<Child<C>>)
  {
    forall i, j | 0 <= i < |rows| && 0 <= j < |incoming| :: rows[i].id != incoming[j].id
  }

  /** Once a word's own rows are gone, ids no other word holds are held by no one. */
  lemma DeleteFreesIds<C>(rows: seq<Child<C>>, incoming: seq<Child<C>>, w: Id)
    requires NotForeign(rows, incoming, w)
    ensures FreshIds(Without(rows, w), incoming)
  {
    WithoutMembers(rows, w);
    var rest := Without(rows, w);
    forall i, j | 0 <= i < |rest| && 0 <= j < |incoming| ensures rest[i].id != incoming[j].id {
      assert rest[i] in rows;
    }
  }

  /** The word x, its columns and its children, is the same in both. */
  ghost predicate SameWord(a: Dict, b: Dict, x: Id)
  {
    && (x in a.words <==> x in b.words) && (x in a.words ==> a.words[x] == b.words[x])
    && RowsOf(a.definitions, x) == RowsOf(b.definitions, x) && RowsOf(a.examples, x) == RowsOf(b.examples, x)
  }

  lemma UpsertChildrenLeavesOthers(d: Dict, link: Link, w: Word, now: Time, x: Id)
    requires OwnChildIds(d, w, now) && x != w.id
    ensures SameWord(d, UpsertChildren(d, link, w, now).d, x)
  {
    var defs := DefinitionRows(w.definitions, w.id, now);
    UpsertAllLeavesOthers(d.definitions, defs, w.id, OverwriteDefinition, link, x);
    var link' := UpsertAll(d.definitions, defs, OverwriteDefinition, link).link;
    UpsertAllLeavesOthers(d.examples, ExampleRows(w.examples, w.id, now), w.id, OverwriteExample, link', x);
  }

  lemma ReplaceChildrenLeavesOthers(d: Dict, link: Link, w: Word, now: Time, x: Id)
    requires OwnChildIds(d, w, now) && x != w.id
    ensures SameWord(d, ReplaceChildren(d, link, w, now).d, x)
  {
    DeleteEmptiesOnlyItsWord(d.definitions, w.id, x);
    DeleteEmptiesOnlyItsWord(d.examples, w.id, x);
    var one := Call(link);
    if one.ok {
      var two := Call(one.link);
      if two.ok {
        var d2 := d.(definitions := Without(d.definitions, w.id), examples := Without(d.examples, w.id));
        DeleteFreesIds(d.definitions, DefinitionRows(w.definitions, w.id, now), w.id);
        DeleteFreesIds(d.examples, ExampleRows(w.examples, w.id, now), w.id);
        UpsertChildrenLeavesOthers(d2, two.link, w, now, x);
      }
    }
  }

  /** Whether it succeeds or breaks off at any statement, Update touches its own word only. */
  lemma UpdateLeavesOthers(d: Dict, link: Link, w: Word, now: Time, x: Id)
    requires OwnChildIds(d, w, now) && x != w.id
    ensures SameWord(d, Updated(d, link, w, now).d, x)
  {
    var reply := Call(link);
    match UpdateWord(d.words, w.id, w.columns, now)
    case Err(_) =>
    case Ok(words) =>
      var d1 := d.(words := words);
      if reply.ok {
        ReplaceChildrenLeavesOthers(d1, reply.link, w, now, x);
        assert SameWord(d, d1, x);
      }
  }

  lemma CreateLeavesOthers(d: Dict, link: Link, w: Word, now: Time, x: Id)
    requires OwnChildIds(d, w, now) && x != w.id
    ensures SameWord(d, Created(d, link, w, now).d, x)
  {
    var reply := Call(link);
    match CreateWord(d.words, w.id, w.columns)
    case Err(_) =>
    case Ok(words) =>
      var d1 := d.(words := words);
      if reply.ok {
        UpsertChildrenLeavesOthers(d1, reply.link, w, now, x);
      }
  }

  // ---- and its own word becomes the aggregate ----

  lemma FreshSplits<C>(rows: seq<Child<C>>, incoming: seq<Child<C>>)
    requires incoming != [] && !Holds(rows, incoming[0].id)
    ensures FreshIds(rows, incoming) && DistinctIds(incoming)
      <==> FreshIds(rows + [incoming[0]], incoming[1..]) && DistinctIds(incoming[1..])
  {
    var rows', rest := rows + [incoming[0]], incoming[1..];
    if FreshIds(rows', rest) && DistinctIds(rest) {
      forall j | 0 < j < |incoming| ensures incoming[j].id != incoming[0].id {
        assert rest[j - 1] == incoming[j] && rows'[|rows|] == incoming[0];
      }
      forall i, j | 0 <= i < |rows| && 0 <= j < |incoming| ensures rows[i].id != incoming[j].id {
        if j > 0 {
          assert rows'[i] == rows[i] && rest[j - 1] == incoming[j];
        }
      }
      forall i, j | 0 <= i < j < |incoming| ensures incoming[i].id != incoming[j].id {
        if i > 0 {
          assert rest[i - 1] == incoming[i] && rest[j - 1] == incoming[j];
        }
      }
    }
  }

  /** The statements of a batch that take effect before the link breaks. */
  function Applied<T>(batch: seq<T>, link: Link): seq<T>
  {
    if batch == [] then []
    else
      var reply := Call(link);
      (if reply.applied then [batch[0]] else []) + if reply.ok then Applied(batch[1..], reply.link) else []
  }

  /** Upserts of distinct fresh ids are appends, up to where the link broke. */
  lemma {:induction false} UpsertAllAppends<C>(rows: seq<Child<C>>, incoming: seq<Child<C>>, overwrite: (C, C) -> C,
                                               link: Link)
    requires FreshIds(rows, incoming) && DistinctIds(incoming)
    ensures var r := UpsertAll(rows, incoming, overwrite, link);
      r.rows == rows + Applied(incoming, link) && (r.ok ==> Applied(incoming, link) == incoming)
    decreases |incoming|
  {
    if incoming != [] {
      var reply := Call(link);
      FreshHead(rows, incoming, overwrite);
      if reply.ok {
        UpsertAllAppends(rows + [incoming[0]], incoming[1..], overwrite, reply.link);
        AppendAssociates(rows, [incoming[0]], Applied(incoming[1..], reply.link));
      }
    }
  }

  lemma FreshHead<C>(rows: seq<Child<C>>, incoming: seq<Child<C>>, overwrite: (C, C) -> C)
    requires incoming != [] && FreshIds(rows, incoming) && DistinctIds(incoming)
    ensures Upsert(rows, incoming[0], overwrite) == rows + [incoming[0]]
    ensures FreshIds(rows + [incoming[0]], incoming[1..]) && DistinctIds(incoming[1..])
  {
    UpsertFreshAppends(rows, incoming[0], overwrite);
    FreshSplits(rows, incoming);
  }

  lemma AppendAssociates<T>(a: seq<T>, b: seq<T>, c: seq<T>)
    ensures a + b + c == a + (b + c)
  {
  }

  lemma ReplacedChildren<C>(rows: seq<Child<C>>, incoming: seq<Child<C>>, w: Id, overwrite: (C, C) -> C, link: Link)
    requires NotForeign(rows, incoming, w) && DistinctIds(incoming) && OwnedBy(incoming, w)
    requires UpsertAll(Without(rows, w), incoming, overwrite, link).ok
    ensures RowsOf(UpsertAll(Without(rows, w), incoming, overwrite, link).rows, w) == incoming
  {
    DeleteFreesIds(rows, incoming, w);
    UpsertAllAppends(Without(rows, w), incoming, overwrite, link);
    RowsOfAppend(Without(rows, w), incoming, w);
    DeleteEmptiesOnlyItsWord(rows, w, w);
    RowsOfOwn(incoming, w, w);
  }

  ghost predicate DistinctChildIds(w: Word)
  {
    && (forall i, j | 0 <= i < j < |w.definitions| :: w.definitions[i].id != w.definitions[j].id)
    && (forall i, j | 0 <= i < j < |w.examples| :: w.examples[i].id != w.examples[j].id)
  }

  /** A successful Update stores exactly the aggregate: its columns, its definitions and its examples. */
  lemma UpdateStores(d: Dict, link: Link, w: Word, now: Time)
    requires OwnChildIds(d, w, now) && DistinctChildIds(w)
    requires Updated(d, link, w, now).error.None?
    ensures var d' := Updated(d, link, w, now).d;
      && Visible(d, w.id) && Visible(d', w.id)
      && d'.words == d.words[w.id := WriteColumns(d.words[w.id], w.columns, now)]
      && RowsOf(d'.definitions, w.id) == DefinitionRows(w.definitions, w.id, now)
      && RowsOf(d'.examples, w.id) == ExampleRows(w.examples, w.id, now)
  {
    var defs, exs := DefinitionRows(w.definitions, w.id, now), ExampleRows(w.examples, w.id, now);
    var link2 := Call(Call(Call(link).link).link).link;
    ReplacedChildren(d.definitions, defs, w.id, OverwriteDefinition, link2);
    var link3 := UpsertAll(Without(d.definitions, w.id), defs, OverwriteDefinition, link2).link;
    ReplacedChildren(d.examples, exs, w.id, OverwriteExample, link3);
  }

  /** What a definition reads back as: the two counters and the sort order go through fixed-width columns. */
  function Stored(x: Definition): (r: Definition)
    ensures r == x <==>
      && -0x8000 <= x.sortOrder < 0x8000
      && -0x8000_0000 <= x.upvotes < 0x8000_0000 && -0x8000_0000 <= x.downvotes < 0x8000_0000
  {
    x.(sortOrder := Int16(x.sortOrder), upvotes := Int32(x.upvotes), downvotes := Int32(x.downvotes))
  }

  function StoredAll(xs: seq<Definition>): (r: seq<Definition>)
    ensures |r| == |xs| && forall i | 0 <= i < |xs| :: r[i] == Stored(xs[i])
  {
    seq(|xs|, i requires 0 <= i < |xs| => Stored(xs[i]))
  }

  /** The columns that come back: the caller's, except dialect, creator and creation time, which are the row's. */
  function StoredColumns(row: WordRow, c: Columns, now: Time): Columns
  {
    c.(homonym := Int16(c.homonym), dialect := row.dialect, createdBy := row.createdBy, createdAt := row.createdAt,
       updatedAt := now)
  }

  lemma {:induction false} SamePermutation<T, U>(a: seq<T>, b: seq<T>, fa: seq<U>, fb: seq<U>, f: T -> U)
    requires multiset(a) == multiset(b) && |fa| == |a| && |fb| == |b|
    requires forall i | 0 <= i < |a| :: fa[i] == f(a[i])
    requires forall i | 0 <= i < |b| :: fb[i] == f(b[i])
    ensures multiset(fa) == multiset(fb)
    decreases |a|
  {
    if a == [] {
      assert |multiset(b)| == 0;
    } else {
      assert a[0] in multiset(b);
      var k :| 0 <= k < |b| && b[k] == a[0];
      RemovedAlike(a, 0, b, k);
      SamePermutation(Removed(a, 0), Removed(b, k), Removed(fa, 0), Removed(fb, k), f);
      RemoveOne(fa, 0);
      RemoveOne(fb, k);
    }
  }

  function Removed<T>(s: seq<T>, k: nat): (r: seq<T>)
    requires k < |s|
    ensures |r| == |s| - 1 && forall i | 0 <= i < |r| :: r[i] == if i < k then s[i] else s[i + 1]
  {
    s[..k] + s[k + 1..]
  }

  lemma RemoveOne<T>(s: seq<T>, k: nat)
    requires k < |s|
    ensures multiset(s) == multiset(Removed(s, k)) + multiset{s[k]}
  {
    assert s == s[..k] + [s[k]] + s[k + 1..];
  }

  lemma RemovedAlike<T>(a: seq<T>, j: nat, b: seq<T>, k: nat)
    requires multiset(a) == multiset(b) && j < |a| && k < |b| && a[j] == b[k]
    ensures multiset(Removed(a, j)) == multiset(Removed(b, k))
  {
    RemoveOne(a, j);
    RemoveOne(b, k);
    assert multiset(Removed(a, j)) == multiset(a) - multiset{a[j]};
    assert multiset(Removed(b, k)) == multiset(b) - multiset{a[j]};
  }

  /**
   * Update, then FindByID: the same columns, the same definitions and the same examples come back, definitions in
   * order of sort order and then net score.
   */
  lemma UpdateThenFind(d: Dict, link: Link, w: Word, now: Time)
    requires OwnChildIds(d, w, now) && DistinctChildIds(w)
    requires Updated(d, link, w, now).error.None?
    ensures var d' := Updated(d, link, w, now).d;
      var found := Found(d', w.id);
      && Visible(d, w.id) && found.Some?
      && found.value.columns == StoredColumns(d.words[w.id], w.columns, now)
      && multiset(found.value.definitions) == multiset(StoredAll(w.definitions))
      && multiset(found.value.examples) == multiset(w.examples)
      && Ordered(OrderBy(RowsOf(d'.definitions, w.id), DefinitionBefore), DefinitionBefore)
  {
    UpdateStores(d, link, w, now);
    var defs, exs := DefinitionRows(w.definitions, w.id, now), ExampleRows(w.examples, w.id, now);
    OrderByPermutes(defs, DefinitionBefore);
    OrderByOrders(defs, DefinitionBefore);
    OrderByPermutes(exs, ExampleBefore);
    var defs', exs' := OrderBy(defs, DefinitionBefore), OrderBy(exs, ExampleBefore);
    SamePermutation(defs', defs, ToDefinitions(defs'), StoredAll(w.definitions), ToDefinition);
    SamePermutation(exs', exs, ToExamples(exs'), w.examples, ToExample);
  }

  // ---- exactly when nothing is lost ----

  lemma {:induction false} UpsertCount<C>(rows: seq<Child<C>>, row: Child<C>, overwrite: (C, C) -> C)
    ensures |RowsOf(Upsert(rows, row, overwrite), row.wordId)|
      == |RowsOf(rows, row.wordId)| + if Holds(rows, row.id) then 0 else 1
  {
    if rows != [] {
      if rows[0].id == row.id {
        assert Holds(rows, row.id);
      } else {
        UpsertCount(rows[1..], row, overwrite);
        if i :| 0 <= i < |rows| && rows[i].id == row.id {
          assert rows[1..][i - 1].id == row.id;
        }
      }
    }
  }

  lemma {:induction false} UpsertAllCount<C>(rows: seq<Child<C>>, incoming: seq<Child<C>>, w: Id,
                                             overwrite: (C, C) -> C)
    requires OwnedBy(incoming, w)
    ensures var n := |RowsOf(UpsertAll(rows, incoming, overwrite, Up).rows, w)|;
      && n <= |RowsOf(rows, w)| + |incoming|
      && (n == |RowsOf(rows, w)| + |incoming| <==> FreshIds(rows, incoming) && DistinctIds(incoming))
    decreases |incoming|
  {
    if incoming != [] {
      var first, rest := incoming[0], incoming[1..];
      var rows' := Upsert(rows, first, overwrite);
      UpsertCount(rows, first, overwrite);
      UpsertAllCount(rows', rest, w, overwrite);
      UpsertKeepsIds(rows, first, overwrite);
      if !Holds(rows, first.id) {
        UpsertFreshAppends(rows, first, overwrite);
        FreshSplits(rows, incoming);
      }
    }
  }

  /**
   * Replacing a word's children over a good link keeps every one of them exactly when the new ids are distinct and no
   * other word holds one.
   */
  lemma NothingLostIff<C>(rows: seq<Child<C>>, incoming: seq<Child<C>>, w: Id, overwrite: (C, C) -> C)
    requires OwnedBy(incoming, w)
    ensures |RowsOf(UpsertAll(Without(rows, w), incoming, overwrite, Up).rows, w)| == |incoming|
      <==> NotForeign(rows, incoming, w) && DistinctIds(incoming)
  {
    UpsertAllCount(Without(rows, w), incoming, w, overwrite);
    DeleteEmptiesOnlyItsWord(rows, w, w);
    if FreshIds(Without(rows, w), incoming) {
      forall i, j | 0 <= i < |rows| && 0 <= j < |incoming| && rows[i].id == incoming[j].id ensures rows[i].wordId == w {
        if rows[i].wordId != w {
          WithoutKeepsOthers(rows, w, i);
        }
      }
    }
    if NotForeign(rows, incoming, w) {
      DeleteFreesIds(rows, incoming, w);
    }
  }

  lemma {:induction false} WithoutKeepsOthers<C>(rows: seq<Child<C>>, w: Id, i: nat)
    requires i < |rows| && rows[i].wordId != w
    ensures rows[i] in Without(rows, w)
  {
    if i > 0 {
      WithoutKeepsOthers(rows[1..], w, i - 1);
    }
  }

  // ---- exactly what a failing statement leaves ----

  /** How many of m statements take effect when the code stops at the first error. */
  function Effective(link: Link, m: nat): (r: nat)
    ensures r <= m
    decreases m
  {
    if m == 0 then 0
    else
      var reply := Call(link);
      if reply.ok then 1 + Effective(reply.link, m - 1) else if reply.applied then 1 else 0
  }

  predicate AllOk(link: Link, m: nat)
    decreases m
  {
    m == 0 || (Call(link).ok && AllOk(Call(link).link, m - 1))
  }

  /** The link after m calls. */
  function Rest(link: Link, m: nat): Link
    decreases m
  {
    if m == 0 then link else Rest(Call(link).link, m - 1)
  }

  lemma {:induction false} EffectiveSplit(link: Link, a: nat, b: nat)
    ensures Effective(link, a + b) == if AllOk(link, a) then a + Effective(Rest(link, a), b) else Effective(link, a)
    decreases a
  {
    if a > 0 {
      EffectiveSplit(Call(link).link, a - 1, b);
    }
  }

  lemma {:induction false} AllOkEffective(link: Link, m: nat)
    requires AllOk(link, m)
    ensures Effective(link, m) == m
    decreases m
  {
    if m > 0 {
      AllOkEffective(Call(link).link, m - 1);
    }
  }

  lemma {:induction false} AppliedIsPrefix<T>(batch: seq<T>, link: Link)
    ensures Applied(batch, link) == batch[..Effective(link, |batch|)]
    decreases |batch|
  {
    if batch != [] {
      AppliedIsPrefix(batch[1..], Call(link).link);
    }
  }

  lemma {:induction false} UpsertAllCalls<C>(rows: seq<Child<C>>, incoming: seq<Child<C>>, overwrite: (C, C) -> C,
                                             link: Link)
    ensures var r := UpsertAll(rows, incoming, overwrite, link);
      r.ok == AllOk(link, |incoming|) && (r.ok ==> r.link == Rest(link, |incoming|))
    decreases |incoming|
  {
    if incoming != [] && Call(link).ok {
      UpsertAllCalls(Upsert(rows, incoming[0], overwrite), incoming[1..], overwrite, Call(link).link);
    }
  }

  /** Of n rows, those whose upserts are among the first `done` effective statements when `before` others come first. */
  function Reached(done: nat, before: nat, n: nat): (r: nat)
    ensures r <= n
  {
    if done < before then 0 else if done - before < n then done - before else n
  }

  /** Upserting into a table the word has no rows in leaves the rows whose statements took effect. */
  lemma {:induction false} UpsertedRows<C>(rows: seq<Child<C>>, incoming: seq<Child<C>>, w: Id,
                                           overwrite: (C, C) -> C, link: Link)
    requires NotForeign(rows, incoming, w) && DistinctIds(incoming) && OwnedBy(incoming, w)
    ensures RowsOf(UpsertAll(Without(rows, w), incoming, overwrite, link).rows, w)
      == incoming[..Effective(link, |incoming|)]
  {
    DeleteFreesIds(rows, incoming, w);
    UpsertAllAppends(Without(rows, w), incoming, overwrite, link);
    AppliedIsPrefix(incoming, link);
    var applied := incoming[..Effective(link, |incoming|)];
    RowsOfAppend(Without(rows, w), applied, w);
    DeleteEmptiesOnlyItsWord(rows, w, w);
    RowsOfOwn(applied, w, w);
  }

  /** The two upsert loops, from tables without the word's rows. */
  lemma {:induction false} UpsertChildrenLeaves(d: Dict, d0: Dict, link: Link, w: Word, now: Time)
    requires OwnChildIds(d0, w, now) && DistinctChildIds(w)
    requires d.definitions == Without(d0.definitions, w.id) && d.examples == Without(d0.examples, w.id)
    ensures var d', n := UpsertChildren(d, link, w, now).d, |w.definitions|;
      var done := Effective(link, n + |w.examples|);
      && RowsOf(d'.definitions, w.id) == DefinitionRows(w.definitions, w.id, now)[..Reached(done, 0, n)]
      && RowsOf(d'.examples, w.id) == ExampleRows(w.examples, w.id, now)[..Reached(done, n, |w.examples|)]
  {
    hide UpsertAll, RowsOf, NotForeign, DistinctIds, Effective;
    var defs, exs := DefinitionRows(w.definitions, w.id, now), ExampleRows(w.examples, w.id, now);
    EffectiveSplit(link, |defs|, |exs|);
    UpsertAllCalls(d.definitions, defs, OverwriteDefinition, link);
    UpsertedRows(d0.definitions, defs, w.id, OverwriteDefinition, link);
    UpsertedRows(d0.examples, exs, w.id, OverwriteExample, Rest(link, |defs|));
    DeleteEmptiesOnlyItsWord(d0.examples, w.id, w.id);
    if AllOk(link, |defs|) {
      AllOkEffective(link, |defs|);
    }
  }

  lemma NoneOf<T>(s: seq<T>)
    ensures s[..0] == []
  {
  }

  lemma {:induction false} DeletesThenUpserts(d: Dict, link: Link, w: Word, now: Time)
    requires AllOk(link, 2)
    ensures var d2 := d.(definitions := Without(d.definitions, w.id), examples := Without(d.examples, w.id));
      ReplaceChildren(d, link, w, now) == UpsertChildren(d2, Rest(link, 2), w, now)
  {
    assert AllOk(Call(link).link, 1) && Rest(link, 2) == Call(Call(link).link).link;
  }

  lemma TwoThen(link: Link, k: nat)
    ensures Effective(link, 2 + k) == if AllOk(link, 2) then 2 + Effective(Rest(link, 2), k) else Effective(link, 2)
    ensures !AllOk(link, 2) ==>
      Effective(link, 2) == if Call(link).ok then (if Call(Call(link).link).applied then 2 else 1)
                            else if Call(link).applied then 1 else 0
  {
    EffectiveSplit(link, 2, k);
    assert AllOk(link, 2) <==> Call(link).ok && Call(Call(link).link).ok;
  }

  lemma {:induction false} BrokenDeletesLeave(d: Dict, link: Link, w: Word, now: Time)
    requires OwnChildIds(d, w, now) && DistinctChildIds(w) && !AllOk(link, 2)
    ensures var d', n, m := ReplaceChildren(d, link, w, now).d, |w.definitions|, |w.examples|;
      var done := Effective(link, 2 + n + m);
      && d'.words == d.words
      && RowsOf(d'.definitions, w.id) == (if done < 1 then RowsOf(d.definitions, w.id)
                                          else DefinitionRows(w.definitions, w.id, now)[..Reached(done, 2, n)])
      && RowsOf(d'.examples, w.id) == (if done < 2 then RowsOf(d.examples, w.id)
                                       else ExampleRows(w.examples, w.id, now)[..Reached(done, 2 + n, m)])
  {
    TwoThen(link, |w.definitions| + |w.examples|);
    DeleteEmptiesOnlyItsWord(d.definitions, w.id, w.id);
    DeleteEmptiesOnlyItsWord(d.examples, w.id, w.id);
    NoneOf(DefinitionRows(w.definitions, w.id, now));
    NoneOf(ExampleRows(w.examples, w.id, now));
  }

  lemma {:induction false} ReplaceChildrenLeaves(d: Dict, link: Link, w: Word, now: Time)
    requires OwnChildIds(d, w, now) && DistinctChildIds(w)
    ensures var d', n, m := ReplaceChildren(d, link, w, now).d, |w.definitions|, |w.examples|;
      var done := Effective(link, 2 + n + m);
      && d'.words == d.words
      && RowsOf(d'.definitions, w.id) == (if done < 1 then RowsOf(d.definitions, w.id)
                                          else DefinitionRows(w.definitions, w.id, now)[..Reached(done, 2, n)])
      && RowsOf(d'.examples, w.id) == (if done < 2 then RowsOf(d.examples, w.id)
                                       else ExampleRows(w.examples, w.id, now)[..Reached(done, 2 + n, m)])
  {
    hide UpsertAll, RowsOf, Without, NotForeign, Effective;
    if AllOk(link, 2) {
      TwoThen(link, |w.definitions| + |w.examples|);
      DeletesThenUpserts(d, link, w, now);
      var d2 := d.(definitions := Without(d.definitions, w.id), examples := Without(d.examples, w.id));
      UpsertChildrenLeaves(d2, d, Rest(link, 2), w, now);
    } else {
      BrokenDeletesLeave(d, link, w, now);
    }
  }

  /**
   * What Update leaves over any link, by the number of statements that take effect: the row is the first, the deletes
   * are the second and the third, then come the definitions and the examples, one each. Before its delete a table
   * keeps the old rows; after it the word has those of the new ones that were reached.
   */
  lemma {:induction false} UpdateLeaves(d: Dict, link: Link, w: Word, now: Time)
    requires OwnChildIds(d, w, now) && DistinctChildIds(w) && UpdateWord(d.words, w.id, w.columns, now).Ok?
    ensures var d', n, m := Updated(d, link, w, now).d, |w.definitions|, |w.examples|;
      var done := Effective(link, 3 + n + m);
      && d'.words == (if done < 1 then d.words else UpdateWord(d.words, w.id, w.columns, now).value)
      && RowsOf(d'.definitions, w.id) == (if done < 2 then RowsOf(d.definitions, w.id)
                                          else DefinitionRows(w.definitions, w.id, now)[..Reached(done, 3, n)])
      && RowsOf(d'.examples, w.id) == (if done < 3 then RowsOf(d.examples, w.id)
                                       else ExampleRows(w.examples, w.id, now)[..Reached(done, 3 + n, m)])
  {
    if Call(link).ok {
      var words := UpdateWord(d.words, w.id, w.columns, now).value;
      ReplaceChildrenLeaves(d.(words := words), Call(link).link, w, now);
    }
  }

  /** A child of the stored word is among its rows. */
  ghost predicate Kept<C>(rows: seq<Child<C>>, rows': seq<Child<C>>)
  {
    forall i | 0 <= i < |rows| :: Holds(rows', rows[i].id)
  }

  /**
   * The first k of the rows of xs keep every one of the old rows that xs begins with exactly when they reach the last
   * of them.
   */
  lemma {:induction false} PrefixKeepsIff(prior: seq<Child<DefinitionBody>>, xs: seq<Definition>, w: Id, now: Time,
                                          k: nat)
    requires ToDefinitions(OrderBy(prior, DefinitionBefore)) <= xs && k <= |xs|
    requires forall i, j | 0 <= i < j < |xs| :: xs[i].id != xs[j].id
    ensures Kept(prior, DefinitionRows(xs, w, now)[..k]) <==> |prior| <= k
  {
    var ordered, stored := OrderBy(prior, DefinitionBefore), DefinitionRows(xs, w, now)[..k];
    var n := |ordered|;
    OrderByPermutes(prior, DefinitionBefore);
    assert |multiset(prior)| == |multiset(ordered)|;
    if n <= k {
      forall i | 0 <= i < |prior| ensures Holds(stored, prior[i].id) {
        assert prior[i] in multiset(ordered);
        var j :| 0 <= j < n && ordered[j] == prior[i];
        assert stored[j].id == xs[j].id == prior[i].id;
      }
    } else {
      assert ordered[n - 1] in multiset(prior);
      var i :| 0 <= i < |prior| && prior[i] == ordered[n - 1];
      assert xs[n - 1].id == prior[i].id;
      assert !Holds(stored, prior[i].id);
    }
  }

  /**
   * So an Update that appends to the definitions it loaded loses none of them exactly when there were none, or fewer
   * than two of its statements take effect, or all up to the last of the old definitions do.
   */
  lemma {:induction false} NoDefinitionLostIff(d: Dict, link: Link, w: Word, now: Time)
    requires OwnChildIds(d, w, now) && DistinctChildIds(w) && UpdateWord(d.words, w.id, w.columns, now).Ok?
    requires DefinitionsOf(d, w.id) <= w.definitions
    ensures var d', n := Updated(d, link, w, now).d, |RowsOf(d.definitions, w.id)|;
      var done := Effective(link, 3 + |w.definitions| + |w.examples|);
      Kept(RowsOf(d.definitions, w.id), RowsOf(d'.definitions, w.id)) <==> n == 0 || done < 2 || done >= 3 + n
  {
    var prior := RowsOf(d.definitions, w.id);
    var done := Effective(link, 3 + |w.definitions| + |w.examples|);
    UpdateLeaves(d, link, w, now);
    OrderByPermutes(prior, DefinitionBefore);
    assert |multiset(prior)| == |multiset(OrderBy(prior, DefinitionBefore))|;
    if done >= 2 {
      PrefixKeepsIff(prior, w.definitions, w.id, now, Reached(done, 3, |w.definitions|));
    }
  }

  // ---- a new word ----

  lemma OrphanFree<C>(rows: seq<Child<C>>, w: Id, words: set<Id>, next: Id)
    requires ValidRows(rows, words, next) && w !in words
    ensures RowsOf(rows, w) == [] && Without(rows, w) == rows
  {
    NoRowsNoChange(rows, w);
  }

  lemma {:induction false} NoRowsNoChange<C>(rows: seq<Child<C>>, w: Id)
    requires forall i | 0 <= i < |rows| :: rows[i].wordId != w
    ensures RowsOf(rows, w) == [] && Without(rows, w) == rows
  {
    if rows != [] {
      NoRowsNoChange(rows[1..], w);
    }
  }

  /** A successful Create stores exactly the aggregate under its own id. */
  lemma CreateStores(d: Dict, link: Link, w: Word, now: Time)
    requires Valid(d) && w.id !in d.words && OwnChildIds(d, w, now) && DistinctChildIds(w)
    requires Created(d, link, w, now).error.None?
    ensures var d' := Created(d, link, w, now).d;
      && d'.words == d.words[w.id := NewRow(w.columns)]
      && RowsOf(d'.definitions, w.id) == DefinitionRows(w.definitions, w.id, now)
      && RowsOf(d'.examples, w.id) == ExampleRows(w.examples, w.id, now)
  {
    var defs, exs := DefinitionRows(w.definitions, w.id, now), ExampleRows(w.examples, w.id, now);
    OrphanFree(d.definitions, w.id, d.words.Keys, d.nextId);
    OrphanFree(d.examples, w.id, d.words.Keys, d.nextId);
    var link1 := Call(link).link;
    ReplacedChildren(d.definitions, defs, w.id, OverwriteDefinition, link1);
    ReplacedChildren(d.examples, exs, w.id, OverwriteExample,
                     UpsertAll(d.definitions, defs, OverwriteDefinition, link1).link);
  }

  // ---- the schema's constraints survive ----

  lemma {:induction false} UpsertAllValid<C>(rows: seq<Child<C>>, incoming: seq<Child<C>>, w: Id,
                                             overwrite: (C, C) -> C, link: Link,
                                             words: set<Id>, next: Id)
    requires ValidRows(rows, words, next) && OwnedBy(incoming, w) && w in words
    requires forall j | 0 <= j < |incoming| :: incoming[j].id < next
    ensures ValidRows(UpsertAll(rows, incoming, overwrite, link).rows, words, next)
    decreases |incoming|
  {
    if incoming != [] {
      UpsertValid(rows, incoming[0], overwrite, words, next);
      var reply := Call(link);
      var rows' := if reply.applied then Upsert(rows, incoming[0], overwrite) else rows;
      if reply.ok {
        UpsertAllValid(rows', incoming[1..], w, overwrite, reply.link, words, next);
      }
    }
  }

  ghost predicate DrawnChildIds(d: Dict, w: Word)
  {
    && (forall i | 0 <= i < |w.definitions| :: w.definitions[i].id < d.nextId)
    && (forall i | 0 <= i < |w.examples| :: w.examples[i].id < d.nextId)
  }

  lemma UpsertChildrenValid(d: Dict, link: Link, w: Word, now: Time)
    requires Valid(d) && w.id in d.words && DrawnChildIds(d, w)
    ensures Valid(UpsertChildren(d, link, w, now).d)
  {
    var defs := DefinitionRows(w.definitions, w.id, now);
    UpsertAllValid(d.definitions, defs, w.id, OverwriteDefinition, link, d.words.Keys, d.nextId);
    var link' := UpsertAll(d.definitions, defs, OverwriteDefinition, link).link;
    UpsertAllValid(d.examples, ExampleRows(w.examples, w.id, now), w.id, OverwriteExample, link', d.words.Keys,
                   d.nextId);
  }

  lemma ReplaceChildrenValid(d: Dict, link: Link, w: Word, now: Time)
    requires Valid(d) && w.id in d.words && DrawnChildIds(d, w)
    ensures Valid(ReplaceChildren(d, link, w, now).d)
  {
    WithoutValid(d.definitions, w.id, d.words.Keys, d.nextId);
    WithoutValid(d.examples, w.id, d.words.Keys, d.nextId);
    var one := Call(link);
    if one.ok && Call(one.link).ok {
      var d2 := d.(definitions := Without(d.definitions, w.id), examples := Without(d.examples, w.id));
      UpsertChildrenValid(d2, Call(one.link).link, w, now);
    }
  }

  lemma PutWordValid(words: map<Id, WordRow>, id: Id, row: WordRow, next: Id)
    requires ValidWords(words, next) && id < next && !Taken(words, KeyOf(row), id)
    requires row.root.Some? ==> row.root.value in words
    ensures ValidWords(words[id := row], next)
  {
    var words' := words[id := row];
    forall a, b | a in words' && b in words' && KeyOf(words'[a]) == KeyOf(words'[b]) ensures a == b {
      if a != id && b != id {
        assert KeyOf(words[a]) == KeyOf(words[b]);
      }
    }
  }

  lemma MoreWordsValid(d: Dict, words: map<Id, WordRow>)
    requires Valid(d) && ValidWords(words, d.nextId) && d.words.Keys <= words.Keys
    ensures Valid(d.(words := words))
  {
  }

  lemma {:induction false} UpdateValid(d: Dict, link: Link, w: Word, now: Time)
    requires Valid(d) && DrawnChildIds(d, w)
    ensures Valid(Updated(d, link, w, now).d)
  {
    match UpdateWord(d.words, w.id, w.columns, now)
    case Err(_) =>
    case Ok(words) =>
      PutWordValid(d.words, w.id, WriteColumns(d.words[w.id], w.columns, now), d.nextId);
      MoreWordsValid(d, words);
      if Call(link).ok {
        ReplaceChildrenValid(d.(words := words), Call(link).link, w, now);
      }
  }

  lemma CreateValid(d: Dict, link: Link, w: Word, now: Time)
    requires Valid(d) && w.id < d.nextId && DrawnChildIds(d, w)
    ensures Valid(Created(d, link, w, now).d)
  {
    match CreateWord(d.words, w.id, w.columns)
    case Err(_) =>
    case Ok(words) =>
      PutWordValid(d.words, w.id, NewRow(w.columns), d.nextId);
      MoreWordsValid(d, words);
      if Call(link).ok {
        UpsertChildrenValid(d.(words := words), Call(link).link, w, now);
      }
  }

  // ---- the repository's code ----

  class PostgresWordRepository {
    const q: Queries.Queries

    constructor (q: Queries.Queries)
      ensures this.q == q
    {
      this.q := q;
    }

    method FindByID(id: Id) returns (word: WordAggregate?, error: Option<RepoError>)
      modifies q`link
      ensures var lookup := FoundOver(q.d, old(q.link), id);
        && q.link == lookup.link && (word == null <==> error.Some?)
        && lookup.found == if word == null then Err(error.value) else Ok(word.Value())
      ensures word != null ==> fresh(word)
    {
      var reply := q.Send();
      if !reply.ok {
        return null, Some(Unavailable);
      }
      if !Visible(q.d, id) {
        return null, Some(NotFound);
      }
      reply := q.Send();
      if !reply.ok {
        return null, Some(Unavailable);
      }
      var definitions := DefinitionsOf(q.d, id);
      reply := q.Send();
      if !reply.ok {
        return null, Some(Unavailable);
      }
      word := new WordAggregate(Word(id, ToColumns(q.d.words[id]), definitions, ExamplesOf(q.d, id)));
      error := None;
    }

    /** The id of a word so spelled, if there is one and all calls go well; which one, of several, is open. */
    method FindByBanjar(banjar: string) returns (id: Option<Id>)
      modifies q`link
      ensures q.link == AfterFindByBanjar(q.d, old(q.link), banjar)
      ensures id.Some? ==> Visible(q.d, id.value) && q.d.words[id.value].banjar == banjar
      ensures id.Some? <==> Spelled(q.d, banjar) && AllOk(old(q.link), 3)
    {
      ghost var link := q.link;
      assert AllOk(link, 3) <==> Call(link).ok && AllOk(Call(link).link, 2);
      assert AllOk(Call(link).link, 2) <==> Call(Call(link).link).ok && AllOk(Call(Call(link).link).link, 1);
      var reply := q.Send();
      if !reply.ok || !Spelled(q.d, banjar) {
        return None;
      }
      var found :| found in q.d.words && q.d.words[found].banjar == banjar && q.d.words[found].deletedAt.None?;
      reply := q.Send();
      if !reply.ok {
        return None;
      }
      reply := q.Send();
      id := if reply.ok then Some(found) else None;
    }

    method UpsertChildrenOf(w: Word, now: Time) returns (error: Option<RepoError>)
      modifies q
      ensures UpsertChildren(old(q.d), old(q.link), w, now) == Done(q.d, error, q.link)
    {
      ghost var d, link := q.d, q.link;
      ghost var defs, exs := DefinitionRows(w.definitions, w.id, now), ExampleRows(w.examples, w.id, now);
      for i := 0 to |w.definitions|
        invariant UpsertAll(q.d.definitions, defs[i..], OverwriteDefinition, q.link)
          == UpsertAll(d.definitions, defs, OverwriteDefinition, link)
        invariant q.d == d.(definitions := q.d.definitions)
      {
        assert defs[i..][0] == defs[i] && defs[i..][1..] == defs[i + 1..];
        var ok := q.UpsertDefinition(DefinitionRow(w.definitions[i], w.id, now));
        if !ok {
          return Some(Unavailable);
        }
      }
      assert defs[|w.definitions|..] == [];
      ghost var d1, link1 := q.d, q.link;
      for i := 0 to |w.examples|
        invariant UpsertAll(q.d.examples, exs[i..], OverwriteExample, q.link)
          == UpsertAll(d1.examples, exs, OverwriteExample, link1)
        invariant q.d == d1.(examples := q.d.examples)
      {
        assert exs[i..][0] == exs[i] && exs[i..][1..] == exs[i + 1..];
        var ok := q.UpsertExample(ExampleRow(w.examples[i], w.id, now));
        if !ok {
          return Some(Unavailable);
        }
      }
      assert exs[|w.examples|..] == [];
      error := None;
    }

    method Update(word: WordAggregate, now: Time) returns (error: Option<RepoError>)
      modifies q
      ensures Updated(old(q.d), old(q.link), word.Value(), now) == Done(q.d, error, q.link)
    {
      var w := word.Value();
      var words := UpdateWord(q.d.words, w.id, w.columns, now);
      var reply := q.Send();
      if reply.applied && words.Ok? {
        q.d := q.d.(words := words.value);
      }
      if !reply.ok {
        return Some(Unavailable);
      }
      if words.Err? {
        return Some(words.error);
      }
      var ok := q.DeleteDefinitionsByWordID(w.id);
      if !ok {
        return Some(Unavailable);
      }
      ok := q.DeleteExamplesByWordID(w.id);
      if !ok {
        return Some(Unavailable);
      }
      error := UpsertChildrenOf(w, now);
    }

    method Create(word: WordAggregate, now: Time) returns (error: Option<RepoError>)
      modifies q
      ensures Created(old(q.d), old(q.link), word.Value(), now) == Done(q.d, error, q.link)
    {
      var w := word.Value();
      var words := CreateWord(q.d.words, w.id, w.columns);
      var reply := q.Send();
      if reply.applied && words.Ok? {
        q.d := q.d.(words := words.value);
      }
      if !reply.ok {
        return Some(Unavailable);
      }
      if words.Err? {
        return Some(words.error);
      }
      error := UpsertChildrenOf(w, now);
    }
  }
}
