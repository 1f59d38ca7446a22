/** What the word store does, told in the rows' and the aggregate's own terms. */
module WordEffects {
  import opened Common
  import opened Dictionary
  import opened WordRepository

  // ---- codes ----

  function CodeText(wc: WordClass): string
  {
    match wc
    case N => "n"
    case V => "v"
    case A => "a"
    case Adv => "adv"
    case P => "p"
    case Pb => "pb"
    case Ki => "ki"
    case Num => "num"
    case Pron => "pron"
  }

  /** A word class is read from its own code and from nothing else. */
  lemma CodeRoundTrip(s: string, wc: WordClass)
    ensures WordClassCode(s) == Some(wc) <==> s == CodeText(wc)
  {
  }

  // ---- upserts of children ----

  lemma {:induction false} UpsertedAt<C>(rows: seq<Child<C>>, row: Child<C>, overwrite: (C, C) -> C, i: nat)
    requires DistinctIds(rows) && i < |rows|
    ensures i < |Upsert(rows, row, overwrite)|
    ensures Upsert(rows, row, overwrite)[i]
      == if rows[i].id == row.id then rows[i].(body := overwrite(rows[i].body, row.body), updatedAt := row.updatedAt)
         else rows[i]
  {
    if rows[0].id == row.id {
      assert i > 0 ==> rows[i].id != rows[0].id;
    } else if i > 0 {
      UpsertedAt(rows[1..], row, overwrite, i - 1);
    }
  }

  /**
   * Under an id that is there, an upsert replaces the texts and the sort order and the time of the last update; word,
   * source, votes and creation time stay, and so does every other row.
   */
  lemma DefinitionUpserted(rows: seq<Child<DefinitionBody>>, row: Child<DefinitionBody>, i: nat)
    requires DistinctIds(rows) && i < |rows|
    ensures i < |Upsert(rows, row, OverwriteDefinition)|
    ensures var was, r, given := rows[i], Upsert(rows, row, OverwriteDefinition)[i], row.body;
      if was.id != row.id then r == was
      else
        r == Child(was.id, was.wordId,
                    DefinitionBody(given.meaning, given.sortOrder, was.body.source, was.body.upvotes,
                                   was.body.downvotes),
                    was.createdAt, row.updatedAt)
  {
    UpsertedAt(rows, row, OverwriteDefinition, i);
  }

  lemma ExampleUpserted(rows: seq<Child<ExampleBody>>, row: Child<ExampleBody>, i: nat)
    requires DistinctIds(rows) && i < |rows|
    ensures i < |Upsert(rows, row, OverwriteExample)|
    ensures var was, r, given := rows[i], Upsert(rows, row, OverwriteExample)[i], row.body;
      if was.id != row.id then r == was
      else
        r == Child(was.id, was.wordId, ExampleBody(given.banjar, given.indonesian, was.body.source), was.createdAt,
                    row.updatedAt)
  {
    UpsertedAt(rows, row, OverwriteExample, i);
  }

  // ---- reading ----

  /** A text column and what is read of it: NULL reads as the empty text. */
  predicate ReadsAs(column: Option<string>, text: string)
  {
    match column
    case None => text == ""
    case Some(s) => text == s
  }

  /** The columns of the aggregate are those of the row. */
  predicate AreColumnsOf(c: Columns, row: WordRow)
  {
    && c.banjar == row.banjar && ReadsAs(row.syllabified, c.syllabified) && c.dialect == row.dialect
    && c.wordClass == row.wordClass && c.homonym == row.homonym && c.isRoot == row.isRoot && c.root == row.root
    && c.status == row.status && c.source == row.source && ReadsAs(row.reference, c.reference)
    && c.createdBy == row.createdBy && c.createdAt == row.createdAt && c.updatedAt == row.updatedAt
  }

  predicate IsDefinitionOf(x: Definition, row: Child<DefinitionBody>)
  {
    && x.id == row.id && x.meaning == row.body.meaning && x.sortOrder == row.body.sortOrder
    && x.source == row.body.source && x.upvotes == row.body.upvotes && x.downvotes == row.body.downvotes
  }

  predicate IsExampleOf(x: Example, row: Child<ExampleBody>)
  {
    x.id == row.id && x.banjar == row.body.banjar && x.indonesian == row.body.indonesian && x.source == row.body.source
  }

  predicate AreDefinitionsOf(xs: seq<Definition>, rows: seq<Child<DefinitionBody>>)
  {
    |xs| == |rows| && forall i | 0 <= i < |xs| :: IsDefinitionOf(xs[i], rows[i])
  }

  predicate AreExamplesOf(xs: seq<Example>, rows: seq<Child<ExampleBody>>)
  {
    |xs| == |rows| && forall i | 0 <= i < |xs| :: IsExampleOf(xs[i], rows[i])
  }

  /**
   * FindByID answers exactly when the word is there and not deleted and its three statements go well; then with the
   * row's columns and, in some order, the word's rows of each kind.
   */
  lemma FoundExactly(d: Dict, link: Link, id: Id)
    ensures var found := FoundOver(d, link, id).found;
      && (found.Ok? <==> id in d.words && d.words[id].deletedAt.None? && AllOk(link, 3))
      && (found == Err(NotFound) <==> Call(link).ok && (id !in d.words || d.words[id].deletedAt.Some?))
      && (found.Ok? ==>
            && found.value.id == id && AreColumnsOf(found.value.columns, d.words[id])
            && (exists rows ::
                  multiset(rows) == multiset(RowsOf(d.definitions, id))
                  && AreDefinitionsOf(found.value.definitions, rows))
            && exists rows ::
              multiset(rows) == multiset(RowsOf(d.examples, id)) && AreExamplesOf(found.value.examples, rows))
  {
    assert AllOk(link, 3) <==> Call(link).ok && AllOk(Call(link).link, 2);
    assert AllOk(Call(link).link, 2) <==> Call(Call(link).link).ok && AllOk(Call(Call(link).link).link, 1);
    if FoundOver(d, link, id).found.Ok? {
      OrderByPermutes(RowsOf(d.definitions, id), DefinitionBefore);
      OrderByPermutes(RowsOf(d.examples, id), ExampleBefore);
      var defs, exs := OrderBy(RowsOf(d.definitions, id), DefinitionBefore),
          OrderBy(RowsOf(d.examples, id), ExampleBefore);
      var word := FoundOver(d, link, id).found.value;
      assert AreDefinitionsOf(word.definitions, defs) && AreExamplesOf(word.examples, exs);
    }
  }

  /** Definitions come by sort order, those with the better net score first; examples by age, the oldest first. */
  lemma FoundIsOrdered(d: Dict, id: Id, i: nat)
    requires Visible(d, id)
    ensures var ds := Found(d, id).value.definitions;
      0 < i < |ds| ==>
        || ds[i - 1].sortOrder < ds[i].sortOrder
        || (ds[i - 1].sortOrder == ds[i].sortOrder
            && ds[i - 1].upvotes - ds[i - 1].downvotes >= ds[i].upvotes - ds[i].downvotes)
    ensures var rows := OrderBy(RowsOf(d.examples, id), ExampleBefore);
      && |rows| == |Found(d, id).value.examples|
      && (i < |rows| ==> IsExampleOf(Found(d, id).value.examples[i], rows[i]))
      && (0 < i < |rows| ==> rows[i - 1].createdAt <= rows[i].createdAt)
  {
    OrderByOrders(RowsOf(d.definitions, id), DefinitionBefore);
    OrderByOrders(RowsOf(d.examples, id), ExampleBefore);
  }

  // ---- when a word can be written ----

  /** Another word, deleted or not, has these five columns. */
  ghost predicate KeyTaken(words: map<Id, WordRow>, self: Id, banjar: string, dialect: Dialect, homonym: int,
                           isRoot: bool, root: Option<Id>)
  {
    exists x | x in words :: x != self && words[x].banjar == banjar && words[x].dialect == dialect
                             && words[x].homonym == homonym && words[x].isRoot == isRoot && words[x].root == root
  }

  lemma TakenIff(words: map<Id, WordRow>, row: WordRow, self: Id)
    ensures Taken(words, KeyOf(row), self)
      <==> KeyTaken(words, self, row.banjar, row.dialect, row.homonym, row.isRoot, row.root)
  {
    if x :| x in words && x != self && KeyOf(words[x]) == KeyOf(row) {
      assert words[x].banjar == row.banjar;
    }
  }

  /**
   * Over a good link Update succeeds exactly when the word is there and not deleted, its root is there and no other
   * word has its key; a missing word is told apart. What fails changes nothing.
   */
  lemma UpdateSucceedsIff(d: Dict, w: Word, now: Time)
    ensures var done, c, there := Updated(d, Up, w, now), w.columns, w.id in d.words && d.words[w.id].deletedAt.None?;
      && (done.error == Some(NotFound) <==> !there)
      && (done.error.None? <==>
            && there && (c.root.Some? ==> c.root.value in d.words)
            && !KeyTaken(d.words, w.id, c.banjar, d.words[w.id].dialect, Int16(c.homonym), c.isRoot, c.root))
      && (done.error.Some? ==> done.d == d)
  {
    GoodUpserts(Without(d.definitions, w.id), DefinitionRows(w.definitions, w.id, now), OverwriteDefinition);
    GoodUpserts(Without(d.examples, w.id), ExampleRows(w.examples, w.id, now), OverwriteExample);
    if w.id in d.words {
      TakenIff(d.words, WriteColumns(d.words[w.id], w.columns, now), w.id);
    }
  }

  lemma {:induction false} GoodUpserts<T>(rows: seq<Child<T>>, incoming: seq<Child<T>>, overwrite: (T, T) -> T)
    ensures UpsertAll(rows, incoming, overwrite, Up).ok && UpsertAll(rows, incoming, overwrite, Up).link == Up
    decreases |incoming|
  {
    if incoming != [] {
      GoodUpserts(Upsert(rows, incoming[0], overwrite), incoming[1..], overwrite);
    }
  }

  /** Create is a conflict exactly when the id or the key is taken, and otherwise fails only for a missing root. */
  lemma CreateSucceedsIff(d: Dict, w: Word, now: Time)
    ensures var done, c := Created(d, Up, w, now), w.columns;
      var taken := w.id in d.words
                   || KeyTaken(d.words, w.id, c.banjar, c.dialect, Int16(c.homonym), c.isRoot, c.root);
      && (done.error == Some(Conflict) <==> taken)
      && (done.error.None? <==> !taken && (c.root.Some? ==> c.root.value in d.words))
      && (done.error.Some? ==> done.d == d)
  {
    GoodUpserts(d.definitions, DefinitionRows(w.definitions, w.id, now), OverwriteDefinition);
    GoodUpserts(d.examples, ExampleRows(w.examples, w.id, now), OverwriteExample);
    TakenIff(d.words, NewRow(w.columns), w.id);
  }

  /** The rows of an aggregate, in whatever order, read as its children. */
  lemma RowsReadBack(w: Word, now: Time)
    ensures var defs, exs := DefinitionRows(w.definitions, w.id, now), ExampleRows(w.examples, w.id, now);
      && multiset(ToDefinitions(OrderBy(defs, DefinitionBefore))) == multiset(StoredAll(w.definitions))
      && multiset(ToExamples(OrderBy(exs, ExampleBefore))) == multiset(w.examples)
  {
    var defs, exs := DefinitionRows(w.definitions, w.id, now), ExampleRows(w.examples, w.id, now);
    OrderByPermutes(defs, DefinitionBefore);
    OrderByPermutes(exs, ExampleBefore);
    var defs', exs' := OrderBy(defs, DefinitionBefore), OrderBy(exs, ExampleBefore);
    SamePermutation(defs', defs, ToDefinitions(defs'), StoredAll(w.definitions), ToDefinition);
    SamePermutation(exs', exs, ToExamples(exs'), w.examples, ToExample);
  }

  /** Create, then FindByID: the aggregate comes back, its numbers as the columns hold them. */
  lemma CreateThenFind(d: Dict, link: Link, w: Word, now: Time)
    requires Valid(d) && w.id !in d.words && OwnChildIds(d, w, now) && DistinctChildIds(w)
    requires Created(d, link, w, now).error.None?
    ensures var found := Found(Created(d, link, w, now).d, w.id);
      && found.Some? && found.value.columns == w.columns.(homonym := Int16(w.columns.homonym))
      && multiset(found.value.definitions) == multiset(StoredAll(w.definitions))
      && multiset(found.value.examples) == multiset(w.examples)
  {
    hide Created, Valid, OrderBy, RowsOf;
    CreateStores(d, link, w, now);
    RowsReadBack(w, now);
  }

  /** The children an update stores are the word's, under their own ids, and as old as the update. */
  lemma UpdateStamps(d: Dict, link: Link, w: Word, now: Time)
    requires OwnChildIds(d, w, now) && DistinctChildIds(w) && Updated(d, link, w, now).error.None?
    ensures var d' := Updated(d, link, w, now).d;
      var defs, exs := RowsOf(d'.definitions, w.id), RowsOf(d'.examples, w.id);
      && |defs| == |w.definitions| && |exs| == |w.examples|
      && (forall i | 0 <= i < |defs| ::
            defs[i].id == w.definitions[i].id && defs[i].createdAt == now && defs[i].updatedAt == now)
      && (forall i | 0 <= i < |exs| ::
            exs[i].id == w.examples[i].id && exs[i].createdAt == now && exs[i].updatedAt == now)
  {
    hide Updated, OwnChildIds, DistinctChildIds;
    UpdateStores(d, link, w, now);
  }
}
