/** The dictionary tables (words, definitions, examples) and the SQL statements that change them. */
module Dictionary {
  import opened Common

  datatype WordClass = N | V | A | Adv | P | Pb | Ki | Num | Pron

  /** The nine codes of a word class. */
  function WordClassCode(s: string): Option<WordClass>
  {
    match s
    case "n" => Some(N)
    case "v" => Some(V)
    case "a" => Some(A)
    case "adv" => Some(Adv)
    case "p" => Some(P)
    case "pb" => Some(Pb)
    case "ki" => Some(Ki)
    case "num" => Some(Num)
    case "pron" => Some(Pron)
    case _ => None
  }

  datatype Dialect = Hulu

  datatype Source = Seeded | Contributed | AiGenerated

  datatype Status = Active | Deprecated

  datatype WordRow = WordRow(
    banjar: string, syllabified: Option<string>, dialect: Dialect, wordClass: WordClass,
    homonym: int, isRoot: bool, root: Option<Id>,
    status: Status, source: Source, reference: Option<string>, createdBy: Option<Id>,
    createdAt: Time, updatedAt: Time, deletedAt: Option<Time>)

  /** The five columns of the words_unique constraint; NULLs in them count as equal. */
  datatype Key = Key(banjar: string, dialect: Dialect, homonym: int, isRoot: bool, root: Option<Id>)

  function KeyOf(row: WordRow): Key
  {
    Key(row.banjar, row.dialect, row.homonym, row.isRoot, row.root)
  }

  /** A row of a child table: the columns every child has, and the body C particular to the table. */
  datatype Child<C> = Child(id: Id, wordId: Id, body: C, createdAt: Time, updatedAt: Time)

  datatype DefinitionBody = DefinitionBody(meaning: string, sortOrder: int, source: Source, upvotes: int,
                                           downvotes: int)

  datatype ExampleBody = ExampleBody(banjar: string, indonesian: string, source: Source)

  /** The whole dictionary. `nextId` is the supply uuid.New() draws from. */
  datatype Dict = Dict(
    words: map<Id, WordRow>,
    definitions: seq<Child<DefinitionBody>>,
    examples: seq<Child<ExampleBody>>,
    nextId: Id)

  ghost predicate UniqueKeys(words: map<Id, WordRow>)
  {
    forall a, b {:trigger KeyOf(words[a]), KeyOf(words[b])}
      | a in words && b in words && KeyOf(words[a]) == KeyOf(words[b]) :: a == b
  }

  ghost predicate DistinctIds<C>(rows: seq<Child<C>>)
  {
    forall i, j | 0 <= i < j < |rows| :: rows[i].id != rows[j].id
  }

  ghost predicate ValidRows<C>(rows: seq<Child<C>>, words: set<Id>, next: Id)
  {
    DistinctIds(rows) && forall i | 0 <= i < |rows| :: rows[i].wordId in words && rows[i].id < next
  }

  ghost predicate ValidWords(words: map<Id, WordRow>, next: Id)
  {
    && UniqueKeys(words)
    && (forall id | id in words :: id < next)
    && (forall id {:trigger words[id]} | id in words && words[id].root.Some? :: words[id].root.value in words)
  }

  /** What the schema's primary keys, unique constraint and foreign keys guarantee. */
  ghost predicate Valid(d: Dict)
  {
    && ValidWords(d.words, d.nextId)
    && ValidRows(d.definitions, d.words.Keys, d.nextId)
    && ValidRows(d.examples, d.words.Keys, d.nextId)
  }

  /** The row that holds a key. With unique keys there is at most one. */
  ghost function FindKey(words: map<Id, WordRow>, key: Key): (r: Option<Id>)
    ensures r.Some? ==> r.value in words && KeyOf(words[r.value]) == key
    ensures r.None? ==> forall id | id in words :: KeyOf(words[id]) != key
  {
    if exists id :: id in words && KeyOf(words[id]) == key then
      var id :| id in words && KeyOf(words[id]) == key;
      Some(id)
    else
      None
  }

  /** The upsert's SET clause: everything that names the word stays. */
  function OverwriteWord(row: WordRow, incoming: WordRow): (r: WordRow)
    ensures KeyOf(r) == KeyOf(row) && r.root == row.root
  {
    row.(wordClass := incoming.wordClass, reference := incoming.reference, updatedAt := incoming.updatedAt)
  }

  /**
   * INSERT ... ON CONFLICT on the key: a new row, or new word_class, source_reference and updated_at on the old one.
   */
  ghost function UpsertWord(words: map<Id, WordRow>, id: Id, row: WordRow): (map<Id, WordRow>, Id)
  {
    match FindKey(words, KeyOf(row))
    case Some(held) => (words[held := OverwriteWord(words[held], row)], held)
    case None => (words[id := row], id)
  }

  /** SELECT ... WHERE word_id = w, before any ordering. */
  function RowsOf<C>(rows: seq<Child<C>>, w: Id): (r: seq<Child<C>>)
    ensures forall i | 0 <= i < |r| :: r[i].wordId == w
  {
    if rows == [] then []
    else (if rows[0].wordId == w then [rows[0]] else []) + RowsOf(rows[1..], w)
  }

  /** DELETE ... WHERE word_id = w. */
  function Without<C>(rows: seq<Child<C>>, w: Id): (r: seq<Child<C>>)
    ensures forall i | 0 <= i < |r| :: r[i].wordId != w
  {
    if rows == [] then []
    else (if rows[0].wordId != w then [rows[0]] else []) + Without(rows[1..], w)
  }

  /** INSERT ... ON CONFLICT (id) DO UPDATE; `overwrite` is the SET clause, from the old body and the new one. */
  function Upsert<C>(rows: seq<Child<C>>, row: Child<C>, overwrite: (C, C) -> C): (r: seq<Child<C>>)
  {
    if rows == [] then [row]
    else if rows[0].id == row.id then
      [rows[0].(body := overwrite(rows[0].body, row.body), updatedAt := row.updatedAt)] + rows[1..]
    else [rows[0]] + Upsert(rows[1..], row, overwrite)
  }

  /** The definitions' SET clause replaces meaning and sort_order and keeps source and votes. */
  function OverwriteDefinition(prior: DefinitionBody, incoming: DefinitionBody): DefinitionBody
  {
    prior.(meaning := incoming.meaning, sortOrder := incoming.sortOrder)
  }

  /** The examples' SET clause replaces both sentences and keeps the source. */
  function OverwriteExample(prior: ExampleBody, incoming: ExampleBody): ExampleBody
  {
    prior.(banjar := incoming.banjar, indonesian := incoming.indonesian)
  }

  function Bodies<C>(rows: seq<Child<C>>): (r: seq<C>)
    ensures |r| == |rows| && forall i | 0 <= i < |rows| :: r[i] == rows[i].body
  {
    seq(|rows|, i requires 0 <= i < |rows| => rows[i].body)
  }

  predicate OwnedBy<C>(rows: seq<Child<C>>, w: Id) { forall j | 0 <= j < |rows| :: rows[j].wordId == w }

  predicate NumberedFrom<C>(rows: seq<Child<C>>, next: Id) { forall j | 0 <= j < |rows| :: rows[j].id == next + j }

  /** Newly numbered rows of one word. */
  function NewRows<C>(w: Id, bodies: seq<C>, now: Time, next: Id): (r: seq<Child<C>>)
    ensures OwnedBy(r, w) && NumberedFrom(r, next) && Bodies(r) == bodies
  {
    seq(|bodies|, j requires 0 <= j < |bodies| => Child(next + j, w, bodies[j], now, now))
  }

  // ---- laws of the child tables ----

  lemma {:induction false} RowsOfAppend<C>(a: seq<Child<C>>, b: seq<Child<C>>, w: Id)
    ensures RowsOf(a + b, w) == RowsOf(a, w) + RowsOf(b, w)
  {
    if a == [] {
      assert a + b == b;
    } else {
      RowsOfAppend(a[1..], b, w);
      assert (a + b)[1..] == a[1..] + b;
    }
  }

  /** A delete empties its own word and touches no other. */
  lemma {:induction false} DeleteEmptiesOnlyItsWord<C>(rows: seq<Child<C>>, w: Id, x: Id)
    ensures RowsOf(Without(rows, w), x) == if x == w then [] else RowsOf(rows, x)
  {
    if rows != [] {
      DeleteEmptiesOnlyItsWord(rows[1..], w, x);
      var head := if rows[0].wordId != w then [rows[0]] else [];
      RowsOfAppend(head, Without(rows[1..], w), x);
    }
  }

  lemma {:induction false} WithoutMembers<C>(rows: seq<Child<C>>, w: Id)
    ensures forall i | 0 <= i < |Without(rows, w)| :: Without(rows, w)[i] in rows
  {
    if rows != [] {
      WithoutMembers(rows[1..], w);
    }
  }

  lemma {:induction false} WithoutValid<C>(rows: seq<Child<C>>, w: Id, words: set<Id>, next: Id)
    requires ValidRows(rows, words, next)
    ensures ValidRows(Without(rows, w), words, next)
  {
    if rows != [] {
      WithoutValid(rows[1..], w, words, next);
      var rest := Without(rows[1..], w);
      WithoutMembers(rows[1..], w);
      forall i | 0 <= i < |rest| ensures rest[i].id != rows[0].id {
        assert rest[i] in rows[1..];
      }
    }
  }

  lemma {:induction false} UpsertFreshAppends<C>(rows: seq<Child<C>>, row: Child<C>, overwrite: (C, C) -> C)
    requires forall i | 0 <= i < |rows| :: rows[i].id != row.id
    ensures Upsert(rows, row, overwrite) == rows + [row]
  {
    if rows != [] {
      UpsertFreshAppends(rows[1..], row, overwrite);
    }
  }

  /** Rows that all belong to one word are that word's rows, and no other's. */
  lemma {:induction false} RowsOfOwn<C>(rows: seq<Child<C>>, w: Id, x: Id)
    requires forall i | 0 <= i < |rows| :: rows[i].wordId == w
    ensures RowsOf(rows, x) == if x == w then rows else []
  {
    if rows != [] {
      RowsOfOwn(rows[1..], w, x);
    }
  }

  lemma ValidRowsMonotone<C>(rows: seq<Child<C>>, words: set<Id>, next: Id, words': set<Id>, next': Id)
    requires ValidRows(rows, words, next) && words <= words' && next <= next'
    ensures ValidRows(rows, words', next')
  {
  }

  ghost predicate Holds<C>(rows: seq<Child<C>>, id: Id)
  {
    exists i | 0 <= i < |rows| :: rows[i].id == id
  }

  lemma {:induction false} UpsertKeepsIds<C>(rows: seq<Child<C>>, row: Child<C>, overwrite: (C, C) -> C)
    ensures var r := Upsert(rows, row, overwrite);
      forall i | 0 <= i < |r| :: if i < |rows| then r[i].id == rows[i].id && r[i].wordId == rows[i].wordId
        else r[i] == row
  {
    if rows != [] && rows[0].id != row.id {
      UpsertKeepsIds(rows[1..], row, overwrite);
    }
  }

  lemma {:induction false} UpsertHeldKeepsLength<C>(rows: seq<Child<C>>, row: Child<C>, overwrite: (C, C) -> C)
    requires Holds(rows, row.id)
    ensures |Upsert(rows, row, overwrite)| == |rows|
  {
    var i :| 0 <= i < |rows| && rows[i].id == row.id;
    if rows[0].id != row.id {
      assert rows[1..][i - 1].id == row.id;
      UpsertHeldKeepsLength(rows[1..], row, overwrite);
    }
  }

  lemma {:induction false} UpsertValid<C>(rows: seq<Child<C>>, row: Child<C>, overwrite: (C, C) -> C, words: set<Id>,
                                          next: Id)
    requires ValidRows(rows, words, next) && row.wordId in words && row.id < next
    ensures ValidRows(Upsert(rows, row, overwrite), words, next)
  {
    UpsertKeepsIds(rows, row, overwrite);
    if !Holds(rows, row.id) {
      UpsertFreshAppends(rows, row, overwrite);
    } else {
      UpsertHeldKeepsLength(rows, row, overwrite);
    }
  }

  // ---- laws of the words table ----

  lemma ValidWordsMonotone(words: map<Id, WordRow>, next: Id, next': Id)
    requires ValidWords(words, next) && next <= next'
    ensures ValidWords(words, next')
  {
  }

  lemma RewrittenWordValid(words: map<Id, WordRow>, w: Id, row: WordRow, next: Id)
    requires ValidWords(words, next) && w in words
    requires KeyOf(row) == KeyOf(words[w])
    ensures ValidWords(words[w := row], next)
  {
    var words' := words[w := row];
    forall x | x in words ensures KeyOf(words'[x]) == KeyOf(words[x]) && words'[x].root == words[x].root {
      assert KeyOf(words'[x]).root == KeyOf(words[x]).root;
    }
  }

  lemma NewWordValid(words: map<Id, WordRow>, id: Id, row: WordRow)
    requires ValidWords(words, id) && FindKey(words, KeyOf(row)) == None
    requires row.root.Some? ==> row.root.value in words
    ensures ValidWords(words[id := row], id + 1)
  {
  }

  lemma UpsertWordValid(words: map<Id, WordRow>, id: Id, row: WordRow)
    requires ValidWords(words, id)
    requires row.root.Some? ==> row.root.value in words
    ensures ValidWords(UpsertWord(words, id, row).0, id + 1)
  {
    match FindKey(words, KeyOf(row))
    case Some(held) =>
      RewrittenWordValid(words, held, OverwriteWord(words[held], row), id);
      ValidWordsMonotone(words[held := OverwriteWord(words[held], row)], id, id + 1);
    case None =>
      NewWordValid(words, id, row);
  }

  lemma UpsertWordHolds(words: map<Id, WordRow>, id: Id, row: WordRow)
    ensures var (words', w) := UpsertWord(words, id, row);
      w in words' && words'.Keys == words.Keys + {w} && KeyOf(words'[w]) == KeyOf(row)
  {
  }
}
