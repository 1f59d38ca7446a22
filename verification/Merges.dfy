/**
 * Merging approved content into the dictionary: contributions (moderation_service.go) and AI output
 * (enrichment_service.go).
 */
module Merges {
  import opened Common
  import opened Dictionary
  import opened WordRepository
  import C = Contributions
  import A = AiRequests

  datatype MergeError =
    | InvalidPayload | WordNotFound | InvalidWordClass | MeaningTooLong | StoreFailed(error: RepoError)

  datatype Merged = Merged(d: Dict, error: Option<MergeError>, link: Link)

  // ---- changing a word that is there ----

  /**
   * What a merge does to the word it has loaded. Related words are not stored, so suggesting one looks it up and
   * rewrites the word as it was.
   */
  datatype Edit =
    | AddDefinition(meaning: string, ai: bool)
    | AddExample(banjar: string, indonesian: string, ai: bool)
    | SetColumns(banjar: string, syllabified: Option<string>, wordClass: string)
    | Relate(related: string)
    | Rewrite

  function Sourced(w: Word, ai: bool): Word
  {
    if ai then w.(columns := w.columns.(source := AiGenerated)) else w
  }

  function Apply(w: Word, edit: Edit, id: Id, now: Time): Result<Word, MergeError>
  {
    match edit
    case AddDefinition(meaning, ai) =>
      if |meaning| > MAX_MEANING_LENGTH then Err(MeaningTooLong)
      else Ok(WithDefinition(Sourced(w, ai), id, meaning, |w.definitions| + 1, now))
    case AddExample(banjar, indonesian, ai) =>
      Ok(WithExample(Sourced(w, ai), id, banjar, indonesian, now))
    case SetColumns(banjar, syllabified, wordClass) =>
      if wordClass != "" && WordClassCode(wordClass).None? then Err(InvalidWordClass)
      else
        var c := w.columns;
        Ok(w.(columns := c.(
          banjar := if banjar != "" then banjar else c.banjar,
          syllabified := if syllabified.Some? then syllabified.value else c.syllabified,
          wordClass := if wordClass != "" then WordClassCode(wordClass).value else c.wordClass)))
    case Relate(_) => Ok(w)
    case Rewrite => Ok(w)
  }

  /** The supply after an edit: a new child draws an id. */
  function Drawn(d: Dict, edit: Edit): Dict
  {
    if edit.AddDefinition? || edit.AddExample? then d.(nextId := d.nextId + 1) else d
  }

  /** The link after an edit: a related word is looked up, whatever comes of it. */
  function EditLink(d: Dict, link: Link, edit: Edit): Link
  {
    if edit.Relate? then AfterFindByBanjar(d, link, edit.related) else link
  }

  /** Load the word, change it, store it. */
  function EditWord(d: Dict, link: Link, target: Id, edit: Edit, now: Time): Merged
  {
    var lookup := FoundOver(d, link, target);
    match lookup.found
    case Err(_) => Merged(d, Some(WordNotFound), lookup.link)
    case Ok(w) =>
      var edited := Apply(w, edit, d.nextId, now);
      if edited.Err? then Merged(d, Some(edited.error), lookup.link)
      else
        var done := Updated(Drawn(d, edit), EditLink(d, lookup.link, edit), edited.value, now);
        Merged(done.d, if done.error.Some? then Some(StoreFailed(done.error.value)) else None, done.link)
  }

  lemma EditSteps(d: Dict, link: Link, target: Id, edit: Edit, now: Time, was: Word, link1: Link, w: Word, done: Done)
    requires FoundOver(d, link, target) == Lookup(Ok(was), link1)
    requires Apply(was, edit, d.nextId, now) == Ok(w)
    requires Updated(Drawn(d, edit), EditLink(d, link1, edit), w, now) == done
    ensures EditWord(d, link, target, edit, now)
      == Merged(done.d, if done.error.Some? then Some(StoreFailed(done.error.value)) else None, done.link)
  {
  }

  // ---- a new word ----

  function FieldOf(item: Json, key: string): string
  {
    if item.Obj? then StringAt(item.fields, key) else ""
  }

  function ItemsAt(payload: map<string, Json>, key: string): seq<Json>
  {
    if key in payload && payload[key].Arr? then payload[key].items else []
  }

  /** A word under construction, and the supply it draws ids from. */
  datatype Draft = Draft(w: Word, next: Id)

  /**
   * The first n listed definitions: blank and over-long meanings are skipped, each keeps its place as its sort order.
   */
  function DraftDefinitions(start: Draft, items: seq<Json>, n: nat, now: Time): Draft
    requires n <= |items|
  {
    if n == 0 then start
    else
      var draft := DraftDefinitions(start, items, n - 1, now);
      var meaning := FieldOf(items[n - 1], "meaning");
      if meaning == "" || |meaning| > MAX_MEANING_LENGTH then draft
      else Draft(WithDefinition(draft.w, draft.next, meaning, n, now), draft.next + 1)
  }

  function DraftExamples(start: Draft, items: seq<Json>, n: nat, now: Time): Draft
    requires n <= |items|
  {
    if n == 0 then start
    else
      var draft := DraftExamples(start, items, n - 1, now);
      var banjar := FieldOf(items[n - 1], "banjar_sentence");
      if banjar == "" then draft
      else Draft(WithExample(draft.w, draft.next, banjar, FieldOf(items[n - 1], "indonesian_translation"), now),
                 draft.next + 1)
  }

  /** The word before anything is listed under it. */
  function BareDraft(payload: map<string, Json>, wordClass: WordClass, contributor: Id, next: Id, now: Time): Draft
  {
    var w := NewWord(next, StringAt(payload, "banjar"), wordClass, now);
    var c := w.columns.(source := Contributed, createdBy := Some(contributor),
                        syllabified := StringAt(payload, "banjar_syllabified"));
    Draft(w.(columns := c), next + 1)
  }

  function DraftWord(payload: map<string, Json>, wordClass: WordClass, contributor: Id, next: Id, now: Time): Draft
  {
    var defs, exs := ItemsAt(payload, "definitions"), ItemsAt(payload, "examples");
    DraftExamples(DraftDefinitions(BareDraft(payload, wordClass, contributor, next, now), defs, |defs|, now), exs,
                  |exs|, now)
  }

  function MergeNewWord(d: Dict, link: Link, c: C.Contribution, now: Time): Merged
  {
    var banjar, wordClass := StringAt(c.payload, "banjar"), StringAt(c.payload, "word_class");
    if banjar == "" || wordClass == "" then Merged(d, Some(InvalidPayload), link)
    else if WordClassCode(wordClass).None? then Merged(d, Some(InvalidWordClass), link)
    else
      var draft := DraftWord(c.payload, WordClassCode(wordClass).value, c.contributor, d.nextId, now);
      var done := Created(d.(nextId := draft.next), link, draft.w, now);
      Merged(done.d, if done.error.Some? then Some(StoreFailed(done.error.value)) else None, done.link)
  }

  lemma NewWordSteps(d: Dict, link: Link, c: C.Contribution, now: Time, draft: Draft, done: Done)
    requires var banjar, code := StringAt(c.payload, "banjar"), StringAt(c.payload, "word_class");
      && banjar != "" && code != "" && WordClassCode(code).Some?
      && draft == DraftWord(c.payload, WordClassCode(code).value, c.contributor, d.nextId, now)
    requires Created(d.(nextId := draft.next), link, draft.w, now) == done
    ensures MergeNewWord(d, link, c, now)
      == Merged(done.d, if done.error.Some? then Some(StoreFailed(done.error.value)) else None, done.link)
  {
  }

  // ---- the two mergers ----

  /** The edit a contribution asks for, if its payload has what its kind needs. */
  function EditOf(c: C.Contribution): Option<Edit>
  {
    match c.kind
    case NewWord => None
    case NewDefinition =>
      var meaning := StringAt(c.payload, "meaning");
      if meaning == "" then None else Some(AddDefinition(meaning, false))
    case NewExample =>
      var banjar := StringAt(c.payload, "banjar_sentence");
      if banjar == "" then None else Some(AddExample(banjar, StringAt(c.payload, "indonesian_translation"), false))
    case EditWord =>
      var syllabified :=
        if "banjar_syllabified" in c.payload && c.payload["banjar_syllabified"].Str?
          then Some(c.payload["banjar_syllabified"].text)
        else None;
      Some(SetColumns(StringAt(c.payload, "banjar"), syllabified, StringAt(c.payload, "word_class")))
  }

  function MergeContribution(d: Dict, link: Link, c: C.Contribution, now: Time): Merged
  {
    if c.kind.NewWord? then MergeNewWord(d, link, c, now)
    else MergeEdit(d, link, c.target, EditOf(c), now)
  }

  function MergeEdit(d: Dict, link: Link, target: Option<Id>, edit: Option<Edit>, now: Time): Merged
  {
    if target.None? || edit.None? then Merged(d, Some(InvalidPayload), link)
    else EditWord(d, link, target.value, edit.value, now)
  }

  /** The edit an AI answer asks for: one without the expected text rewrites the word as it was. */
  function AiEditOf(kind: A.Kind, parsed: A.Document): Edit
  {
    match kind
    case EnrichDefinition =>
      var meaning := StringAt(parsed, "definition");
      if meaning == "" then Rewrite else AddDefinition(meaning, true)
    case SuggestExample =>
      var banjar := StringAt(parsed, "banjar_sentence");
      if banjar == "" then Rewrite else AddExample(banjar, StringAt(parsed, "indonesian_translation"), true)
    case SuggestRelated =>
      var related := StringAt(parsed, "related_word");
      if related == "" then Rewrite else Relate(related)
    case QualityCheck => Rewrite
  }

  /** mergeAIOutput, called for requests that target a word; without an extracted answer there is nothing to do. */
  function MergeAnswer(d: Dict, link: Link, r: A.Request, now: Time): Merged
  {
    if r.targetWord.None? || r.parsed.None? then Merged(d, None, link)
    else EditWord(d, link, r.targetWord.value, AiEditOf(r.kind, r.parsed.value), now)
  }

  // ---- over a good link, a merge on an existing word: exactly what it adds ----

  /** Sort orders are exactly 1..n, and the numbers fit their columns. */
  predicate Dense(ds: seq<Definition>)
  {
    forall i | 0 <= i < |ds| :: ds[i].sortOrder == i + 1 && Stored(ds[i]) == ds[i]
  }

  /** A word that can be read, with dense definitions and a homonym number that fits its column. */
  ghost predicate Sorted(d: Dict, w: Id)
  {
    Visible(d, w) && Dense(DefinitionsOf(d, w)) && Int16(d.words[w].homonym) == d.words[w].homonym
  }

  /** The definition an edit adds to a word, if any. */
  function AddedBy(ds: seq<Definition>, edit: Edit, id: Id, source: Source): seq<Definition>
  {
    if edit.AddDefinition? && |edit.meaning| <= MAX_MEANING_LENGTH then
      [Definition(id, edit.meaning, |ds| + 1, if edit.ai then AiGenerated else source, 0, 0)]
    else []
  }

  lemma FoundChildIds(d: Dict, w: Id)
    requires Valid(d) && Visible(d, w)
    ensures var word := Found(d, w).value;
      DistinctChildIds(word) && DrawnChildIds(d, word) && forall now :: OwnChildIds(d, word, now)
  {
    FoundRows(d.definitions, w, DefinitionBefore, d.words.Keys, d.nextId);
    FoundRows(d.examples, w, ExampleBefore, d.words.Keys, d.nextId);
  }

  /** The rows of a word, in any order, are its own and have distinct drawn ids. */
  lemma FoundRows<T>(rows: seq<Child<T>>, w: Id, before: (Child<T>, Child<T>) -> bool, words: set<Id>, next: Id)
    requires ValidRows(rows, words, next)
    ensures var own := OrderBy(RowsOf(rows, w), before);
      && DistinctIds(own)
      && (forall i | 0 <= i < |own| :: own[i].id < next && own[i] in rows && own[i].wordId == w)
      && NotForeign(rows, own, w)
  {
    var own := OrderBy(RowsOf(rows, w), before);
    RowsOfValid(rows, w, words, next);
    OrderByPermutes(RowsOf(rows, w), before);
    forall i | 0 <= i < |own| ensures own[i] in RowsOf(rows, w) && own[i] in rows && own[i].id < next
      && own[i].wordId == w {
      assert own[i] in multiset(own);
    }
    PermutedIdsDistinct(RowsOf(rows, w), own);
    forall i, j | 0 <= i < |rows| && 0 <= j < |own| && rows[i].id == own[j].id ensures rows[i].wordId == w {
      assert own[j] in rows;
    }
  }

  lemma {:induction false} RowsOfValid<T>(rows: seq<Child<T>>, w: Id, words: set<Id>, next: Id)
    requires ValidRows(rows, words, next)
    ensures ValidRows(RowsOf(rows, w), words, next) && forall i | 0 <= i < |RowsOf(rows, w)| ::
      RowsOf(rows, w)[i] in rows
  {
    if rows != [] {
      RowsOfValid(rows[1..], w, words, next);
      var rest := RowsOf(rows[1..], w);
      forall i | 0 <= i < |rest| ensures rest[i].id != rows[0].id {
        assert rest[i] in rows[1..];
      }
    }
  }

  lemma PermutedIdsDistinct<T>(a: seq<Child<T>>, b: seq<Child<T>>)
    requires multiset(a) == multiset(b) && DistinctIds(a)
    ensures DistinctIds(b)
  {
    forall i, j | 0 <= i < j < |b| ensures b[i].id != b[j].id {
      if b[i].id == b[j].id {
        assert b[i] in multiset(b) && b[j] in multiset(b);
        assert b[i] in a && b[j] in a;
        assert b[i] == b[j];
        assert b == b[..i] + [b[i]] + b[i + 1..j] + [b[j]] + b[j + 1..];
        assert multiset(b)[b[i]] >= 2;
        OnceInDistinct(a, b[i]);
      }
    }
  }

  lemma {:induction false} OnceInDistinct<T>(a: seq<Child<T>>, x: Child<T>)
    requires DistinctIds(a)
    ensures multiset(a)[x] <= 1
  {
    if a != [] {
      assert a == [a[0]] + a[1..];
      OnceInDistinct(a[1..], x);
      forall k | 0 <= k < |a[1..]| ensures a[1..][k] != a[0] {
        assert a[k + 1].id != a[0].id;
      }
    }
  }

  lemma DrawnValid(d: Dict, edit: Edit)
    requires Valid(d)
    ensures Valid(Drawn(d, edit))
  {
    ValidRowsMonotone(d.definitions, d.words.Keys, d.nextId, d.words.Keys, d.nextId + 1);
    ValidRowsMonotone(d.examples, d.words.Keys, d.nextId, d.words.Keys, d.nextId + 1);
    ValidWordsMonotone(d.words, d.nextId, d.nextId + 1);
  }

  /** Adding children under the next id to a word keeps its child ids its own. */
  lemma GrownWord(d: Dict, d1: Dict, was: Word, w: Word, defs: seq<Definition>, exs: seq<Example>, now: Time)
    requires Valid(d) && DistinctChildIds(was) && DrawnChildIds(d, was) && OwnChildIds(d, was, now)
    requires w == Word(was.id, w.columns, was.definitions + defs, was.examples + exs)
    requires |defs| <= 1 && |exs| <= 1 && d.nextId + |defs| + |exs| <= d1.nextId
    requires (forall x | x in defs :: x.id == d.nextId) && forall x | x in exs :: x.id == d.nextId
    requires d1.definitions == d.definitions && d1.examples == d.examples
    ensures DistinctChildIds(w) && DrawnChildIds(d1, w) && OwnChildIds(d1, w, now)
  {
    GrownIdsOwn(d.definitions, DefinitionRows(was.definitions, w.id, now), DefinitionRows(w.definitions, w.id, now),
                w.id, d.words.Keys, d.nextId);
    GrownIdsOwn(d.examples, ExampleRows(was.examples, w.id, now), ExampleRows(w.examples, w.id, now),
                w.id, d.words.Keys, d.nextId);
  }

  lemma EditedWord(d: Dict, target: Id, edit: Edit, now: Time)
    requires Valid(d) && Visible(d, target) && Apply(Found(d, target).value, edit, d.nextId, now).Ok?
    ensures var w, d1 := Apply(Found(d, target).value, edit, d.nextId, now).value, Drawn(d, edit);
      && w.id == target && Valid(d1)
      && DistinctChildIds(w) && DrawnChildIds(d1, w) && OwnChildIds(d1, w, now)
      && w.definitions == DefinitionsOf(d, target)
        + AddedBy(DefinitionsOf(d, target), edit, d.nextId, d.words[target].source)
  {
    FoundChildIds(d, target);
    DrawnValid(d, edit);
    var was := Found(d, target).value;
    var w := Apply(was, edit, d.nextId, now).value;
    ApplyShape(was, edit, d.nextId, now);
    GrownWord(d, Drawn(d, edit), was, w, AddedBy(was.definitions, edit, d.nextId, was.columns.source),
              ExamplesAddedBy(edit, d.nextId, was.columns.source), now);
  }

  function ExamplesAddedBy(edit: Edit, id: Id, source: Source): seq<Example>
  {
    if edit.AddExample? then [Example(id, edit.banjar, edit.indonesian, if edit.ai then AiGenerated else source)]
      else []
  }

  lemma ApplyShape(was: Word, edit: Edit, id: Id, now: Time)
    requires Apply(was, edit, id, now).Ok?
    ensures var w := Apply(was, edit, id, now).value;
      w == Word(was.id, w.columns, was.definitions + AddedBy(was.definitions, edit, id, was.columns.source),
                was.examples + ExamplesAddedBy(edit, id, was.columns.source))
  {
  }

  lemma GrownIdsOwn<T>(rows: seq<Child<T>>, prior: seq<Child<T>>, incoming: seq<Child<T>>, w: Id, words: set<Id>,
                       next: Id)
    requires ValidRows(rows, words, next) && NotForeign(rows, prior, w) && |prior| <= |incoming|
    requires forall i | 0 <= i < |incoming| :: if i < |prior| then incoming[i] == prior[i] else incoming[i].id == next
    ensures NotForeign(rows, incoming, w)
  {
  }

  lemma {:induction false} GoodLinkUpserts<T>(rows: seq<Child<T>>, incoming: seq<Child<T>>, overwrite: (T, T) -> T)
    ensures var r := UpsertAll(rows, incoming, overwrite, Up); r.ok && r.link == Up
    decreases |incoming|
  {
    if incoming != [] {
      GoodLinkUpserts(Upsert(rows, incoming[0], overwrite), incoming[1..], overwrite);
    }
  }

  /** Over a good link Update fails only at its first statement, and then changes nothing. */
  lemma GoodLinkUpdate(d: Dict, w: Word, now: Time)
    ensures var done := Updated(d, Up, w, now);
      && done.link == Up
      && (done.error.None? <==> UpdateWord(d.words, w.id, w.columns, now).Ok?)
      && (done.error.Some? ==> done.d == d)
  {
    var defs, exs := DefinitionRows(w.definitions, w.id, now), ExampleRows(w.examples, w.id, now);
    GoodLinkUpserts(Without(d.definitions, w.id), defs, OverwriteDefinition);
    GoodLinkUpserts(Without(d.examples, w.id), exs, OverwriteExample);
  }

  /** Storing a word under the key it already has meets no constraint. */
  lemma SameKeyStores(d: Dict, target: Id, c: Columns, now: Time)
    requires Valid(d) && Visible(d, target) && Int16(d.words[target].homonym) == d.words[target].homonym
    requires var was := ToColumns(d.words[target]);
      c.banjar == was.banjar && c.homonym == was.homonym && c.isRoot == was.isRoot && c.root == was.root
    ensures UpdateWord(d.words, target, c, now).Ok?
  {
    var row := WriteColumns(d.words[target], c, now);
    assert KeyOf(row) == KeyOf(d.words[target]);
    forall x | x in d.words && x != target ensures KeyOf(d.words[x]) != KeyOf(row) {
    }
  }

  /** Dense definitions, stored, read back as they are. */
  lemma DenseReadsBack(rows: seq<Child<DefinitionBody>>, ds: seq<Definition>, w: Id, now: Time)
    requires Dense(ds) && rows == DefinitionRows(ds, w, now)
    ensures ToDefinitions(OrderBy(rows, DefinitionBefore)) == ds
  {
    OrderByKeepsOrder(rows, DefinitionBefore);
    assert forall i | 0 <= i < |ds| :: ToDefinition(rows[i]) == Stored(ds[i]);
  }

  /** What EditAdds says of one edit and the dictionary after it. */
  ghost predicate Grew(d: Dict, d': Dict, target: Id, edit: Edit)
    requires Visible(d, target)
  {
    && Valid(d') && Sorted(d', target)
    && DefinitionsOf(d', target) ==
         DefinitionsOf(d, target) + AddedBy(DefinitionsOf(d, target), edit, d.nextId, d.words[target].source)
  }

  /** A word that is stored is stored whole. */
  lemma StoredEditGrew(d: Dict, target: Id, edit: Edit, now: Time)
    requires Valid(d) && Sorted(d, target)
    requires |DefinitionsOf(d, target)| + |AddedBy(DefinitionsOf(d, target), edit, d.nextId, Seeded)| <= 0x7FFF
    requires Apply(Found(d, target).value, edit, d.nextId, now).Ok?
    requires Updated(Drawn(d, edit), Up, Apply(Found(d, target).value, edit, d.nextId, now).value, now).error.None?
    ensures Grew(d, Updated(Drawn(d, edit), Up, Apply(Found(d, target).value, edit, d.nextId, now).value, now).d,
                 target, edit)
  {
    hide Updated, Valid, DrawnChildIds, OwnChildIds, DistinctChildIds;
    var w, d1 := Apply(Found(d, target).value, edit, d.nextId, now).value, Drawn(d, edit);
    EditedWord(d, target, edit, now);
    UpdateValid(d1, Up, w, now);
    UpdateStores(d1, Up, w, now);
    DenseReadsBack(RowsOf(Updated(d1, Up, w, now).d.definitions, target), w.definitions, target, now);
  }

  /** A word that is refused by a constraint is left as it was; an added definition meets none. */
  lemma RefusedEditGrew(d: Dict, target: Id, edit: Edit, now: Time)
    requires Valid(d) && Sorted(d, target)
    requires Apply(Found(d, target).value, edit, d.nextId, now).Ok?
    requires Updated(Drawn(d, edit), Up, Apply(Found(d, target).value, edit, d.nextId, now).value, now).error.Some?
    ensures Grew(d, Updated(Drawn(d, edit), Up, Apply(Found(d, target).value, edit, d.nextId, now).value, now).d,
                 target, edit)
  {
    var w, d1 := Apply(Found(d, target).value, edit, d.nextId, now).value, Drawn(d, edit);
    DrawnValid(d, edit);
    GoodLinkUpdate(d1, w, now);
    if edit.AddDefinition? {
      SameKeyStores(d1, target, w.columns, now);
    }
  }

  /** One merge on the word itself: its definitions stay, in order, and the edit's definition comes after them. */
  lemma {:induction false} EditAdds(d: Dict, target: Id, edit: Edit, now: Time)
    requires Valid(d) && Sorted(d, target)
    requires |DefinitionsOf(d, target)| + |AddedBy(DefinitionsOf(d, target), edit, d.nextId, Seeded)| <= 0x7FFF
    ensures var m := EditWord(d, Up, target, edit, now); m.link == Up && Grew(d, m.d, target, edit)
  {
    var edited := Apply(Found(d, target).value, edit, d.nextId, now);
    if edited.Ok? {
      GoodLinkUpdate(Drawn(d, edit), edited.value, now);
      if Updated(Drawn(d, edit), Up, edited.value, now).error.None? {
        StoredEditGrew(d, target, edit, now);
      } else {
        RefusedEditGrew(d, target, edit, now);
      }
    }
  }

  /**
   * The sort order is a 16-bit column: the word stays sorted exactly as long as its definitions can be numbered in
   * it.
   */
  lemma SortedIff(d: Dict, target: Id, edit: Edit, now: Time)
    requires Valid(d) && Sorted(d, target)
    ensures Sorted(EditWord(d, Up, target, edit, now).d, target)
      <==> |DefinitionsOf(d, target)| + |AddedBy(DefinitionsOf(d, target), edit, d.nextId, Seeded)| <= 0x7FFF
  {
    var ds := DefinitionsOf(d, target);
    var n := |ds|;
    if n + |AddedBy(ds, edit, d.nextId, Seeded)| <= 0x7FFF {
      EditAdds(d, target, edit, now);
    } else {
      assert n > 0 ==> Stored(ds[n - 1]) == ds[n - 1];
      assert n == 0x7FFF && edit.AddDefinition? && |edit.meaning| <= MAX_MEANING_LENGTH;
      OverfullEdit(d, target, edit, now);
    }
  }

  lemma OverfullEdit(d: Dict, target: Id, edit: Edit, now: Time)
    requires Valid(d) && Sorted(d, target) && |DefinitionsOf(d, target)| == 0x7FFF
    requires edit.AddDefinition? && |edit.meaning| <= MAX_MEANING_LENGTH
    ensures !Sorted(EditWord(d, Up, target, edit, now).d, target)
  {
    hide Updated, Valid, DrawnChildIds, OwnChildIds, DistinctChildIds;
    var w, d1 := Apply(Found(d, target).value, edit, d.nextId, now).value, Drawn(d, edit);
    EditedWord(d, target, edit, now);
    GoodLinkUpdate(d1, w, now);
    SameKeyStores(d1, target, w.columns, now);
    UpdateThenFind(d1, Up, w, now);
    WrappedNotDense(w.definitions, DefinitionsOf(Updated(d1, Up, w, now).d, target));
  }

  lemma WrappedNotDense(ds: seq<Definition>, after: seq<Definition>)
    requires |ds| == 0x8000 && ds[0x7FFF].sortOrder == 0x8000
    requires multiset(after) == multiset(StoredAll(ds))
    ensures !Dense(after)
  {
    var wrapped := StoredAll(ds)[0x7FFF];
    assert wrapped in multiset(StoredAll(ds));
    assert wrapped in after;
    assert wrapped.sortOrder == -0x8000;
  }

  /** The word w, stored over the edited one, reads back with its columns and its examples. */
  lemma UpdatedThenFind(d: Dict, d1: Dict, link: Link, target: Id, w: Word, now: Time)
    requires w.id == target && OwnChildIds(d1, w, now) && DistinctChildIds(w) && d1.words == d.words
    requires Updated(d1, link, w, now).error.None?
    ensures var found := Found(Updated(d1, link, w, now).d, target);
      && target in d.words && found.Some?
      && found.value.columns == StoredColumns(d.words[target], w.columns, now)
      && multiset(found.value.examples) == multiset(w.examples)
  {
    UpdateThenFind(d1, link, w, now);
  }

  /** What an edit that is stored makes of the rest of the word: its columns, and one more example if it carries one. */
  lemma {:induction false} EditThenFind(d: Dict, link: Link, target: Id, edit: Edit, now: Time)
    requires Valid(d) && Visible(d, target) && EditWord(d, link, target, edit, now).error.None?
    ensures var was, found := Found(d, target).value, Found(EditWord(d, link, target, edit, now).d, target);
      var edited := Apply(was, edit, d.nextId, now);
      && edited.Ok? && found.Some?
      && found.value.columns == StoredColumns(d.words[target], edited.value.columns, now)
      && multiset(found.value.examples) == multiset(was.examples + ExamplesAddedBy(edit, d.nextId, was.columns.source))
  {
    hide Updated, Valid, DrawnChildIds, OwnChildIds, DistinctChildIds;
    var was := Found(d, target).value;
    EditedWord(d, target, edit, now);
    ApplyShape(was, edit, d.nextId, now);
    var link1 := EditLink(d, FoundOver(d, link, target).link, edit);
    UpdatedThenFind(d, Drawn(d, edit), link1, target, Apply(was, edit, d.nextId, now).value, now);
  }

  // ---- merges elsewhere ----

  /** Whatever goes wrong, an edit of one word keeps the schema's constraints and leaves every other word alone. */
  lemma {:induction false} EditLeavesOthers(d: Dict, link: Link, target: Id, edit: Edit, now: Time, x: Id)
    requires Valid(d) && x != target
    ensures var m := EditWord(d, link, target, edit, now); Valid(m.d) && SameWord(d, m.d, x)
  {
    var lookup := FoundOver(d, link, target);
    if lookup.found.Ok? && Apply(lookup.found.value, edit, d.nextId, now).Ok? {
      var w, d1 := Apply(lookup.found.value, edit, d.nextId, now).value, Drawn(d, edit);
      EditedWord(d, target, edit, now);
      var link1 := EditLink(d, lookup.link, edit);
      UpdateValid(d1, link1, w, now);
      UpdateLeavesOthers(d1, link1, w, now, x);
    }
  }

  /** The children of a draft hold distinct ids drawn since `first`. */
  predicate DrawnSince(draft: Draft, first: Id)
  {
    && first <= draft.next
    && (forall i | 0 <= i < |draft.w.definitions| :: first <= draft.w.definitions[i].id < draft.next)
    && (forall i | 0 <= i < |draft.w.examples| :: first <= draft.w.examples[i].id < draft.next)
    && (forall i, j | 0 <= i < j < |draft.w.definitions| :: draft.w.definitions[i].id != draft.w.definitions[j].id)
    && (forall i, j | 0 <= i < j < |draft.w.examples| :: draft.w.examples[i].id != draft.w.examples[j].id)
  }

  lemma {:induction false} DraftDefinitionsDraw(start: Draft, items: seq<Json>, n: nat, now: Time, first: Id)
    requires n <= |items| && DrawnSince(start, first)
    ensures var r := DraftDefinitions(start, items, n, now);
      r.w.id == start.w.id && DrawnSince(r, first) && start.next <= r.next
  {
    if n > 0 {
      DraftDefinitionsDraw(start, items, n - 1, now, first);
    }
  }

  lemma {:induction false} DraftExamplesDraw(start: Draft, items: seq<Json>, n: nat, now: Time, first: Id)
    requires n <= |items| && DrawnSince(start, first)
    ensures var r := DraftExamples(start, items, n, now);
      r.w.id == start.w.id && r.w.definitions == start.w.definitions && DrawnSince(r, first) && start.next <= r.next
  {
    if n > 0 {
      DraftExamplesDraw(start, items, n - 1, now, first);
    }
  }

  lemma DraftWordDraws(payload: map<string, Json>, wordClass: WordClass, contributor: Id, next: Id, now: Time)
    ensures var r := DraftWord(payload, wordClass, contributor, next, now);
      r.w.id == next && next < r.next && DrawnSince(r, next + 1)
  {
    var defs, exs := ItemsAt(payload, "definitions"), ItemsAt(payload, "examples");
    var start := BareDraft(payload, wordClass, contributor, next, now);
    DraftDefinitionsDraw(start, defs, |defs|, now, next + 1);
    DraftExamplesDraw(DraftDefinitions(start, defs, |defs|, now), exs, |exs|, now, next + 1);
  }

  lemma AdvancedValid(d: Dict, next: Id)
    requires Valid(d) && d.nextId <= next
    ensures Valid(d.(nextId := next))
  {
    ValidRowsMonotone(d.definitions, d.words.Keys, d.nextId, d.words.Keys, next);
    ValidRowsMonotone(d.examples, d.words.Keys, d.nextId, d.words.Keys, next);
    ValidWordsMonotone(d.words, d.nextId, next);
  }

  lemma DraftIsOwn(d: Dict, draft: Draft, now: Time)
    requires Valid(d) && draft.w.id == d.nextId && DrawnSince(draft, d.nextId + 1)
    ensures var d1 := d.(nextId := draft.next);
      OwnChildIds(d1, draft.w, now) && DrawnChildIds(d1, draft.w) && DistinctChildIds(draft.w)
  {
  }

  lemma {:induction false} NewWordLeavesOthers(d: Dict, link: Link, c: C.Contribution, now: Time, x: Id)
    requires Valid(d) && x in d.words
    ensures var m := MergeNewWord(d, link, c, now); Valid(m.d) && SameWord(d, m.d, x)
  {
    var wordClass := WordClassCode(StringAt(c.payload, "word_class"));
    if wordClass.Some? {
      var draft := DraftWord(c.payload, wordClass.value, c.contributor, d.nextId, now);
      DraftWordDraws(c.payload, wordClass.value, c.contributor, d.nextId, now);
      var d1 := d.(nextId := draft.next);
      AdvancedValid(d, draft.next);
      DraftIsOwn(d, draft, now);
      CreateValid(d1, link, draft.w, now);
      CreateLeavesOthers(d1, link, draft.w, now, x);
    }
  }

  lemma SortedFits(d: Dict, x: Id)
    requires Sorted(d, x)
    ensures |DefinitionsOf(d, x)| <= 0x7FFF
  {
    var ds := DefinitionsOf(d, x);
    assert |ds| > 0 ==> Stored(ds[|ds| - 1]) == ds[|ds| - 1];
  }

  // ---- serial runs of merges ----

  /** An approval that reaches the dictionary: of a contribution, or of an AI request that targets a word. */
  datatype Approval = OfContribution(c: C.Contribution, now: Time) | OfRequest(r: A.Request, now: Time)

  function Merge(d: Dict, link: Link, a: Approval): Merged
  {
    match a
    case OfContribution(c, now) => MergeContribution(d, link, c, now)
    case OfRequest(r, now) => MergeAnswer(d, link, r, now)
  }

  function RunMerges(d: Dict, approvals: seq<Approval>): Dict
    decreases |approvals|
  {
    if approvals == [] then d else RunMerges(Merge(d, Up, approvals[0]).d, approvals[1..])
  }

  /** The meaning an approval carries to the word w, if it is there, not empty and not too long. */
  function Carried(a: Approval, w: Id): seq<string>
  {
    var meaning :=
      match a {
        case OfContribution(c, _) => if c.kind.NewDefinition? && c.target == Some(w)
          then StringAt(c.payload, "meaning") else ""
        case OfRequest(r, _) =>
          if r.kind.EnrichDefinition? && r.targetWord == Some(w) && r.parsed.Some?
            then StringAt(r.parsed.value, "definition") else ""
      };
    if meaning == "" || |meaning| > MAX_MEANING_LENGTH then [] else [meaning]
  }

  function CarriedAll(approvals: seq<Approval>, w: Id): seq<string>
  {
    if approvals == [] then [] else Carried(approvals[0], w) + CarriedAll(approvals[1..], w)
  }

  /** d' has the definitions d has of w, unchanged and first, and after them one for each of the meanings. */
  ghost predicate Appended(d: Dict, d': Dict, w: Id, meanings: seq<string>)
  {
    var before, after := DefinitionsOf(d, w), DefinitionsOf(d', w);
    && before <= after && |after| == |before| + |meanings|
    && forall k | 0 <= k < |meanings| :: after[|before| + k].meaning == meanings[k]
  }

  lemma SameWordSorted(d: Dict, d': Dict, w: Id)
    requires Sorted(d, w) && SameWord(d, d', w)
    ensures Sorted(d', w) && DefinitionsOf(d', w) == DefinitionsOf(d, w)
  {
  }

  lemma OneMerge(d: Dict, a: Approval, w: Id)
    requires Valid(d) && Sorted(d, w) && |DefinitionsOf(d, w)| + |Carried(a, w)| <= 0x7FFF
    ensures var d' := Merge(d, Up, a).d; Valid(d') && Sorted(d', w) && Appended(d, d', w, Carried(a, w))
  {
    hide EditWord, Valid;
    var d' := Merge(d, Up, a).d;
    match a
    case OfContribution(c, now) =>
      if c.kind.NewWord? {
        NewWordLeavesOthers(d, Up, c, now, w);
        SameWordSorted(d, d', w);
      } else if c.target.Some? && EditOf(c).Some? {
        OneEdit(d, c.target.value, EditOf(c).value, now, w);
      }
    case OfRequest(r, now) =>
      if r.targetWord.Some? && r.parsed.Some? {
        OneEdit(d, r.targetWord.value, AiEditOf(r.kind, r.parsed.value), now, w);
      }
  }

  /** The meaning an edit of the word `target` adds to the word w. */
  function EditCarries(target: Id, edit: Edit, w: Id): seq<string>
  {
    if target == w && edit.AddDefinition? && |edit.meaning| <= MAX_MEANING_LENGTH then [edit.meaning] else []
  }

  lemma OneEdit(d: Dict, target: Id, edit: Edit, now: Time, w: Id)
    requires Valid(d) && Sorted(d, w) && |DefinitionsOf(d, w)| + |EditCarries(target, edit, w)| <= 0x7FFF
    ensures var d' := EditWord(d, Up, target, edit, now).d;
      Valid(d') && Sorted(d', w) && Appended(d, d', w, EditCarries(target, edit, w))
  {
    if target == w {
      EditAdds(d, w, edit, now);
      GrewAppended(d, EditWord(d, Up, target, edit, now).d, w, edit);
    } else {
      EditLeavesOthers(d, Up, target, edit, now, w);
      SameWordSorted(d, EditWord(d, Up, target, edit, now).d, w);
    }
  }

  lemma GrewAppended(d: Dict, d': Dict, w: Id, edit: Edit)
    requires Visible(d, w)
    requires DefinitionsOf(d', w)
      == DefinitionsOf(d, w) + AddedBy(DefinitionsOf(d, w), edit, d.nextId, d.words[w].source)
    ensures Appended(d, d', w, EditCarries(w, edit, w))
  {
    hide DefinitionsOf;
  }

  lemma AppendedTwice(d: Dict, d1: Dict, d2: Dict, w: Id, first: seq<string>, rest: seq<string>)
    requires Appended(d, d1, w, first) && Appended(d1, d2, w, rest)
    ensures Appended(d, d2, w, first + rest)
  {
    var before, mid, after := DefinitionsOf(d, w), DefinitionsOf(d1, w), DefinitionsOf(d2, w);
    forall k | 0 <= k < |first + rest| ensures after[|before| + k].meaning == (first + rest)[k] {
      if k < |first| {
        assert after[|before| + k] == mid[|before| + k];
      } else {
        assert after[|mid| + (k - |first|)].meaning == rest[k - |first|];
      }
    }
  }

  /**
   * Any serial run of merges, of contributions and of AI answers, of any kinds and on any words: a word numbered 1..n
   * is numbered 1..m afterwards, its first n definitions are the old ones with their ids, meanings, sources and
   * votes, and the others are one for each approval that carried a usable meaning to it, in the order of the
   * approvals.
   */
  lemma {:induction false} MergesConserve(d: Dict, approvals: seq<Approval>, w: Id)
    requires Valid(d) && Sorted(d, w) && |DefinitionsOf(d, w)| + |CarriedAll(approvals, w)| <= 0x7FFF
    ensures var d' := RunMerges(d, approvals);
      Valid(d') && Sorted(d', w) && Appended(d, d', w, CarriedAll(approvals, w))
    decreases |approvals|
  {
    if approvals != [] {
      var d1 := Merge(d, Up, approvals[0]).d;
      OneMerge(d, approvals[0], w);
      MergesConserve(d1, approvals[1..], w);
      AppendedTwice(d, d1, RunMerges(d, approvals), w, Carried(approvals[0], w), CarriedAll(approvals[1..], w));
    }
  }

  /** An approval that carries a usable meaning to a sorted word is never refused. */
  lemma CarriedMerges(d: Dict, a: Approval, w: Id)
    requires Valid(d) && Sorted(d, w) && Carried(a, w) != []
    ensures Merge(d, Up, a).error.None?
  {
    match a
    case OfContribution(c, now) => DefinitionMerges(d, w, EditOf(c).value, now);
    case OfRequest(r, now) => DefinitionMerges(d, w, AiEditOf(r.kind, r.parsed.value), now);
  }

  lemma DefinitionMerges(d: Dict, target: Id, edit: Edit, now: Time)
    requires Valid(d) && Sorted(d, target) && edit.AddDefinition? && |edit.meaning| <= MAX_MEANING_LENGTH
    ensures EditWord(d, Up, target, edit, now).error.None?
  {
    var w, d1 := Apply(Found(d, target).value, edit, d.nextId, now).value, Drawn(d, edit);
    DrawnValid(d, edit);
    GoodLinkUpdate(d1, w, now);
    SameKeyStores(d1, target, w.columns, now);
  }

  // ---- what a new word starts with ----

  predicate Usable(item: Json)
  {
    FieldOf(item, "meaning") != "" && |FieldOf(item, "meaning")| <= MAX_MEANING_LENGTH
  }

  /** Among the first n items no usable one follows an unusable one. */
  ghost predicate NoGap(items: seq<Json>, n: nat)
    requires n <= |items|
  {
    forall i, j | 0 <= i < j < n && Usable(items[j]) :: Usable(items[i])
  }

  predicate Numbered(ds: seq<Definition>)
  {
    forall i | 0 <= i < |ds| :: ds[i].sortOrder == i + 1
  }

  predicate Increasing(ds: seq<Definition>, most: nat)
  {
    forall i | 0 <= i < |ds| ::
      && (i > 0 ==> ds[i - 1].sortOrder < ds[i].sortOrder)
      && 0 < ds[i].sortOrder <= most && ds[i].upvotes == 0 && ds[i].downvotes == 0
  }

  /**
   * Drafted from the first n items: as many as there are items exactly if all are usable, numbered 1..m exactly if
   * there is no gap.
   */
  ghost predicate Drafted(ds: seq<Definition>, items: seq<Json>, n: nat)
    requires n <= |items|
  {
    && Increasing(ds, n) && |ds| <= n
    && (|ds| == n <==> forall i | 0 <= i < n :: Usable(items[i]))
    && (Numbered(ds) <==> NoGap(items, n))
  }

  lemma DraftedStep(was: seq<Definition>, x: Definition, items: seq<Json>, n: nat)
    requires 0 < n <= |items| && Drafted(was, items, n - 1)
    requires x.sortOrder == n && x.upvotes == 0 && x.downvotes == 0
    ensures Drafted(if Usable(items[n - 1]) then was + [x] else was, items, n)
  {
    NoGapStep(items, n);
    NumberedStep(was, x, n);
    assert (forall i | 0 <= i < n :: Usable(items[i]))
      <==> Usable(items[n - 1]) && forall i | 0 <= i < n - 1 :: Usable(items[i]);
  }

  lemma {:induction false} DraftNumbers(start: Draft, items: seq<Json>, n: nat, now: Time)
    requires n <= |items| && start.w.definitions == []
    ensures Drafted(DraftDefinitions(start, items, n, now).w.definitions, items, n)
  {
    if n > 0 {
      DraftNumbers(start, items, n - 1, now);
      var draft := DraftDefinitions(start, items, n - 1, now);
      var x := Definition(draft.next, FieldOf(items[n - 1], "meaning"), n, draft.w.columns.source, 0, 0);
      DraftedStep(draft.w.definitions, x, items, n);
    }
  }

  lemma NoGapStep(items: seq<Json>, n: nat)
    requires 0 < n <= |items|
    ensures NoGap(items, n)
      <==> if Usable(items[n - 1]) then forall i | 0 <= i < n - 1 :: Usable(items[i]) else NoGap(items, n - 1)
  {
  }

  lemma NumberedStep(was: seq<Definition>, x: Definition, n: nat)
    requires |was| < n && Increasing(was, n - 1) && x.sortOrder == n && x.upvotes == 0 && x.downvotes == 0
    ensures Increasing(was + [x], n) && (Numbered(was + [x]) <==> Numbered(was) && |was| == n - 1)
  {
    var ds := was + [x];
    assert ds[|was|] == x;
    assert forall i | 0 <= i < |was| :: ds[i] == was[i];
  }

  /** Definitions in strictly increasing order read back in that order. */
  lemma IncreasingReadsBack(rows: seq<Child<DefinitionBody>>, ds: seq<Definition>, w: Id, now: Time)
    requires Increasing(ds, 0x7FFF) && rows == DefinitionRows(ds, w, now)
    ensures ToDefinitions(OrderBy(rows, DefinitionBefore)) == ds
  {
    OrderByKeepsOrder(rows, DefinitionBefore);
    assert forall i | 0 <= i < |ds| :: ToDefinition(rows[i]) == Stored(ds[i]);
  }

  /**
   * A merged new word reads back with the drafted row, and the drafted definitions as the columns hold and order
   * them.
   */
  lemma NewWordReads(d: Dict, link: Link, c: C.Contribution, now: Time)
    requires Valid(d) && MergeNewWord(d, link, c, now).error.None?
    ensures var wordClass := WordClassCode(StringAt(c.payload, "word_class"));
      var d' := MergeNewWord(d, link, c, now).d;
      && wordClass.Some?
      && var w := DraftWord(c.payload, wordClass.value, c.contributor, d.nextId, now).w;
      && d.nextId in d'.words && d'.words[d.nextId] == NewRow(w.columns)
      && DefinitionsOf(d', d.nextId)
        == ToDefinitions(OrderBy(DefinitionRows(w.definitions, d.nextId, now), DefinitionBefore))
      && (|ItemsAt(c.payload, "definitions")| <= 0x7FFF ==> DefinitionsOf(d', d.nextId) == w.definitions)
  {
    var wordClass := WordClassCode(StringAt(c.payload, "word_class")).value;
    var draft := DraftWord(c.payload, wordClass, c.contributor, d.nextId, now);
    DraftWordDraws(c.payload, wordClass, c.contributor, d.nextId, now);
    AdvancedValid(d, draft.next);
    DraftIsOwn(d, draft, now);
    CreateStores(d.(nextId := draft.next), link, draft.w, now);
    DraftWordNumbers(c.payload, wordClass, c.contributor, d.nextId, now);
    if |ItemsAt(c.payload, "definitions")| <= 0x7FFF {
      IncreasingReadsBack(DefinitionRows(draft.w.definitions, d.nextId, now), draft.w.definitions, d.nextId, now);
    }
  }

  function UsableCount(items: seq<Json>, n: nat): nat
    requires n <= |items|
  {
    if n == 0 then 0 else UsableCount(items, n - 1) + if Usable(items[n - 1]) then 1 else 0
  }

  /** There is an item in the k-th place, counted from one, and it is usable. */
  predicate UsableAt(items: seq<Json>, k: int)
  {
    1 <= k <= |items| && Usable(items[k - 1])
  }

  /** Some usable item's place, cut to 16 bits, is k. */
  ghost predicate Provided(items: seq<Json>, k: int)
  {
    exists i | UsableAt(items, i) :: Int16(i) == k
  }

  /** The places of the usable items, cut to 16 bits, are 1..m. */
  ghost predicate FillsUp(items: seq<Json>)
  {
    forall k | 1 <= k <= UsableCount(items, |items|) :: Provided(items, k)
  }

  /**
   * A new word starts out sorted exactly when the places of its usable definitions, cut to 16 bits, are 1..m; for
   * lists that 16 bits can number, exactly when no usable definition follows an unusable one.
   */
  lemma NewWordSortedIff(d: Dict, link: Link, c: C.Contribution, now: Time)
    requires Valid(d) && MergeNewWord(d, link, c, now).error.None?
    ensures var items := ItemsAt(c.payload, "definitions");
      && (Sorted(MergeNewWord(d, link, c, now).d, d.nextId) <==> FillsUp(items))
      && (|items| <= 0x7FFF ==> (FillsUp(items) <==> NoGap(items, |items|)))
  {
    hide MergeNewWord, Valid, DraftWord, FillsUp;
    NewWordReads(d, link, c, now);
    var wordClass := WordClassCode(StringAt(c.payload, "word_class")).value;
    var items, ds := ItemsAt(c.payload, "definitions"),
        DraftWord(c.payload, wordClass, c.contributor, d.nextId, now).w.definitions;
    DraftWordNumbers(c.payload, wordClass, c.contributor, d.nextId, now);
    DraftWordPlaces(c.payload, wordClass, c.contributor, d.nextId, now);
    DenseIff(ds, d.nextId, now, |items|);
    FillsUpIff(ds, items);
  }

  /** Each of 1..|s| is in s. */
  ghost predicate Covers(s: seq<int>, m: nat)
  {
    forall k | 1 <= k <= m :: k in s
  }

  lemma {:induction false} CoverIsLong(s: seq<int>, m: nat)
    requires Covers(s, m)
    ensures m <= |s|
    decreases m
  {
    if m > 0 {
      assert m in s;
      var p :| 0 <= p < |s| && s[p] == m;
      var rest := Removed(s, p);
      forall k | 1 <= k <= m - 1 ensures k in rest {
        assert k in s;
        var q :| 0 <= q < |s| && s[q] == k;
        assert rest[if q < p then q else q - 1] == k;
      }
      CoverIsLong(rest, m - 1);
    }
  }

  ghost predicate Rising(s: seq<int>)
  {
    forall i, j | 0 <= i < j < |s| :: s[i] <= s[j]
  }

  /** A rising sequence that covers 1..m with m numbers is 1..m. */
  lemma {:induction false} RisingCover(s: seq<int>)
    requires Rising(s) && Covers(s, |s|)
    ensures forall i | 0 <= i < |s| :: s[i] == i + 1
    decreases |s|
  {
    if s != [] {
      var m := |s|;
      var front := s[..m - 1];
      assert m in s;
      if s[m - 1] > m {
        forall k | 1 <= k <= m ensures k in front {
          assert k in s;
          var q :| 0 <= q < m && s[q] == k;
          assert front[q] == k;
        }
        CoverIsLong(front, m);
      } else {
        forall k | 1 <= k <= m - 1 ensures k in front {
          assert k in s;
          var q :| 0 <= q < m && s[q] == k;
          assert front[q] == k;
        }
        RisingCover(front);
        assert forall i | 0 <= i < m - 1 :: s[i] == front[i];
      }
    }
  }

  function Orders(ds: seq<Definition>): (r: seq<int>)
    ensures |r| == |ds| && forall i | 0 <= i < |ds| :: r[i] == ds[i].sortOrder
  {
    seq(|ds|, i requires 0 <= i < |ds| => ds[i].sortOrder)
  }

  lemma {:induction false} OrderedRises(rows: seq<Child<DefinitionBody>>, i: nat, j: nat)
    requires Ordered(rows, DefinitionBefore) && i <= j < |rows|
    ensures rows[i].body.sortOrder <= rows[j].body.sortOrder
    decreases j
  {
    if i < j {
      OrderedRises(rows, i, j - 1);
    }
  }

  /** Definitions without votes are dense, once stored, exactly when their sort orders, cut to 16 bits, cover 1..m. */
  lemma DenseIff(ds: seq<Definition>, w: Id, now: Time, most: nat)
    requires Increasing(ds, most)
    ensures Dense(ToDefinitions(OrderBy(DefinitionRows(ds, w, now), DefinitionBefore)))
      <==> Covers(Orders(StoredAll(ds)), |ds|)
  {
    var rows := DefinitionRows(ds, w, now);
    var sorted := OrderBy(rows, DefinitionBefore);
    var read := ToDefinitions(sorted);
    OrderByPermutes(rows, DefinitionBefore);
    OrderByOrders(rows, DefinitionBefore);
    SamePermutation(sorted, rows, read, StoredAll(ds), ToDefinition);
    SamePermutation(read, StoredAll(ds), Orders(read), Orders(StoredAll(ds)), (x: Definition) => x.sortOrder);
    SameMembers(Orders(read), Orders(StoredAll(ds)));
    SameMembers(read, StoredAll(ds));
    forall i | 0 <= i < |read| ensures Stored(read[i]) == read[i] {
      assert read[i] in StoredAll(ds);
    }
    forall i, j | 0 <= i < j < |read| ensures Orders(read)[i] <= Orders(read)[j] {
      OrderedRises(sorted, i, j);
    }
    if Covers(Orders(StoredAll(ds)), |ds|) {
      RisingCover(Orders(read));
    }
    if Dense(read) {
      forall k | 1 <= k <= |ds| ensures k in Orders(read) {
        assert Orders(read)[k - 1] == k;
      }
    }
  }

  lemma SameMembers<T>(a: seq<T>, b: seq<T>)
    requires multiset(a) == multiset(b)
    ensures |a| == |b| && forall x :: x in a <==> x in b
  {
    assert |multiset(a)| == |multiset(b)|;
    forall x ensures x in a <==> x in b {
      assert x in multiset(a) <==> x in multiset(b);
    }
  }

  ghost predicate HasOrder(ds: seq<Definition>, k: int)
  {
    exists j | 0 <= j < |ds| :: ds[j].sortOrder == k
  }

  /** The sort orders of the drafted definitions are the places of the usable items. */
  ghost predicate AtPlaces(ds: seq<Definition>, items: seq<Json>, n: nat)
    requires n <= |items|
  {
    && |ds| == UsableCount(items, n)
    && (forall j | 0 <= j < |ds| :: UsableAt(items, ds[j].sortOrder) && ds[j].sortOrder <= n)
    && (forall k | UsableAt(items, k) && k <= n :: HasOrder(ds, k))
  }

  lemma AtPlacesStep(was: seq<Definition>, x: Definition, items: seq<Json>, n: nat)
    requires 0 < n <= |items| && AtPlaces(was, items, n - 1) && x.sortOrder == n
    ensures AtPlaces(if Usable(items[n - 1]) then was + [x] else was, items, n)
  {
    if Usable(items[n - 1]) {
      var ds := was + [x];
      assert ds[|was|] == x;
      forall k | UsableAt(items, k) && k <= n ensures HasOrder(ds, k) {
        if k < n {
          assert HasOrder(was, k);
          var j :| 0 <= j < |was| && was[j].sortOrder == k;
          assert ds[j].sortOrder == k;
        }
      }
    }
  }

  lemma {:induction false} DraftPlaces(start: Draft, items: seq<Json>, n: nat, now: Time)
    requires n <= |items| && start.w.definitions == []
    ensures AtPlaces(DraftDefinitions(start, items, n, now).w.definitions, items, n)
  {
    if n > 0 {
      DraftPlaces(start, items, n - 1, now);
      var draft := DraftDefinitions(start, items, n - 1, now);
      var x := Definition(draft.next, FieldOf(items[n - 1], "meaning"), n, draft.w.columns.source, 0, 0);
      AtPlacesStep(draft.w.definitions, x, items, n);
    }
  }

  lemma DraftWordPlaces(payload: map<string, Json>, wordClass: WordClass, contributor: Id, next: Id, now: Time)
    ensures var items := ItemsAt(payload, "definitions");
      AtPlaces(DraftWord(payload, wordClass, contributor, next, now).w.definitions, items, |items|)
  {
    var defs, exs := ItemsAt(payload, "definitions"), ItemsAt(payload, "examples");
    var start := BareDraft(payload, wordClass, contributor, next, now);
    DraftPlaces(start, defs, |defs|, now);
    DraftKeepsHomonym(start, defs, |defs|, exs, |exs|, now);
  }

  /** The numbers the drafted definitions are stored with are those the items provide. */
  lemma StoredIsProvided(ds: seq<Definition>, items: seq<Json>, k: int)
    requires AtPlaces(ds, items, |items|)
    ensures k in Orders(StoredAll(ds)) <==> Provided(items, k)
  {
    var orders := Orders(StoredAll(ds));
    if k in orders {
      var j :| 0 <= j < |orders| && orders[j] == k;
      assert UsableAt(items, ds[j].sortOrder) && Int16(ds[j].sortOrder) == k;
    }
    if i :| UsableAt(items, i) && Int16(i) == k {
      assert HasOrder(ds, i);
      var j :| 0 <= j < |ds| && ds[j].sortOrder == i;
      assert orders[j] == k;
    }
  }

  lemma FillsUpIff(ds: seq<Definition>, items: seq<Json>)
    requires Increasing(ds, |items|) && AtPlaces(ds, items, |items|)
    ensures FillsUp(items) <==> Covers(Orders(StoredAll(ds)), |ds|)
    ensures |items| <= 0x7FFF ==> (FillsUp(items) <==> Numbered(ds))
  {
    forall k ensures k in Orders(StoredAll(ds)) <==> Provided(items, k) {
      StoredIsProvided(ds, items, k);
    }
    if |items| <= 0x7FFF {
      CoversIsNumbered(ds);
    }
  }

  lemma CoversIsNumbered(ds: seq<Definition>)
    requires Increasing(ds, 0x7FFF)
    ensures Covers(Orders(StoredAll(ds)), |ds|) <==> Numbered(ds)
  {
    var orders := Orders(ds);
    assert forall i | 0 <= i < |ds| :: Stored(ds[i]) == ds[i];
    assert StoredAll(ds) == ds;
    IncreasingRises(ds, 0x7FFF);
    if Covers(orders, |ds|) {
      RisingCover(orders);
      assert forall i | 0 <= i < |ds| :: ds[i].sortOrder == orders[i];
    }
    if Numbered(ds) {
      forall k | 1 <= k <= |ds| ensures k in orders {
        assert orders[k - 1] == k;
      }
    }
  }

  lemma {:induction false} IncreasingRises(ds: seq<Definition>, most: nat)
    requires Increasing(ds, most)
    ensures Rising(Orders(ds))
    decreases |ds|
  {
    if ds != [] {
      var front := ds[..|ds| - 1];
      IncreasingRises(front, most);
      forall i | 0 <= i < |front| ensures ds[i].sortOrder <= ds[|ds| - 1].sortOrder {
        assert Orders(front)[i] <= Orders(front)[|front| - 1];
      }
      forall i, j | 0 <= i < j < |front| ensures Orders(ds)[i] <= Orders(ds)[j] {
        assert Orders(front)[i] <= Orders(front)[j];
      }
    }
  }

  lemma DraftWordNumbers(payload: map<string, Json>, wordClass: WordClass, contributor: Id, next: Id, now: Time)
    ensures var w := DraftWord(payload, wordClass, contributor, next, now).w;
      var items := ItemsAt(payload, "definitions");
      && Increasing(w.definitions, |items|) && (Numbered(w.definitions) <==> NoGap(items, |items|))
      && w.columns.homonym == 1
  {
    var defs, exs := ItemsAt(payload, "definitions"), ItemsAt(payload, "examples");
    var start := BareDraft(payload, wordClass, contributor, next, now);
    DraftNumbers(start, defs, |defs|, now);
    DraftKeepsHomonym(start, defs, |defs|, exs, |exs|, now);
  }

  lemma {:induction false} DraftKeepsHomonym(start: Draft, defs: seq<Json>, n: nat, exs: seq<Json>, m: nat, now: Time)
    requires n <= |defs| && m <= |exs|
    ensures var r := DraftExamples(DraftDefinitions(start, defs, n, now), exs, m, now);
      r.w.columns.homonym == start.w.columns.homonym
        && r.w.definitions == DraftDefinitions(start, defs, n, now).w.definitions
    decreases n, m
  {
    if m > 0 {
      DraftKeepsHomonym(start, defs, n, exs, m - 1, now);
    } else if n > 0 {
      DraftKeepsHomonym(start, defs, n - 1, exs, 0, now);
    }
  }

  // ---- a merge that races others on its word ----

  datatype Racer = Racer(edit: Edit, link: Link, now: Time)

  /** Other merges on a word, over any links. */
  function Raced(d: Dict, x: Id, others: seq<Racer>): Dict
    decreases |others|
  {
    if others == [] then d
      else Raced(EditWord(d, others[0].link, x, others[0].edit, others[0].now).d, x, others[1..])
  }

  lemma {:induction false} RacedLeavesOthers(d: Dict, x: Id, others: seq<Racer>, y: Id)
    requires Valid(d) && y != x
    ensures Valid(Raced(d, x, others)) && SameWord(d, Raced(d, x, others), y)
    decreases |others|
  {
    hide EditWord, Valid;
    if others != [] {
      EditLeavesOthers(d, others[0].link, x, others[0].edit, others[0].now, y);
      RacedLeavesOthers(EditWord(d, others[0].link, x, others[0].edit, others[0].now).d, x, others[1..], y);
    }
  }

  lemma {:induction false} RowIsItsWords<T>(rows: seq<Child<T>>, i: nat)
    requires i < |rows|
    ensures rows[i] in RowsOf(rows, rows[i].wordId)
  {
    if i > 0 {
      RowIsItsWords(rows[1..], i - 1);
    }
  }

  lemma {:induction false} ItsWordsRow<T>(rows: seq<Child<T>>, w: Id, r: Child<T>)
    requires r in RowsOf(rows, w)
    ensures r in rows
  {
    if rows[0] != r {
      ItsWordsRow(rows[1..], w, r);
    }
  }

  /** As long as no other word's rows change, nothing becomes foreign. */
  lemma StaysNotForeign<T>(rows: seq<Child<T>>, rows': seq<Child<T>>, own: seq<Child<T>>, w: Id)
    requires NotForeign(rows, own, w) && forall y | y != w :: RowsOf(rows, y) == RowsOf(rows', y)
    ensures NotForeign(rows', own, w)
  {
    forall i, j | 0 <= i < |rows'| && 0 <= j < |own| && rows'[i].id == own[j].id ensures rows'[i].wordId == w {
      if rows'[i].wordId != w {
        RowIsItsWords(rows', i);
        ItsWordsRow(rows, rows'[i].wordId, rows'[i]);
      }
    }
  }

  lemma StaysOwn(d: Dict, d': Dict, w: Word, now: Time)
    requires OwnChildIds(d, w, now) && forall y: Id | y != w.id :: SameWord(d, d', y)
    ensures OwnChildIds(d', w, now)
  {
    forall y: Id | y != w.id
      ensures RowsOf(d.definitions, y) == RowsOf(d'.definitions, y) && RowsOf(d.examples, y) == RowsOf(d'.examples, y) {
      assert SameWord(d, d', y);
    }
    StaysNotForeign(d.definitions, d'.definitions, DefinitionRows(w.definitions, w.id, now), w.id);
    StaysNotForeign(d.examples, d'.examples, ExampleRows(w.examples, w.id, now), w.id);
  }

  /** The definitions a word would have after a merge, as the word was when the merge loaded it. */
  function Intended(d: Dict, x: Id, edit: Edit): seq<Definition>
    requires Visible(d, x)
  {
    DefinitionsOf(d, x) + AddedBy(DefinitionsOf(d, x), edit, d.nextId, d.words[x].source)
  }

  lemma RacedWordStays(d: Dict, x: Id, edit: Edit, others: seq<Racer>, now: Time)
    requires Valid(d) && Visible(d, x) && Apply(Found(d, x).value, edit, d.nextId, now).Ok?
    ensures var w := Apply(Found(d, x).value, edit, d.nextId, now).value;
      && w.id == x && w.definitions == Intended(d, x, edit)
      && DistinctChildIds(w) && OwnChildIds(Raced(Drawn(d, edit), x, others), w, now)
  {
    hide Valid, DrawnChildIds, DistinctChildIds, OwnChildIds, EditWord, SameWord, Apply, Raced;
    var w, d1 := Apply(Found(d, x).value, edit, d.nextId, now).value, Drawn(d, edit);
    EditedWord(d, x, edit, now);
    forall y: Id | y != x ensures SameWord(d1, Raced(d1, x, others), y) {
      RacedLeavesOthers(d1, x, others, y);
    }
    StaysOwn(d1, Raced(d1, x, others), w, now);
  }

  /**
   * A merge that loaded the word before any number of others on it, and writes it after them, leaves the definitions
   * it loaded and its own: all that the others added in between is lost.
   */
  lemma LastWriteWins(d: Dict, x: Id, edit: Edit, others: seq<Racer>, now: Time)
    requires Valid(d) && Sorted(d, x) && Apply(Found(d, x).value, edit, d.nextId, now).Ok?
    requires |Intended(d, x, edit)| <= 0x7FFF
    ensures var w, raced := Apply(Found(d, x).value, edit, d.nextId, now).value, Raced(Drawn(d, edit), x, others);
      var done := Updated(raced, Up, w, now);
      && (done.error.None? ==> DefinitionsOf(done.d, x) == Intended(d, x, edit))
      && (done.error.Some? ==> done.d == raced)
  {
    hide Updated, Valid, DistinctChildIds, OwnChildIds, Apply, Raced;
    var w, raced := Apply(Found(d, x).value, edit, d.nextId, now).value, Raced(Drawn(d, edit), x, others);
    RacedWordStays(d, x, edit, others, now);
    GoodLinkUpdate(raced, w, now);
    if Updated(raced, Up, w, now).error.None? {
      UpdateStores(raced, Up, w, now);
      DenseReadsBack(RowsOf(Updated(raced, Up, w, now).d.definitions, x), w.definitions, x, now);
    }
  }
}
