/** What a merge makes of the dictionary, told from the payload or the answer it merges. */
module MergeEffects {
  import opened Common
  import opened Dictionary
  import opened WordRepository
  import opened Merges
  import opened WordEffects
  import A = AiRequests
  import C = Contributions

  // ---- reading payloads ----

  /** What a payload says under a key: a text, or nothing if there is none or it is no text. */
  predicate Says(m: map<string, Json>, key: string, text: string)
  {
    if key in m && m[key].Str? then m[key].text == text else text == ""
  }

  lemma SaysIff(m: map<string, Json>, key: string, text: string)
    ensures Says(m, key, text) <==> StringAt(m, key) == text
  {
  }

  /** The columns as they come back when nothing but the time of the last update is meant to change. */
  function Untouched(c: Columns, now: Time): Columns
  {
    c.(homonym := Int16(c.homonym), updatedAt := now)
  }

  // ---- a word that is there ----

  /** What an edit leaves of a word: its columns, its definitions and one or none more, its examples likewise. */
  ghost predicate Becomes(d: Dict, d': Dict, x: Id, columns: Columns, defs: seq<Definition>, exs: seq<Example>)
    requires Visible(d, x)
  {
    && Visible(d', x)
    && var was, r := Found(d, x).value, Found(d', x).value;
    && r.columns == columns
    && multiset(r.definitions) == multiset(StoredAll(was.definitions + defs))
    && multiset(r.examples) == multiset(was.examples + exs)
  }

  /** A stored edit, over any link. */
  lemma StoredEdit(d: Dict, link: Link, x: Id, edit: Edit, now: Time)
    requires Valid(d) && EditWord(d, link, x, edit, now).error.None?
    ensures Visible(d, x) && Apply(Found(d, x).value, edit, d.nextId, now).Ok?
    ensures var was, w := Found(d, x).value, Apply(Found(d, x).value, edit, d.nextId, now).value;
      Becomes(d, EditWord(d, link, x, edit, now).d, x, StoredColumns(d.words[x], w.columns, now),
              w.definitions[|was.definitions|..], w.examples[|was.examples|..])
      && was.definitions <= w.definitions && was.examples <= w.examples
  {
    hide Updated, Valid, DrawnChildIds, OwnChildIds, DistinctChildIds;
    var was := Found(d, x).value;
    EditedWord(d, x, edit, now);
    ApplyShape(was, edit, d.nextId, now);
    var w, link1 := Apply(was, edit, d.nextId, now).value, EditLink(d, FoundOver(d, link, x).link, edit);
    UpdateThenFind(Drawn(d, edit), link1, w, now);
    assert w.definitions == was.definitions + w.definitions[|was.definitions|..];
    assert w.examples == was.examples + w.examples[|was.examples|..];
  }

  lemma ContributionEdits(d: Dict, link: Link, c: C.Contribution, now: Time)
    requires !c.kind.NewWord? && MergeContribution(d, link, c, now).error.None?
    ensures c.target.Some? && EditOf(c).Some?
    ensures MergeContribution(d, link, c, now) == EditWord(d, link, c.target.value, EditOf(c).value, now)
  {
  }

  /** A merged definition: its text, the next number, the word's source and no votes; nothing else changes. */
  lemma DefinitionContributed(d: Dict, link: Link, c: C.Contribution, now: Time, meaning: string)
    requires Valid(d) && c.kind.NewDefinition? && Says(c.payload, "meaning", meaning)
    requires MergeContribution(d, link, c, now).error.None?
    ensures c.target.Some? && Visible(d, c.target.value) && meaning != "" && |meaning| <= 2000
    ensures var x := c.target.value;
      var was := Found(d, x).value;
      Becomes(d, MergeContribution(d, link, c, now).d, x, Untouched(was.columns, now),
              [Definition(d.nextId, meaning, |was.definitions| + 1, was.columns.source, 0, 0)], [])
  {
    SaysIff(c.payload, "meaning", meaning);
    ContributionEdits(d, link, c, now);
    StoredEdit(d, link, c.target.value, EditOf(c).value, now);
  }

  /** A merged example: the sentence and its translation, under the word's source; nothing else changes. */
  lemma ExampleContributed(d: Dict, link: Link, c: C.Contribution, now: Time, sentence: string, translation: string)
    requires Valid(d) && c.kind.NewExample?
    requires Says(c.payload, "banjar_sentence", sentence) && Says(c.payload, "indonesian_translation", translation)
    requires MergeContribution(d, link, c, now).error.None?
    ensures c.target.Some? && Visible(d, c.target.value) && sentence != ""
    ensures var x := c.target.value;
      var was := Found(d, x).value;
      Becomes(d, MergeContribution(d, link, c, now).d, x, Untouched(was.columns, now), [],
              [Example(d.nextId, sentence, translation, was.columns.source)])
  {
    SaysIff(c.payload, "banjar_sentence", sentence);
    SaysIff(c.payload, "indonesian_translation", translation);
    ContributionEdits(d, link, c, now);
    StoredEdit(d, link, c.target.value, EditOf(c).value, now);
  }

  lemma ColumnsSet(d: Dict, link: Link, x: Id, edit: Edit, now: Time)
    requires Valid(d) && edit.SetColumns? && EditWord(d, link, x, edit, now).error.None?
    ensures Visible(d, x) && (edit.wordClass != "" ==> WordClassCode(edit.wordClass).Some?)
    ensures var was := Found(d, x).value.columns;
      Becomes(d, EditWord(d, link, x, edit, now).d, x,
              Untouched(was, now).(
                banjar := if edit.banjar == "" then was.banjar else edit.banjar,
                syllabified := if edit.syllabified.Some? then edit.syllabified.value else was.syllabified,
                wordClass := if edit.wordClass == "" then was.wordClass else WordClassCode(edit.wordClass).value),
              [], [])
  {
    hide EditWord, Becomes, DefinitionsOf, ExamplesOf, WordClassCode;
    StoredEdit(d, link, x, edit, now);
    var was := Found(d, x).value;
    assert was.definitions[|was.definitions|..] == [] && was.examples[|was.examples|..] == [];
    ReadBack(d, x, now);
  }

  /**
   * An edited word is respelled if the payload has a spelling, syllabified anew if it has a text for that, be it empty,
   * and takes the class of the code it has; what it does not have stays, and so does everything else.
   */
  lemma WordEdited(d: Dict, link: Link, c: C.Contribution, now: Time, banjar: string, code: string)
    requires Valid(d) && c.kind.EditWord? && Says(c.payload, "banjar", banjar) && Says(c.payload, "word_class", code)
    requires MergeContribution(d, link, c, now).error.None?
    ensures c.target.Some? && Visible(d, c.target.value) && (code != "" ==> WordClassCode(code).Some?)
    ensures var x := c.target.value;
      var was, r := Found(d, x).value.columns, Found(MergeContribution(d, link, c, now).d, x);
      && r.Some?
      && r.value.columns.banjar == (if banjar == "" then was.banjar else banjar)
      && r.value.columns.syllabified
         == (if "banjar_syllabified" in c.payload && c.payload["banjar_syllabified"].Str?
               then c.payload["banjar_syllabified"].text else was.syllabified)
      && r.value.columns.wordClass == (if code == "" then was.wordClass else WordClassCode(code).value)
      && Becomes(d, MergeContribution(d, link, c, now).d, x,
                 Untouched(was, now).(banjar := r.value.columns.banjar, syllabified := r.value.columns.syllabified,
                                      wordClass := r.value.columns.wordClass),
                 [], [])
  {
    SaysIff(c.payload, "banjar", banjar);
    SaysIff(c.payload, "word_class", code);
    ContributionEdits(d, link, c, now);
    ColumnsSet(d, link, c.target.value, EditOf(c).value, now);
  }

  // ---- an answer of the language model ----

  lemma AnswerEdits(d: Dict, link: Link, r: A.Request, now: Time)
    requires r.targetWord.Some? && r.parsed.Some?
    ensures MergeAnswer(d, link, r, now) == EditWord(d, link, r.targetWord.value, AiEditOf(r.kind, r.parsed.value), now)
  {
  }

  /** An enriched definition is added as the model's, and the word counts as the model's from then on. */
  lemma DefinitionAnswered(d: Dict, link: Link, r: A.Request, now: Time, x: Id, meaning: string)
    requires Valid(d) && r.kind.EnrichDefinition? && r.targetWord == Some(x) && r.parsed.Some?
    requires Says(r.parsed.value, "definition", meaning) && meaning != "" && MergeAnswer(d, link, r, now).error.None?
    ensures Visible(d, x) && |meaning| <= 2000
    ensures var was := Found(d, x).value;
      Becomes(d, MergeAnswer(d, link, r, now).d, x, Untouched(was.columns, now).(source := AiGenerated),
              [Definition(d.nextId, meaning, |was.definitions| + 1, AiGenerated, 0, 0)], [])
  {
    SaysIff(r.parsed.value, "definition", meaning);
    AnswerEdits(d, link, r, now);
    StoredEdit(d, link, x, AiEditOf(r.kind, r.parsed.value), now);
  }

  /** So is a suggested example. */
  lemma ExampleAnswered(d: Dict, link: Link, r: A.Request, now: Time, x: Id, sentence: string, translation: string)
    requires Valid(d) && r.kind.SuggestExample? && r.targetWord == Some(x) && r.parsed.Some?
    requires Says(r.parsed.value, "banjar_sentence", sentence) && sentence != ""
    requires Says(r.parsed.value, "indonesian_translation", translation) && MergeAnswer(d, link, r, now).error.None?
    ensures Visible(d, x)
    ensures var was := Found(d, x).value;
      Becomes(d, MergeAnswer(d, link, r, now).d, x, Untouched(was.columns, now).(source := AiGenerated), [],
              [Example(d.nextId, sentence, translation, AiGenerated)])
  {
    SaysIff(r.parsed.value, "banjar_sentence", sentence);
    SaysIff(r.parsed.value, "indonesian_translation", translation);
    AnswerEdits(d, link, r, now);
    StoredEdit(d, link, x, AiEditOf(r.kind, r.parsed.value), now);
  }

  /** The text an answer has to have for its kind to add anything. */
  predicate AddsNothing(kind: A.Kind, parsed: A.Document)
  {
    match kind
    case EnrichDefinition => Says(parsed, "definition", "")
    case SuggestExample => Says(parsed, "banjar_sentence", "")
    case SuggestRelated => true
    case QualityCheck => true
  }

  lemma IdleEdit(d: Dict, link: Link, x: Id, edit: Edit, now: Time)
    requires Valid(d) && (edit.Rewrite? || edit.Relate?) && EditWord(d, link, x, edit, now).error.None?
    ensures Visible(d, x)
    ensures Becomes(d, EditWord(d, link, x, edit, now).d, x, Untouched(Found(d, x).value.columns, now), [], [])
  {
    hide EditWord, Becomes;
    StoredEdit(d, link, x, edit, now);
    var was := Found(d, x).value;
    assert was.definitions[|was.definitions|..] == [] && was.examples[|was.examples|..] == [];
    ReadBack(d, x, now);
  }

  /** Columns that are written as they were read come back as they were. */
  lemma ReadBack(d: Dict, x: Id, now: Time)
    requires Visible(d, x)
    ensures StoredColumns(d.words[x], Found(d, x).value.columns, now) == Untouched(Found(d, x).value.columns, now)
  {
    hide DefinitionsOf, ExamplesOf;
  }

  lemma IdleAnswer(kind: A.Kind, parsed: A.Document)
    requires AddsNothing(kind, parsed)
    ensures AiEditOf(kind, parsed).Rewrite? || AiEditOf(kind, parsed).Relate?
  {
  }

  /** A related word, a quality check and an answer without the expected text leave the word as it was. */
  lemma NothingAnswered(d: Dict, link: Link, r: A.Request, now: Time, x: Id)
    requires Valid(d) && r.targetWord == Some(x) && r.parsed.Some? && AddsNothing(r.kind, r.parsed.value)
    requires MergeAnswer(d, link, r, now).error.None?
    ensures Visible(d, x)
    ensures Becomes(d, MergeAnswer(d, link, r, now).d, x, Untouched(Found(d, x).value.columns, now), [], [])
  {
    hide EditWord, Becomes, AiEditOf, AddsNothing, Found;
    AnswerEdits(d, link, r, now);
    IdleAnswer(r.kind, r.parsed.value);
    IdleEdit(d, link, x, AiEditOf(r.kind, r.parsed.value), now);
  }

  /** What is refused, and why; a refused answer changes nothing. */
  lemma AnswerRefusedIff(d: Dict, link: Link, r: A.Request, now: Time, meaning: string)
    requires r.targetWord.Some?
    requires r.parsed.Some? && r.kind.EnrichDefinition? ==> Says(r.parsed.value, "definition", meaning)
    ensures var m, found := MergeAnswer(d, link, r, now), FoundOver(d, link, r.targetWord.value).found;
      && (r.parsed.None? ==> m == Merged(d, None, link))
      && (m.error == Some(WordNotFound) <==> r.parsed.Some? && found.Err?)
      && (m.error == Some(MeaningTooLong) <==>
          r.parsed.Some? && found.Ok? && r.kind.EnrichDefinition? && |meaning| > 2000)
      && (m.error in {Some(WordNotFound), Some(MeaningTooLong)} ==> m.d == d)
      && m.error !in {Some(InvalidPayload), Some(InvalidWordClass)}
  {
    hide Updated, FoundOver;
    if r.parsed.Some? && r.kind.EnrichDefinition? {
      SaysIff(r.parsed.value, "definition", meaning);
    }
  }

  /** What is refused of a contribution to a word, and why. */
  lemma ContributionRefusedIff(d: Dict, link: Link, c: C.Contribution, now: Time, meaning: string, sentence: string,
                               code: string)
    requires !c.kind.NewWord? && Says(c.payload, "meaning", meaning) && Says(c.payload, "banjar_sentence", sentence)
    requires Says(c.payload, "word_class", code)
    ensures var m := MergeContribution(d, link, c, now);
      var incomplete := c.target.None? || (c.kind.NewDefinition? && meaning == "")
                        || (c.kind.NewExample? && sentence == "");
      var found := !incomplete && FoundOver(d, link, c.target.value).found.Ok?;
      && (m.error == Some(InvalidPayload) <==> incomplete)
      && (m.error == Some(WordNotFound) <==> !incomplete && !found)
      && (m.error == Some(MeaningTooLong) <==> found && c.kind.NewDefinition? && |meaning| > 2000)
      && (m.error == Some(InvalidWordClass) <==>
          found && c.kind.EditWord? && code != "" && forall wc :: WordClassCode(code) != Some(wc))
      && (m.error.Some? && !m.error.value.StoreFailed? ==> m.d == d)
  {
    hide Updated, FoundOver;
    SaysIff(c.payload, "meaning", meaning);
    SaysIff(c.payload, "banjar_sentence", sentence);
    SaysIff(c.payload, "word_class", code);
  }

  // ---- a new word ----

  predicate Lists(m: map<string, Json>, key: string, items: seq<Json>)
  {
    if key in m && m[key].Arr? then m[key].items == items else items == []
  }

  predicate IsText(item: Json, key: string) { item.Obj? && key in item.fields && item.fields[key].Str? }

  /** A listed definition that is taken: it has a meaning, and one that is not too long. */
  predicate HasMeaning(item: Json)
  {
    IsText(item, "meaning") && 0 < |item.fields["meaning"].text| <= 2000
  }

  predicate HasSentence(item: Json)
  {
    IsText(item, "banjar_sentence") && item.fields["banjar_sentence"].text != ""
  }

  function Meanings(items: seq<Json>, n: nat): nat
    requires n <= |items|
  {
    if n == 0 then 0 else Meanings(items, n - 1) + CountIf(HasMeaning(items[n - 1]))
  }

  function Sentences(items: seq<Json>, n: nat): nat
    requires n <= |items|
  {
    if n == 0 then 0 else Sentences(items, n - 1) + CountIf(HasSentence(items[n - 1]))
  }

  /** The definition is the listed one, with its place in the list as sort order. */
  predicate IsListed(x: Definition, item: Json, place: int)
    requires HasMeaning(item)
  {
    && x.meaning == item.fields["meaning"].text && x.sortOrder == place && x.source == Contributed
    && x.upvotes == 0 && x.downvotes == 0
  }

  predicate IsListedExample(x: Example, item: Json)
    requires HasSentence(item)
  {
    && x.banjar == item.fields["banjar_sentence"].text && Says(item.fields, "indonesian_translation", x.indonesian)
    && x.source == Contributed
  }

  /** The listed definitions that are taken, in order. */
  predicate AreListed(xs: seq<Definition>, items: seq<Json>, n: nat)
    requires n <= |items|
  {
    && |xs| == Meanings(items, n)
    && forall i | 0 <= i < n && HasMeaning(items[i]) ::
      Meanings(items, i) < |xs| && IsListed(xs[Meanings(items, i)], items[i], i + 1)
  }

  predicate AreListedExamples(xs: seq<Example>, items: seq<Json>, n: nat)
    requires n <= |items|
  {
    && |xs| == Sentences(items, n)
    && forall i | 0 <= i < n && HasSentence(items[i]) ::
      Sentences(items, i) < |xs| && IsListedExample(xs[Sentences(items, i)], items[i])
  }

  lemma {:induction false} DraftedDefinitions(start: Draft, items: seq<Json>, n: nat, now: Time)
    requires n <= |items| && start.w.definitions == [] && start.w.columns.source == Contributed
    requires start.w.columns.updatedAt == now
    ensures var w := DraftDefinitions(start, items, n, now).w;
      AreListed(w.definitions, items, n) && w.columns == start.w.columns && w.examples == start.w.examples
  {
    if n > 0 {
      DraftedDefinitions(start, items, n - 1, now);
      assert HasMeaning(items[n - 1]) <==>
        FieldOf(items[n - 1], "meaning") != "" && |FieldOf(items[n - 1], "meaning")| <= MAX_MEANING_LENGTH;
    }
  }

  lemma {:induction false} DraftedExamples(start: Draft, items: seq<Json>, n: nat, now: Time)
    requires n <= |items| && start.w.examples == [] && start.w.columns.source == Contributed
    requires start.w.columns.updatedAt == now
    ensures var w := DraftExamples(start, items, n, now).w;
      AreListedExamples(w.examples, items, n) && w.columns == start.w.columns && w.definitions == start.w.definitions
  {
    if n > 0 {
      DraftedExamples(start, items, n - 1, now);
      assert HasSentence(items[n - 1]) <==> FieldOf(items[n - 1], "banjar_sentence") != "";
    }
  }

  /** The columns of a word made from a payload. */
  function NewColumns(banjar: string, syllabified: string, wordClass: WordClass, contributor: Id, now: Time): Columns
  {
    Columns(banjar, syllabified, Hulu, wordClass, 1, true, None, Active, Contributed, "", Some(contributor), now, now)
  }

  lemma DraftedWord(c: C.Contribution, wordClass: WordClass, next: Id, now: Time, banjar: string, syllabified: string,
                    defs: seq<Json>, exs: seq<Json>)
    requires Says(c.payload, "banjar", banjar) && Says(c.payload, "banjar_syllabified", syllabified)
    requires Lists(c.payload, "definitions", defs) && Lists(c.payload, "examples", exs)
    ensures var w := DraftWord(c.payload, wordClass, c.contributor, next, now).w;
      && w.columns == NewColumns(banjar, syllabified, wordClass, c.contributor, now)
      && AreListed(w.definitions, defs, |defs|) && AreListedExamples(w.examples, exs, |exs|)
  {
    SaysIff(c.payload, "banjar", banjar);
    SaysIff(c.payload, "banjar_syllabified", syllabified);
    var start := BareDraft(c.payload, wordClass, c.contributor, next, now);
    DraftedDefinitions(start, defs, |defs|, now);
    DraftedExamples(DraftDefinitions(start, defs, |defs|, now), exs, |exs|, now);
  }

  /**
   * A merged new word: its spelling, syllabification and class, its contributor, and what of its listed definitions
   * and examples is usable, as the columns hold it.
   */
  lemma NewWordContributed(d: Dict, link: Link, c: C.Contribution, now: Time, banjar: string, code: string,
                           syllabified: string, defs: seq<Json>, exs: seq<Json>)
    requires Valid(d) && c.kind.NewWord? && Says(c.payload, "banjar", banjar) && Says(c.payload, "word_class", code)
    requires Says(c.payload, "banjar_syllabified", syllabified)
    requires Lists(c.payload, "definitions", defs) && Lists(c.payload, "examples", exs)
    requires MergeContribution(d, link, c, now).error.None?
    ensures banjar != "" && code != "" && WordClassCode(code).Some? && d.nextId !in d.words
    ensures var found := Found(MergeContribution(d, link, c, now).d, d.nextId);
      && found.Some?
      && found.value.columns == NewColumns(banjar, syllabified, WordClassCode(code).value, c.contributor, now)
      && (exists xs :: AreListed(xs, defs, |defs|) && multiset(found.value.definitions) == multiset(StoredAll(xs)))
      && exists xs :: AreListedExamples(xs, exs, |exs|) && multiset(found.value.examples) == multiset(xs)
  {
    hide Created, DraftWord, AreListed, AreListedExamples, Valid;
    SaysIff(c.payload, "banjar", banjar);
    SaysIff(c.payload, "word_class", code);
    var wordClass := WordClassCode(code).value;
    var draft := DraftWord(c.payload, wordClass, c.contributor, d.nextId, now);
    DraftWordDraws(c.payload, wordClass, c.contributor, d.nextId, now);
    DraftedWord(c, wordClass, d.nextId, now, banjar, syllabified, defs, exs);
    AdvancedValid(d, draft.next);
    DraftIsOwn(d, draft, now);
    NextIsNew(d);
    CreateThenFind(d.(nextId := draft.next), link, draft.w, now);
  }

  lemma NextIsNew(d: Dict)
    requires Valid(d)
    ensures d.nextId !in d.words
  {
  }

  /** Without a spelling and a known class a new word is refused, and nothing changes. */
  lemma NewWordRefusedIff(d: Dict, link: Link, c: C.Contribution, now: Time, banjar: string, code: string)
    requires c.kind.NewWord? && Says(c.payload, "banjar", banjar) && Says(c.payload, "word_class", code)
    ensures var m := MergeContribution(d, link, c, now);
      && (m.error == Some(InvalidPayload) <==> banjar == "" || code == "")
      && (m.error == Some(InvalidWordClass) <==>
          banjar != "" && code != "" && forall wc :: WordClassCode(code) != Some(wc))
      && (m.error.Some? && !m.error.value.StoreFailed? ==> m.d == d && m.link == link)
  {
    hide Created, DraftWord;
    SaysIff(c.payload, "banjar", banjar);
    SaysIff(c.payload, "word_class", code);
  }
}
