/** scripts/seed/main.go: the idempotent import of the dictionary file. */
module Seeder {
  import opened Common
  import opened Dictionary
  import Queries

  datatype SeedExample = SeedExample(banjar: string, indonesian: string)

  datatype SeedEntry = SeedEntry(
    banjar: string, syllabified: string, wordClass: string, definitions: seq<string>, examples: seq<SeedExample>,
    isDerived: bool, homonymNumber: int, sourceReference: string, derivedForms: seq<SeedEntry>)

  /** The instant read when `n` ids have been drawn: any function, so any clock. */
  type Clock = Id -> Time

  // ---- word classes ----

  predicate IsQuote(c: char) { c == '`' || c == '\'' || c == '"' }

  function TrimQuotes(s: string): (r: string)
    ensures r <= s
    ensures r == [] || !IsQuote(r[|r| - 1])
    ensures forall i | |r| <= i < |s| :: IsQuote(s[i])
  {
    if s != [] && IsQuote(s[|s| - 1]) then TrimQuotes(s[..|s| - 1]) else s
  }

  /** A known code, or one left over once trailing quote marks are stripped. */
  function NormalizeWordClass(s: string): Option<WordClass>
    decreases |s|
  {
    match WordClassCode(s)
    case Some(wc) => Some(wc)
    case None =>
      var cleaned := TrimQuotes(s);
      if cleaned != s then NormalizeWordClass(cleaned) else None
  }

  lemma CodeHasNoQuotes(s: string)
    requires WordClassCode(s).Some?
    ensures s != [] && !IsQuote(s[|s| - 1])
  {
  }

  /** Dropping exactly the trailing quote marks is the only way to end up without one. */
  lemma TrimQuotesUnique(s: string, n: nat)
    requires n <= |s| && (n == 0 || !IsQuote(s[n - 1])) && forall i | n <= i < |s| :: IsQuote(s[i])
    ensures TrimQuotes(s) == s[..n]
  {
  }

  lemma NormalizeStripsThenLooksUp(s: string)
    ensures NormalizeWordClass(s) == WordClassCode(TrimQuotes(s))
  {
    var t := TrimQuotes(s);
    if WordClassCode(s).Some? {
      CodeHasNoQuotes(s);
    } else if t != s {
      assert TrimQuotes(t) == t;
    }
  }

  /** A word class is accepted exactly when the text is one of the nine codes followed by quote marks only. */
  lemma {:induction false} WordClassAccepted(s: string, wc: WordClass)
    ensures NormalizeWordClass(s) == Some(wc) <==>
      exists n | 0 <= n <= |s| :: WordClassCode(s[..n]) == Some(wc) && forall i | n <= i < |s| :: IsQuote(s[i])
  {
    NormalizeStripsThenLooksUp(s);
    if NormalizeWordClass(s) == Some(wc) {
      var n := |TrimQuotes(s)|;
      assert s[..n] == TrimQuotes(s);
    }
    if n :| 0 <= n <= |s| && WordClassCode(s[..n]) == Some(wc) && forall i | n <= i < |s| :: IsQuote(s[i]) {
      CodeHasNoQuotes(s[..n]);
      TrimQuotesUnique(s, n);
    }
  }

  // ---- one entry ----

  function SeedRow(e: SeedEntry, root: Option<Id>, wc: WordClass, now: Time): WordRow
  {
    var homonym := Int16(e.homonymNumber);
    WordRow(
      e.banjar,
      if e.syllabified != "" && e.syllabified != e.banjar then Some(e.syllabified) else None,
      Hulu, wc,
      if homonym < 1 then 1 else homonym,
      root.None? || !e.isDerived,
      root,
      Active, Seeded,
      if e.sourceReference != "" then Some(e.sourceReference) else None,
      None, now, now, None)
  }

  /**
   * What the first n meanings bring: blank ones are skipped, and each keeps its place in the file as its sort order.
   */
  function SeedDefinitions(meanings: seq<string>, n: nat): seq<DefinitionBody>
    requires n <= |meanings|
  {
    if n == 0 then []
    else if meanings[n - 1] == "" then SeedDefinitions(meanings, n - 1)
    else SeedDefinitions(meanings, n - 1) + [DefinitionBody(meanings[n - 1], Int16(n), Seeded, 0, 0)]
  }

  function SeedExamples(examples: seq<SeedExample>, n: nat): seq<ExampleBody>
    requires n <= |examples|
  {
    if n == 0 then []
    else if examples[n - 1].banjar == "" then SeedExamples(examples, n - 1)
    else SeedExamples(examples, n - 1) + [ExampleBody(examples[n - 1].banjar, examples[n - 1].indonesian, Seeded)]
  }

  function EntryDefinitions(e: SeedEntry): seq<DefinitionBody> { SeedDefinitions(e.definitions, |e.definitions|) }

  function EntryExamples(e: SeedEntry): seq<ExampleBody> { SeedExamples(e.examples, |e.examples|) }

  /** A new words table, and new children for word w; w's own id is the first of those drawn. */
  function ReplaceChildren(d: Dict, words: map<Id, WordRow>, w: Id, defs: seq<DefinitionBody>, exs: seq<ExampleBody>,
                           now: Time): Dict
  {
    var n := d.nextId + 1 + |defs|;
    Dict(words, Without(d.definitions, w) + NewRows(w, defs, now, d.nextId + 1),
         Without(d.examples, w) + NewRows(w, exs, now, n), n + |exs|)
  }

  /** The word row is upserted under a fresh id, then the word's children are replaced by the entry's. */
  ghost function UpsertKnown(d: Dict, e: SeedEntry, root: Option<Id>, wc: WordClass, now: Time): (Dict, Id)
  {
    var upserted := UpsertWord(d.words, d.nextId, SeedRow(e, root, wc, now));
    (ReplaceChildren(d, upserted.0, upserted.1, EntryDefinitions(e), EntryExamples(e), now), upserted.1)
  }

  /** The dictionary after one entry, and the id of its word; an unknown word class leaves everything alone. */
  ghost function UpsertEntry(d: Dict, e: SeedEntry, root: Option<Id>, clock: Clock): (Dict, Option<Id>)
  {
    match NormalizeWordClass(e.wordClass)
    case None => (d, None)
    case Some(wc) =>
      var (d', w) := UpsertKnown(d, e, root, wc, clock(d.nextId));
      (d', Some(w))
  }

  ghost function SeedDerived(d: Dict, derived: seq<SeedEntry>, root: Id, clock: Clock): Dict
    decreases |derived|
  {
    if derived == [] then d
    else SeedDerived(UpsertEntry(d, derived[0], Some(root), clock).0, derived[1..], root, clock)
  }

  /** The whole loop: a root that is skipped takes its derived forms with it. */
  ghost function Seed(d: Dict, entries: seq<SeedEntry>, clock: Clock): Dict
    decreases |entries|
  {
    if entries == [] then d
    else
      var (d1, root) := UpsertEntry(d, entries[0], None, clock);
      var d2 := if root.Some? then SeedDerived(d1, entries[0].derivedForms, root.value, clock) else d1;
      Seed(d2, entries[1..], clock)
  }

  // ---- what a run amounts to: a list of writes, the last one on each word winning ----

  /**
   * What an upsert replaces on a word: two columns, and its children in the order they were inserted, ids and times
   * apart.
   */
  datatype Facts = Facts(
    wordClass: WordClass, reference: Option<string>,
    definitions: seq<DefinitionBody>, examples: seq<ExampleBody>)

  datatype Write = Write(word: Id, facts: Facts)

  ghost function FactsOf(d: Dict, w: Id): Facts
    requires w in d.words
  {
    Facts(d.words[w].wordClass, d.words[w].reference,
          Bodies(RowsOf(d.definitions, w)), Bodies(RowsOf(d.examples, w)))
  }

  /** What an upsert never changes on a word that is already there: its key, and every other column but updated_at. */
  function Fixed(row: WordRow): WordRow
  {
    row.(wordClass := N, reference := None, updatedAt := 0)
  }

  ghost function EntryFacts(e: SeedEntry, wc: WordClass): Facts
  {
    Facts(wc, if e.sourceReference != "" then Some(e.sourceReference) else None,
          EntryDefinitions(e), EntryExamples(e))
  }

  /** Where an entry lands, looked up in a table that already holds every word of the run. */
  ghost function Target(words: map<Id, WordRow>, e: SeedEntry, root: Option<Id>): Option<Id>
  {
    match NormalizeWordClass(e.wordClass)
    case None => None
    case Some(wc) => FindKey(words, KeyOf(SeedRow(e, root, wc, 0)))
  }

  ghost function PlanEntry(words: map<Id, WordRow>, e: SeedEntry, root: Option<Id>): seq<Write>
  {
    match Target(words, e, root)
    case None => []
    case Some(w) => [Write(w, EntryFacts(e, NormalizeWordClass(e.wordClass).value))]
  }

  ghost function PlanDerived(words: map<Id, WordRow>, derived: seq<SeedEntry>, root: Id): seq<Write>
  {
    if derived == [] then []
    else PlanEntry(words, derived[0], Some(root)) + PlanDerived(words, derived[1..], root)
  }

  /** The file's writes, in order, computed without running the seeder. */
  ghost function Plan(words: map<Id, WordRow>, entries: seq<SeedEntry>): seq<Write>
  {
    if entries == [] then []
    else
      var root := Target(words, entries[0], None);
      PlanEntry(words, entries[0], None)
      + (if root.Some? then PlanDerived(words, entries[0].derivedForms, root.value) else [])
      + Plan(words, entries[1..])
  }

  ghost function LastWrite(writes: seq<Write>, w: Id): Option<Facts>
  {
    if writes == [] then None
    else if writes[|writes| - 1].word == w then Some(writes[|writes| - 1].facts)
    else LastWrite(writes[..|writes| - 1], w)
  }

  ghost predicate Extends(words: map<Id, WordRow>, words': map<Id, WordRow>)
  {
    words.Keys <= words'.Keys && forall w | w in words :: Fixed(words'[w]) == Fixed(words[w])
  }

  /** Going from d to d' is exactly performing the writes. */
  ghost predicate Performs(d: Dict, d': Dict, writes: seq<Write>)
  {
    && Extends(d.words, d'.words)
    && (forall w | w in d'.words :: w in d.words || LastWrite(writes, w).Some?)
    && (forall w :: LastWrite(writes, w).Some? ==> w in d'.words)
    && (forall w | w in d'.words :: match LastWrite(writes, w)
         case Some(facts) => FactsOf(d', w) == facts
         case None => FactsOf(d', w) == FactsOf(d, w))
  }

  lemma {:induction false} LastWriteAppend(a: seq<Write>, b: seq<Write>, w: Id)
    ensures LastWrite(a + b, w) == if LastWrite(b, w).Some? then LastWrite(b, w) else LastWrite(a, w)
  {
    if b == [] {
      assert a + b == a;
    } else {
      var n := |b| - 1;
      assert (a + b)[..|a| + n] == a + b[..n];
      LastWriteAppend(a, b[..n], w);
    }
  }

  lemma PerformsCompose(d: Dict, d1: Dict, d2: Dict, a: seq<Write>, b: seq<Write>)
    requires Performs(d, d1, a) && Performs(d1, d2, b)
    ensures Performs(d, d2, a + b)
  {
    forall w ensures LastWrite(a + b, w) == if LastWrite(b, w).Some? then LastWrite(b, w) else LastWrite(a, w) {
      LastWriteAppend(a, b, w);
    }
  }

  lemma FixedKey(a: WordRow, b: WordRow)
    requires Fixed(a) == Fixed(b)
    ensures KeyOf(a) == KeyOf(b)
  {
    assert KeyOf(a) == KeyOf(Fixed(a)) == KeyOf(b);
  }

  /** A key found in a table is found at the same id in every extension with unique keys. */
  lemma FindKeyStable(words: map<Id, WordRow>, words': map<Id, WordRow>, w: Id, key: Key)
    requires Extends(words, words') && UniqueKeys(words')
    requires w in words && KeyOf(words[w]) == key
    ensures FindKey(words', key) == Some(w)
  {
    FixedKey(words[w], words'[w]);
  }

  // ---- one entry performs its write ----

  /** Replacing a word's rows by freshly numbered ones keeps a child table valid. */
  lemma ReplacedRowsValid<C>(rows: seq<Child<C>>, added: seq<Child<C>>, w: Id, words: set<Id>, next: Id,
                             words': set<Id>, first: Id, next': Id)
    requires ValidRows(rows, words, next) && words <= words' && w in words' && next <= first && first + |added| <= next'
    requires OwnedBy(added, w) && NumberedFrom(added, first)
    ensures ValidRows(Without(rows, w) + added, words', next')
  {
    WithoutValid(rows, w, words, next);
  }

  lemma {:induction false} ReplaceChildrenValid(d: Dict, words: map<Id, WordRow>, w: Id, defs: seq<DefinitionBody>,
                                                exs: seq<ExampleBody>,
                             now: Time)
    requires Valid(d) && ValidWords(words, d.nextId + 1) && d.words.Keys <= words.Keys && w in words
    ensures Valid(ReplaceChildren(d, words, w, defs, exs, now))
  {
    hide Without, NewRows, ValidRows;
    var first, second := d.nextId + 1, d.nextId + 1 + |defs|;
    var n := second + |exs|;
    ReplacedRowsValid(d.definitions, NewRows(w, defs, now, first), w, d.words.Keys, d.nextId, words.Keys, first, n);
    ReplacedRowsValid(d.examples, NewRows(w, exs, now, second), w, d.words.Keys, d.nextId, words.Keys, second, n);
    ValidWordsMonotone(words, first, n);
  }

  lemma KnownValid(d: Dict, e: SeedEntry, root: Option<Id>, wc: WordClass, now: Time)
    requires Valid(d) && (root.Some? ==> root.value in d.words)
    ensures var known := UpsertKnown(d, e, root, wc, now);
      Valid(known.0) && d.words.Keys <= known.0.words.Keys && known.1 in known.0.words
  {
    var row := SeedRow(e, root, wc, now);
    UpsertWordValid(d.words, d.nextId, row);
    UpsertWordHolds(d.words, d.nextId, row);
    var upserted := UpsertWord(d.words, d.nextId, row);
    ReplaceChildrenValid(d, upserted.0, upserted.1, EntryDefinitions(e), EntryExamples(e), now);
  }

  lemma EntryValid(d: Dict, e: SeedEntry, root: Option<Id>, clock: Clock)
    requires Valid(d) && (root.Some? ==> root.value in d.words)
    ensures var (d', w) := UpsertEntry(d, e, root, clock);
      Valid(d') && d.words.Keys <= d'.words.Keys && (w.Some? ==> w.value in d'.words)
  {
    match NormalizeWordClass(e.wordClass)
    case None =>
    case Some(wc) => KnownValid(d, e, root, wc, clock(d.nextId));
  }

  /** Replacing a word's rows by its own new ones gives it exactly those, and leaves every other word's as they were. */
  lemma ReplacedRows<C>(rows: seq<Child<C>>, added: seq<Child<C>>, w: Id, x: Id)
    requires OwnedBy(added, w)
    ensures RowsOf(Without(rows, w) + added, x) == if x == w then added else RowsOf(rows, x)
  {
    RowsOfAppend(Without(rows, w), added, x);
    DeleteEmptiesOnlyItsWord(rows, w, x);
    RowsOfOwn(added, w, x);
  }

  lemma {:induction false} ReplacedBodies<C>(rows: seq<Child<C>>, w: Id, bodies: seq<C>, now: Time, next: Id, x: Id)
    ensures Bodies(RowsOf(Without(rows, w) + NewRows(w, bodies, now, next), x))
      == if x == w then bodies else Bodies(RowsOf(rows, x))
  {
    ReplacedRows(rows, NewRows(w, bodies, now, next), w, x);
  }

  lemma {:induction false} ReplaceChildrenFacts(d: Dict, words: map<Id, WordRow>, w: Id, defs: seq<DefinitionBody>,
                                                exs: seq<ExampleBody>,
                             now: Time, x: Id)
    requires x in words
    ensures FactsOf(ReplaceChildren(d, words, w, defs, exs, now), x) == Facts(words[x].wordClass, words[x].reference,
        if x == w then defs else Bodies(RowsOf(d.definitions, x)),
        if x == w then exs else Bodies(RowsOf(d.examples, x)))
  {
    hide Without, NewRows, RowsOf, Bodies;
    ReplacedBodies(d.definitions, w, defs, now, d.nextId + 1, x);
    ReplacedBodies(d.examples, w, exs, now, d.nextId + 1 + |defs|, x);
  }

  lemma KnownFacts(d: Dict, e: SeedEntry, root: Option<Id>, wc: WordClass, now: Time, x: Id)
    requires x in UpsertKnown(d, e, root, wc, now).0.words
    ensures var known := UpsertKnown(d, e, root, wc, now);
      if known.1 == x then FactsOf(known.0, x) == EntryFacts(e, wc)
      else x in d.words && FactsOf(known.0, x) == FactsOf(d, x)
  {
    var upserted := UpsertWord(d.words, d.nextId, SeedRow(e, root, wc, now));
    ReplaceChildrenFacts(d, upserted.0, upserted.1, EntryDefinitions(e), EntryExamples(e), now, x);
  }

  lemma KnownExtends(d: Dict, e: SeedEntry, root: Option<Id>, wc: WordClass, now: Time)
    requires Valid(d) && (root.Some? ==> root.value in d.words)
    ensures var (d', w) := UpsertKnown(d, e, root, wc, now);
      Extends(d.words, d'.words) && KeyOf(d'.words[w]) == KeyOf(SeedRow(e, root, wc, 0))
  {
    UpsertWordHolds(d.words, d.nextId, SeedRow(e, root, wc, now));
  }

  lemma {:induction false} EntryPerforms(d: Dict, e: SeedEntry, root: Option<Id>, clock: Clock, final: map<Id, WordRow>)
    requires Valid(d) && (root.Some? ==> root.value in d.words)
    requires UniqueKeys(final) && Extends(UpsertEntry(d, e, root, clock).0.words, final)
    ensures var (d', w) := UpsertEntry(d, e, root, clock);
      w == Target(final, e, root) && Performs(d, d', PlanEntry(final, e, root))
  {
    hide FactsOf, EntryFacts, Valid;
    match NormalizeWordClass(e.wordClass)
    case None =>
    case Some(wc) =>
      var (d', w) := UpsertKnown(d, e, root, wc, clock(d.nextId));
      KnownExtends(d, e, root, wc, clock(d.nextId));
      FindKeyStable(d'.words, final, w, KeyOf(SeedRow(e, root, wc, 0)));
      OneWritePerformed(d, d', w, EntryFacts(e, wc)) by {
        forall x | x in d'.words ensures
          if w == x then FactsOf(d', x) == EntryFacts(e, wc) else x in d.words && FactsOf(d', x) == FactsOf(d, x)
        {
          KnownFacts(d, e, root, wc, clock(d.nextId), x);
        }
      }
  }

  lemma OneWritePerformed(d: Dict, d': Dict, w: Id, facts: Facts)
    requires Extends(d.words, d'.words) && w in d'.words
    requires forall x | x in d'.words ::
      if w == x then FactsOf(d', x) == facts else x in d.words && FactsOf(d', x) == FactsOf(d, x)
    ensures Performs(d, d', [Write(w, facts)])
  {
    forall x ensures LastWrite([Write(w, facts)], x) == if x == w then Some(facts) else None {
      assert [Write(w, facts)][..0] == [];
    }
  }

  // ---- the loops perform the plan ----

  lemma {:induction false} DerivedValid(d: Dict, derived: seq<SeedEntry>, root: Id, clock: Clock)
    requires Valid(d) && root in d.words
    ensures var d' := SeedDerived(d, derived, root, clock); Valid(d') && d.words.Keys <= d'.words.Keys
    decreases |derived|
  {
    if derived != [] {
      EntryValid(d, derived[0], Some(root), clock);
      DerivedValid(UpsertEntry(d, derived[0], Some(root), clock).0, derived[1..], root, clock);
    }
  }

  lemma ExtendsTransitive(a: map<Id, WordRow>, b: map<Id, WordRow>, c: map<Id, WordRow>)
    requires Extends(a, b) && Extends(b, c)
    ensures Extends(a, c)
  {
  }

  lemma {:induction false} DerivedPerforms(d: Dict, derived: seq<SeedEntry>, root: Id, clock: Clock,
                                           final: map<Id, WordRow>)
    requires Valid(d) && root in d.words
    requires UniqueKeys(final) && Extends(SeedDerived(d, derived, root, clock).words, final)
    ensures Performs(d, SeedDerived(d, derived, root, clock), PlanDerived(final, derived, root))
    decreases |derived|
  {
    if derived != [] {
      var d1 := UpsertEntry(d, derived[0], Some(root), clock).0;
      EntryValid(d, derived[0], Some(root), clock);
      DerivedPerforms(d1, derived[1..], root, clock, final);
      var d2 := SeedDerived(d1, derived[1..], root, clock);
      ExtendsTransitive(d1.words, d2.words, final);
      EntryPerforms(d, derived[0], Some(root), clock, final);
      PerformsCompose(d, d1, d2, PlanEntry(final, derived[0], Some(root)), PlanDerived(final, derived[1..], root));
    }
  }

  /** A run keeps the schema's constraints, so it never duplicates a key. */
  lemma {:induction false} SeedValid(d: Dict, entries: seq<SeedEntry>, clock: Clock)
    requires Valid(d)
    ensures Valid(Seed(d, entries, clock))
    decreases |entries|
  {
    if entries != [] {
      var (d1, root) := UpsertEntry(d, entries[0], None, clock);
      EntryValid(d, entries[0], None, clock);
      if root.Some? {
        DerivedValid(d1, entries[0].derivedForms, root.value, clock);
        SeedValid(SeedDerived(d1, entries[0].derivedForms, root.value, clock), entries[1..], clock);
      } else {
        SeedValid(d1, entries[1..], clock);
      }
    }
  }

  /**
   * Whatever the database held, a run performs the file's plan: each word the file resolves to ends with the word
   * class, reference, definitions and examples of the last entry that resolves to it; every other word keeps what it
   * had; no word is created that the plan does not name. The plan may be looked up in any later table.
   */
  lemma {:induction false} SeedPerformsPlan(d: Dict, entries: seq<SeedEntry>, clock: Clock, final: map<Id, WordRow>)
    requires Valid(d)
    requires UniqueKeys(final) && Extends(Seed(d, entries, clock).words, final)
    ensures Performs(d, Seed(d, entries, clock), Plan(final, entries))
    decreases |entries|
  {
    if entries != [] {
      var e, rest := entries[0], entries[1..];
      var (d1, root) := UpsertEntry(d, e, None, clock);
      EntryValid(d, e, None, clock);
      var d2 := if root.Some? then SeedDerived(d1, e.derivedForms, root.value, clock) else d1;
      if root.Some? {
        DerivedValid(d1, e.derivedForms, root.value, clock);
      }
      var d3 := Seed(d2, rest, clock);
      SeedPerformsPlan(d2, rest, clock, final);
      ExtendsTransitive(d2.words, d3.words, final);
      var inner := if root.Some? then PlanDerived(final, e.derivedForms, root.value) else [];
      if root.Some? {
        DerivedPerforms(d1, e.derivedForms, root.value, clock, final);
        ExtendsTransitive(d1.words, d2.words, final);
      }
      EntryPerforms(d, e, None, clock, final);
      PerformsCompose(d, d1, d2, PlanEntry(final, e, None), inner);
      PerformsCompose(d, d2, d3, PlanEntry(final, e, None) + inner, Plan(final, rest));
    }
  }

  // ---- idempotence ----

  /**
   * The same words, ids and columns included (updated_at apart), and the same definitions and examples up to child
   * ids and times.
   */
  ghost predicate SameDictionary(a: Dict, b: Dict)
  {
    && a.words.Keys == b.words.Keys
    && (forall w | w in a.words :: a.words[w].(updatedAt := 0) == b.words[w].(updatedAt := 0))
    && (forall w | w in a.words :: FactsOf(a, w) == FactsOf(b, w))
  }

  /** Performing the same writes again changes nothing. */
  lemma PerformedTwice(d: Dict, once: Dict, twice: Dict, plan: seq<Write>)
    requires Performs(d, once, plan) && Performs(once, twice, plan)
    ensures SameDictionary(once, twice)
  {
    forall w | w in once.words
      ensures FactsOf(once, w) == FactsOf(twice, w)
      ensures once.words[w].(updatedAt := 0) == twice.words[w].(updatedAt := 0)
    {
      assert Fixed(twice.words[w]) == Fixed(once.words[w]);
    }
  }

  /** Seeding is idempotent: from any database, for any file and at any times, a second run changes nothing. */
  lemma {:induction false} SeedIdempotent(d: Dict, entries: seq<SeedEntry>, first: Clock, second: Clock)
    requires Valid(d)
    ensures SameDictionary(Seed(d, entries, first), Seed(Seed(d, entries, first), entries, second))
  {
    hide Performs, SameDictionary, Seed, Plan;
    var once := Seed(d, entries, first);
    SeedValid(d, entries, first);
    var twice := Seed(once, entries, second);
    SeedValid(once, entries, second);
    SeedPerformsPlan(once, entries, second, twice.words);
    SeedExtends(once, entries, second);
    SeedPerformsPlan(d, entries, first, twice.words);
    PerformedTwice(d, once, twice, Plan(twice.words, entries));
  }

  lemma SeedExtends(d: Dict, entries: seq<SeedEntry>, clock: Clock)
    requires Valid(d)
    ensures Extends(d.words, Seed(d, entries, clock).words) && UniqueKeys(Seed(d, entries, clock).words)
  {
    SeedValid(d, entries, clock);
    SeedPerformsPlan(d, entries, clock, Seed(d, entries, clock).words);
  }

  // ---- the same over any link ----

  /** A child table while it is being filled, the supply of ids, and the link. */
  datatype Filling<C> = Filling(rows: seq<Child<C>>, next: Id, link: Link)

  /** One child statement; its error, if any, is ignored. */
  function FillOne<C>(f: Filling<C>, w: Id, body: C, now: Time, overwrite: (C, C) -> C): Filling<C>
  {
    var reply := Call(f.link);
    var rows := if reply.applied then Upsert(f.rows, Child(f.next, w, body, now, now), overwrite) else f.rows;
    Filling(rows, f.next + 1, reply.link)
  }

  function Emptied<C>(f: Filling<C>, w: Id): Filling<C>
  {
    var reply := Call(f.link);
    Filling(if reply.applied then Without(f.rows, w) else f.rows, f.next, reply.link)
  }

  function FillDefinitions(f: Filling<DefinitionBody>, w: Id, meanings: seq<string>, n: nat,
                           now: Time): Filling<DefinitionBody>
    requires n <= |meanings|
  {
    if n == 0 then f
    else
      var before := FillDefinitions(f, w, meanings, n - 1, now);
      if meanings[n - 1] == "" then before
      else FillOne(before, w, DefinitionBody(meanings[n - 1], Int16(n), Seeded, 0, 0), now, OverwriteDefinition)
  }

  function FillExamples(f: Filling<ExampleBody>, w: Id, examples: seq<SeedExample>, n: nat,
                        now: Time): Filling<ExampleBody>
    requires n <= |examples|
  {
    if n == 0 then f
    else
      var before := FillExamples(f, w, examples, n - 1, now);
      if examples[n - 1].banjar == "" then before
      else FillOne(before, w, ExampleBody(examples[n - 1].banjar, examples[n - 1].indonesian, Seeded), now,
                   OverwriteExample)
  }

  /** Where a run has got to: the dictionary, the word of the last entry if it was not skipped, and the link. */
  datatype Progress = Progress(d: Dict, word: Option<Id>, link: Link)

  function RebuiltDefinitions(f: Filling<DefinitionBody>, w: Id, e: SeedEntry, now: Time): Filling<DefinitionBody>
  {
    FillDefinitions(Emptied(f, w), w, e.definitions, |e.definitions|, now)
  }

  function RebuiltExamples(f: Filling<ExampleBody>, w: Id, e: SeedEntry, now: Time): Filling<ExampleBody>
  {
    FillExamples(Emptied(f, w), w, e.examples, |e.examples|, now)
  }

  /** The child statements of one entry. */
  function Rebuilt(d: Dict, link: Link, w: Id, e: SeedEntry, now: Time): Progress
  {
    var defs := RebuiltDefinitions(Filling(d.definitions, d.nextId, link), w, e, now);
    var exs := RebuiltExamples(Filling(d.examples, defs.next, defs.link), w, e, now);
    Progress(Dict(d.words, defs.rows, exs.rows, exs.next), Some(w), exs.link)
  }

  /** One entry: a word class that is not known and an error of the word's statement skip it. */
  ghost function EntryOver(d: Dict, link: Link, e: SeedEntry, root: Option<Id>, clock: Clock): Progress
  {
    match NormalizeWordClass(e.wordClass)
    case None => Progress(d, None, link)
    case Some(wc) =>
      var now, reply := clock(d.nextId), Call(link);
      var (words, w) := UpsertWord(d.words, d.nextId, SeedRow(e, root, wc, now));
      var d1 := d.(words := if reply.applied then words else d.words, nextId := d.nextId + 1);
      if reply.ok then Rebuilt(d1, reply.link, w, e, now) else Progress(d1, None, reply.link)
  }

  ghost function DerivedOver(d: Dict, link: Link, derived: seq<SeedEntry>, root: Id, clock: Clock): Progress
    decreases |derived|
  {
    if derived == [] then Progress(d, Some(root), link)
    else
      var p := EntryOver(d, link, derived[0], Some(root), clock);
      DerivedOver(p.d, p.link, derived[1..], root, clock)
  }

  ghost function SeedOver(d: Dict, link: Link, entries: seq<SeedEntry>, clock: Clock): Progress
    decreases |entries|
  {
    if entries == [] then Progress(d, None, link)
    else
      var p := EntryOver(d, link, entries[0], None, clock);
      var q := if p.word.Some? then DerivedOver(p.d, p.link, entries[0].derivedForms, p.word.value, clock) else p;
      SeedOver(q.d, q.link, entries[1..], clock)
  }

  // ---- whatever fails, the schema's constraints survive ----

  ghost predicate SoundFilling<C>(f: Filling<C>, words: set<Id>)
  {
    ValidRows(f.rows, words, f.next)
  }

  lemma EmptiedSound<C>(f: Filling<C>, w: Id, words: set<Id>)
    requires SoundFilling(f, words)
    ensures SoundFilling(Emptied(f, w), words)
  {
    WithoutValid(f.rows, w, words, f.next);
  }

  lemma FillOneSound<C>(f: Filling<C>, w: Id, body: C, now: Time, overwrite: (C, C) -> C, words: set<Id>)
    requires SoundFilling(f, words) && w in words
    ensures SoundFilling(FillOne(f, w, body, now, overwrite), words)
  {
    ValidRowsMonotone(f.rows, words, f.next, words, f.next + 1);
    UpsertValid(f.rows, Child(f.next, w, body, now, now), overwrite, words, f.next + 1);
  }

  lemma {:induction false} FillDefinitionsSound(f: Filling<DefinitionBody>, w: Id, meanings: seq<string>, n: nat,
                                                now: Time, words: set<Id>)
    requires n <= |meanings| && SoundFilling(f, words) && w in words
    ensures var r := FillDefinitions(f, w, meanings, n, now); SoundFilling(r, words) && f.next <= r.next
  {
    if n > 0 {
      FillDefinitionsSound(f, w, meanings, n - 1, now, words);
      if meanings[n - 1] != "" {
        FillOneSound(FillDefinitions(f, w, meanings, n - 1, now), w,
                     DefinitionBody(meanings[n - 1], Int16(n), Seeded, 0, 0), now, OverwriteDefinition, words);
      }
    }
  }

  lemma {:induction false} FillExamplesSound(f: Filling<ExampleBody>, w: Id, examples: seq<SeedExample>, n: nat,
                                             now: Time, words: set<Id>)
    requires n <= |examples| && SoundFilling(f, words) && w in words
    ensures var r := FillExamples(f, w, examples, n, now); SoundFilling(r, words) && f.next <= r.next
  {
    if n > 0 {
      FillExamplesSound(f, w, examples, n - 1, now, words);
      if examples[n - 1].banjar != "" {
        FillOneSound(FillExamples(f, w, examples, n - 1, now), w,
                     ExampleBody(examples[n - 1].banjar, examples[n - 1].indonesian, Seeded), now, OverwriteExample,
                         words);
      }
    }
  }

  lemma RebuiltValid(d: Dict, link: Link, w: Id, e: SeedEntry, now: Time)
    requires Valid(d) && w in d.words
    ensures var p := Rebuilt(d, link, w, e, now); Valid(p.d) && p.d.words == d.words && p.word == Some(w)
  {
    var words := d.words.Keys;
    var f := Filling(d.definitions, d.nextId, link);
    EmptiedSound(f, w, words);
    FillDefinitionsSound(Emptied(f, w), w, e.definitions, |e.definitions|, now, words);
    var defs := FillDefinitions(Emptied(f, w), w, e.definitions, |e.definitions|, now);
    var g := Filling(d.examples, defs.next, defs.link);
    ValidRowsMonotone(d.examples, words, d.nextId, words, defs.next);
    EmptiedSound(g, w, words);
    FillExamplesSound(Emptied(g, w), w, e.examples, |e.examples|, now, words);
    var exs := FillExamples(Emptied(g, w), w, e.examples, |e.examples|, now);
    ValidRowsMonotone(defs.rows, words, defs.next, words, exs.next);
    ValidWordsMonotone(d.words, d.nextId, exs.next);
  }

  lemma WordWrittenValid(d: Dict, words: map<Id, WordRow>, next: Id)
    requires Valid(d) && ValidWords(words, next) && d.words.Keys <= words.Keys && d.nextId <= next
    ensures Valid(d.(words := words, nextId := next))
  {
    ValidRowsMonotone(d.definitions, d.words.Keys, d.nextId, words.Keys, next);
    ValidRowsMonotone(d.examples, d.words.Keys, d.nextId, words.Keys, next);
  }

  lemma EntryOverValid(d: Dict, link: Link, e: SeedEntry, root: Option<Id>, clock: Clock)
    requires Valid(d) && (root.Some? ==> root.value in d.words)
    ensures var p := EntryOver(d, link, e, root, clock);
      Valid(p.d) && d.words.Keys <= p.d.words.Keys && (p.word.Some? ==> p.word.value in p.d.words)
  {
    match NormalizeWordClass(e.wordClass)
    case None =>
    case Some(wc) =>
      var row := SeedRow(e, root, wc, clock(d.nextId));
      var (words, w) := UpsertWord(d.words, d.nextId, row);
      UpsertWordValid(d.words, d.nextId, row);
      UpsertWordHolds(d.words, d.nextId, row);
      ValidWordsMonotone(d.words, d.nextId, d.nextId + 1);
      var written := if Call(link).applied then words else d.words;
      WordWrittenValid(d, written, d.nextId + 1);
      if Call(link).ok {
        RebuiltValid(d.(words := words, nextId := d.nextId + 1), Call(link).link, w, e, clock(d.nextId));
      }
  }

  lemma {:induction false} DerivedOverValid(d: Dict, link: Link, derived: seq<SeedEntry>, root: Id, clock: Clock)
    requires Valid(d) && root in d.words
    ensures Valid(DerivedOver(d, link, derived, root, clock).d)
    decreases |derived|
  {
    if derived != [] {
      EntryOverValid(d, link, derived[0], Some(root), clock);
      var p := EntryOver(d, link, derived[0], Some(root), clock);
      DerivedOverValid(p.d, p.link, derived[1..], root, clock);
    }
  }

  lemma {:induction false} SeedOverValid(d: Dict, link: Link, entries: seq<SeedEntry>, clock: Clock)
    requires Valid(d)
    ensures Valid(SeedOver(d, link, entries, clock).d)
    decreases |entries|
  {
    if entries != [] {
      var p := EntryOver(d, link, entries[0], None, clock);
      EntryOverValid(d, link, entries[0], None, clock);
      if p.word.Some? {
        DerivedOverValid(p.d, p.link, entries[0].derivedForms, p.word.value, clock);
        var q := DerivedOver(p.d, p.link, entries[0].derivedForms, p.word.value, clock);
        SeedOverValid(q.d, q.link, entries[1..], clock);
      } else {
        SeedOverValid(p.d, p.link, entries[1..], clock);
      }
    }
  }

  /**
   * So a run that failed at any of its statements is repaired by running the seeder again, and running it once more
   * changes nothing.
   */
  lemma SeedRepairs(d: Dict, link: Link, entries: seq<SeedEntry>, first: Clock, second: Clock, third: Clock)
    requires Valid(d)
    ensures var failed := SeedOver(d, link, entries, first).d;
      var repaired := Seed(failed, entries, second);
      && Performs(failed, repaired, Plan(repaired.words, entries))
      && SameDictionary(repaired, Seed(repaired, entries, third))
  {
    var failed := SeedOver(d, link, entries, first).d;
    SeedOverValid(d, link, entries, first);
    SeedValid(failed, entries, second);
    SeedPerformsPlan(failed, entries, second, Seed(failed, entries, second).words);
    SeedIdempotent(failed, entries, second, third);
  }

  // ---- over a good link it is the seeding function ----

  ghost predicate IdsBelow<C>(rows: seq<Child<C>>, next: Id) { forall i | 0 <= i < |rows| :: rows[i].id < next }

  /** Upserting a fresh row under a word that is being filled appends it. */
  lemma UpsertNewRow<C>(base: seq<Child<C>>, w: Id, bodies: seq<C>, body: C, now: Time, first: Id,
                        overwrite: (C, C) -> C)
    requires IdsBelow(base, first)
    ensures Upsert(base + NewRows(w, bodies, now, first), Child(first + |bodies|, w, body, now, now), overwrite)
      == base + NewRows(w, bodies + [body], now, first)
  {
    var rows := NewRows(w, bodies, now, first);
    UpsertFreshAppends(base + rows, Child(first + |bodies|, w, body, now, now), overwrite);
    assert NewRows(w, bodies + [body], now, first) == rows + [Child(first + |bodies|, w, body, now, now)];
  }

  lemma WithoutBelow<C>(rows: seq<Child<C>>, w: Id, next: Id)
    requires IdsBelow(rows, next)
    ensures IdsBelow(Without(rows, w), next)
  {
    WithoutMembers(rows, w);
  }

  lemma NoNewRows<C>(base: seq<Child<C>>, w: Id, bodies: seq<C>, now: Time, first: Id)
    requires bodies == []
    ensures base + NewRows(w, bodies, now, first) == base
  {
  }

  lemma {:induction false} GoodDefinitions(base: seq<Child<DefinitionBody>>, w: Id, meanings: seq<string>, n: nat,
                                           now: Time, first: Id)
    requires n <= |meanings| && IdsBelow(base, first)
    ensures var bodies := SeedDefinitions(meanings, n);
      FillDefinitions(Filling(base, first, Up), w, meanings, n, now)
        == Filling(base + NewRows(w, bodies, now, first), first + |bodies|, Up)
  {
    if n == 0 {
      NoNewRows(base, w, SeedDefinitions(meanings, 0), now, first);
    } else {
      GoodDefinitions(base, w, meanings, n - 1, now, first);
      var body := DefinitionBody(meanings[n - 1], Int16(n), Seeded, 0, 0);
      UpsertNewRow(base, w, SeedDefinitions(meanings, n - 1), body, now, first, OverwriteDefinition);
    }
  }

  lemma {:induction false} GoodExamples(base: seq<Child<ExampleBody>>, w: Id, examples: seq<SeedExample>, n: nat,
                                        now: Time, first: Id)
    requires n <= |examples| && IdsBelow(base, first)
    ensures var bodies := SeedExamples(examples, n);
      FillExamples(Filling(base, first, Up), w, examples, n, now)
        == Filling(base + NewRows(w, bodies, now, first), first + |bodies|, Up)
  {
    if n == 0 {
      NoNewRows(base, w, SeedExamples(examples, 0), now, first);
    } else {
      GoodExamples(base, w, examples, n - 1, now, first);
      var body := ExampleBody(examples[n - 1].banjar, examples[n - 1].indonesian, Seeded);
      UpsertNewRow(base, w, SeedExamples(examples, n - 1), body, now, first, OverwriteExample);
    }
  }

  lemma GoodEntryDefinitions(rows: seq<Child<DefinitionBody>>, w: Id, e: SeedEntry, now: Time, first: Id)
    requires IdsBelow(rows, first)
    ensures RebuiltDefinitions(Filling(rows, first, Up), w, e, now)
      == Filling(Without(rows, w) + NewRows(w, EntryDefinitions(e), now, first), first + |EntryDefinitions(e)|, Up)
  {
    WithoutBelow(rows, w, first);
    GoodDefinitions(Without(rows, w), w, e.definitions, |e.definitions|, now, first);
  }

  lemma GoodEntryExamples(rows: seq<Child<ExampleBody>>, w: Id, e: SeedEntry, now: Time, first: Id)
    requires IdsBelow(rows, first)
    ensures RebuiltExamples(Filling(rows, first, Up), w, e, now)
      == Filling(Without(rows, w) + NewRows(w, EntryExamples(e), now, first), first + |EntryExamples(e)|, Up)
  {
    WithoutBelow(rows, w, first);
    GoodExamples(Without(rows, w), w, e.examples, |e.examples|, now, first);
  }

  lemma RebuiltFrom(d: Dict, w: Id, e: SeedEntry, now: Time, defs: Filling<DefinitionBody>, exs: Filling<ExampleBody>)
    requires defs == RebuiltDefinitions(Filling(d.definitions, d.nextId, Up), w, e, now)
    requires exs == RebuiltExamples(Filling(d.examples, defs.next, defs.link), w, e, now)
    ensures Rebuilt(d, Up, w, e, now) == Progress(Dict(d.words, defs.rows, exs.rows, exs.next), Some(w), exs.link)
  {
  }

  lemma GoodRebuilt(d: Dict, words: map<Id, WordRow>, w: Id, e: SeedEntry, now: Time)
    requires IdsBelow(d.definitions, d.nextId) && IdsBelow(d.examples, d.nextId)
    ensures Rebuilt(d.(words := words, nextId := d.nextId + 1), Up, w, e, now)
      == Progress(ReplaceChildren(d, words, w, EntryDefinitions(e), EntryExamples(e), now), Some(w), Up)
  {
    hide Without, NewRows, FillDefinitions, FillExamples;
    var first := d.nextId + 1;
    var defs := RebuiltDefinitions(Filling(d.definitions, first, Up), w, e, now);
    var exs := RebuiltExamples(Filling(d.examples, defs.next, defs.link), w, e, now);
    RebuiltFrom(d.(words := words, nextId := first), w, e, now, defs, exs);
    GoodEntryDefinitions(d.definitions, w, e, now, first);
    GoodEntryExamples(d.examples, w, e, now, first + |EntryDefinitions(e)|);
    ReplacedIs(d, words, w, EntryDefinitions(e), EntryExamples(e), now, defs.rows, exs.rows);
  }

  lemma ReplacedIs(d: Dict, words: map<Id, WordRow>, w: Id, defs: seq<DefinitionBody>, exs: seq<ExampleBody>, now: Time,
                   a: seq<Child<DefinitionBody>>, b: seq<Child<ExampleBody>>)
    requires a == Without(d.definitions, w) + NewRows(w, defs, now, d.nextId + 1)
    requires b == Without(d.examples, w) + NewRows(w, exs, now, d.nextId + 1 + |defs|)
    ensures ReplaceChildren(d, words, w, defs, exs, now) == Dict(words, a, b, d.nextId + 1 + |defs| + |exs|)
  {
  }

  lemma GoodEntry(d: Dict, e: SeedEntry, root: Option<Id>, clock: Clock)
    requires Valid(d)
    ensures var (d', w) := UpsertEntry(d, e, root, clock); EntryOver(d, Up, e, root, clock) == Progress(d', w, Up)
  {
    match NormalizeWordClass(e.wordClass)
    case None =>
    case Some(wc) =>
      var (words, w) := UpsertWord(d.words, d.nextId, SeedRow(e, root, wc, clock(d.nextId)));
      GoodRebuilt(d, words, w, e, clock(d.nextId));
  }

  lemma {:induction false} GoodDerived(d: Dict, derived: seq<SeedEntry>, root: Id, clock: Clock)
    requires Valid(d) && root in d.words
    ensures DerivedOver(d, Up, derived, root, clock) == Progress(SeedDerived(d, derived, root, clock), Some(root), Up)
    decreases |derived|
  {
    if derived != [] {
      GoodEntry(d, derived[0], Some(root), clock);
      EntryValid(d, derived[0], Some(root), clock);
      GoodDerived(UpsertEntry(d, derived[0], Some(root), clock).0, derived[1..], root, clock);
    }
  }

  /** When no statement fails, a run is the seeding function that the results above are about. */
  lemma {:induction false} GoodSeed(d: Dict, entries: seq<SeedEntry>, clock: Clock)
    requires Valid(d)
    ensures SeedOver(d, Up, entries, clock)
      == Progress(Seed(d, entries, clock), SeedOver(d, Up, entries, clock).word, Up)
    decreases |entries|
  {
    if entries != [] {
      var (d1, root) := UpsertEntry(d, entries[0], None, clock);
      GoodEntry(d, entries[0], None, clock);
      EntryValid(d, entries[0], None, clock);
      if root.Some? {
        GoodDerived(d1, entries[0].derivedForms, root.value, clock);
        DerivedValid(d1, entries[0].derivedForms, root.value, clock);
        GoodSeed(SeedDerived(d1, entries[0].derivedForms, root.value, clock), entries[1..], clock);
      } else {
        GoodSeed(d1, entries[1..], clock);
      }
    }
  }

  // ---- the loops themselves ----

  method ReplaceDefinitions(q: Queries.Queries, w: Id, meanings: seq<string>, now: Time)
    modifies q
    ensures var f := Emptied(Filling(old(q.d.definitions), old(q.d.nextId), old(q.link)), w);
      var f := FillDefinitions(f, w, meanings, |meanings|, now);
      q.d == old(q.d).(definitions := f.rows, nextId := f.next) && q.link == f.link
  {
    var _ := q.DeleteDefinitionsByWordID(w);
    ghost var f := Filling(q.d.definitions, q.d.nextId, q.link);
    for i := 0 to |meanings|
      invariant q.d.words == old(q.d.words) && q.d.examples == old(q.d.examples)
      invariant Filling(q.d.definitions, q.d.nextId, q.link) == FillDefinitions(f, w, meanings, i, now)
    {
      if meanings[i] == "" {
        continue;
      }
      var id := q.NewId();
      var _ := q.UpsertDefinition(Child(id, w, DefinitionBody(meanings[i], Int16(i + 1), Seeded, 0, 0), now, now));
    }
  }

  method ReplaceExamples(q: Queries.Queries, w: Id, examples: seq<SeedExample>, now: Time)
    modifies q
    ensures var f := Emptied(Filling(old(q.d.examples), old(q.d.nextId), old(q.link)), w);
      var f := FillExamples(f, w, examples, |examples|, now);
      q.d == old(q.d).(examples := f.rows, nextId := f.next) && q.link == f.link
  {
    var _ := q.DeleteExamplesByWordID(w);
    ghost var f := Filling(q.d.examples, q.d.nextId, q.link);
    for i := 0 to |examples|
      invariant q.d.words == old(q.d.words) && q.d.definitions == old(q.d.definitions)
      invariant Filling(q.d.examples, q.d.nextId, q.link) == FillExamples(f, w, examples, i, now)
    {
      if examples[i].banjar == "" {
        continue;
      }
      var id := q.NewId();
      var _ := q.UpsertExample(Child(id, w, ExampleBody(examples[i].banjar, examples[i].indonesian, Seeded), now, now));
    }
  }

  method RebuildChildren(q: Queries.Queries, w: Id, e: SeedEntry, now: Time)
    modifies q
    ensures Progress(q.d, Some(w), q.link) == Rebuilt(old(q.d), old(q.link), w, e, now)
  {
    ReplaceDefinitions(q, w, e.definitions, now);
    ReplaceExamples(q, w, e.examples, now);
  }

  /** upsertEntry: errors of the child statements are ignored. */
  method ImportEntry(q: Queries.Queries, e: SeedEntry, root: Option<Id>, clock: Clock) returns (w: Option<Id>)
    requires UniqueKeys(q.d.words)
    modifies q
    ensures Progress(q.d, w, q.link) == EntryOver(old(q.d), old(q.link), e, root, clock)
  {
    hide Rebuilt;
    var wordClass := NormalizeWordClass(e.wordClass);
    if wordClass.None? {
      return None;
    }
    var now := clock(q.d.nextId);
    var id := q.NewId();
    var ok, word := q.UpsertWord(id, SeedRow(e, root, wordClass.value, now));
    if !ok {
      return None;
    }
    RebuildChildren(q, word, e, now);
    w := Some(word);
  }

  /** The seeding loop: roots in file order, each followed by its derived forms; what is skipped is logged and left. */
  method Import(q: Queries.Queries, entries: seq<SeedEntry>, clock: Clock)
    requires Valid(q.d)
    modifies q
    ensures var p := SeedOver(old(q.d), old(q.link), entries, clock); q.d == p.d && q.link == p.link
  {
    for i := 0 to |entries|
      invariant Valid(q.d)
      invariant var p, all := SeedOver(q.d, q.link, entries[i..], clock),
          SeedOver(old(q.d), old(q.link), entries, clock);
        p.d == all.d && p.link == all.link
    {
      var entry := entries[i];
      assert entries[i..][1..] == entries[i + 1..];
      EntryOverValid(q.d, q.link, entry, None, clock);
      var root := ImportEntry(q, entry, None, clock);
      if root.None? {
        continue;
      }
      ghost var d, link := q.d, q.link;
      for j := 0 to |entry.derivedForms|
        invariant Valid(q.d) && root.value in q.d.words
        invariant DerivedOver(q.d, q.link, entry.derivedForms[j..], root.value, clock)
          == DerivedOver(d, link, entry.derivedForms, root.value, clock)
      {
        assert entry.derivedForms[j..][1..] == entry.derivedForms[j + 1..];
        EntryOverValid(q.d, q.link, entry.derivedForms[j], root, clock);
        var _ := ImportEntry(q, entry.derivedForms[j], root, clock);
      }
    }
  }
}
