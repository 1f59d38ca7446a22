/** What the seeder does with a file, told in the file's own terms: which word an entry is, and what it leaves there. */
module SeedEffects {
  import opened Common
  import opened Dictionary
  import opened Seeder
  import opened WordEffects

  // ---- the word an entry names ----

  predicate Accepted(e: SeedEntry) { NormalizeWordClass(e.wordClass).Some? }

  predicate AllQuotes(s: string) { forall i | 0 <= i < |s| :: s[i] in {'`', '\'', '"'} }

  /** The class of an entry is that of a code followed by quote marks only. */
  lemma ClassIff(e: SeedEntry, wc: WordClass)
    ensures NormalizeWordClass(e.wordClass) == Some(wc)
      <==> exists quotes :: CodeText(wc) + quotes == e.wordClass && AllQuotes(quotes)
  {
    hide NormalizeWordClass, CodeText, WordClassCode;
    var s := e.wordClass;
    WordClassAccepted(s, wc);
    if n :| 0 <= n <= |s| && WordClassCode(s[..n]) == Some(wc) && forall i | n <= i < |s| :: IsQuote(s[i]) {
      CodeRoundTrip(s[..n], wc);
      assert forall i | 0 <= i < |s[n..]| :: IsQuote(s[n + i]) && s[n..][i] == s[n + i];
      assert CodeText(wc) + s[n..] == s && AllQuotes(s[n..]);
    }
    if quotes :| CodeText(wc) + quotes == s && AllQuotes(quotes) {
      var n := |CodeText(wc)|;
      assert s[..n] == CodeText(wc) && forall i | n <= i < |s| :: s[i] == quotes[i - n] && IsQuote(s[i]);
      CodeRoundTrip(s[..n], wc);
    }
  }

  /** A homonym number counts as it is once it is cut to 16 bits, unless that leaves none. */
  predicate Counts(number: int, homonym: int)
  {
    homonym >= 1 && (Int16(number) >= 1 ==> homonym == Int16(number)) && (Int16(number) < 1 ==> homonym == 1)
  }

  /** The row is the entry's: its spelling, homonym number and root; a root itself if it has none or is not derived. */
  predicate Names(row: WordRow, e: SeedEntry, root: Option<Id>)
  {
    && row.banjar == e.banjar && row.dialect == Hulu && Counts(e.homonymNumber, row.homonym)
    && row.isRoot == (root.None? || !e.isDerived) && row.root == root
  }

  /** In a table without double keys an accepted entry lands on a word exactly when the word is the entry's. */
  lemma TargetIff(words: map<Id, WordRow>, e: SeedEntry, root: Option<Id>, w: Id)
    requires UniqueKeys(words)
    ensures Target(words, e, root) == Some(w) <==> Accepted(e) && w in words && Names(words[w], e, root)
  {
    if Accepted(e) {
      var key := KeyOf(SeedRow(e, root, NormalizeWordClass(e.wordClass).value, 0));
      assert w in words ==> (Names(words[w], e, root) <==> KeyOf(words[w]) == key);
    }
  }

  // ---- one entry ----

  /** A word of its own for an entry nothing names yet. */
  predicate IsNewRow(row: WordRow, e: SeedEntry, now: Time)
  {
    && row.status == Active && row.source == Seeded && row.createdBy == None && row.deletedAt == None
    && row.createdAt == now
    && row.syllabified == if e.syllabified in {"", e.banjar} then None else Some(e.syllabified)
  }

  /** What is left once class, reference and time of the last update are taken for the old ones. */
  predicate KeepsTheRest(row: WordRow, prior: WordRow)
  {
    row.(wordClass := prior.wordClass, reference := prior.reference, updatedAt := prior.updatedAt) == prior
  }

  /** The word's statement: the word the entry names takes its class and reference, and no other word changes. */
  ghost predicate WordLands(words: map<Id, WordRow>, next: Id, words': map<Id, WordRow>, w: Id, e: SeedEntry,
                            root: Option<Id>, now: Time)
  {
    && w in words' && words'.Keys == words.Keys + {w} && (forall x | x in words && x != w :: words'[x] == words[x])
    && var row := words'[w];
    && Names(row, e, root) && NormalizeWordClass(e.wordClass) == Some(row.wordClass) && row.updatedAt == now
    && row.reference == (if e.sourceReference == "" then None else Some(e.sourceReference))
    && if w in words then KeepsTheRest(row, words[w]) else w == next && IsNewRow(row, e, now)
  }

  lemma UpsertedLands(words: map<Id, WordRow>, next: Id, e: SeedEntry, root: Option<Id>, now: Time)
    requires Accepted(e) && next !in words
    ensures var row := SeedRow(e, root, NormalizeWordClass(e.wordClass).value, now);
      var (words', w) := UpsertWord(words, next, row);
      WordLands(words, next, words', w, e, root, now)
  {
  }

  /**
   * Over any link: an entry is skipped if its class is unknown or its word's statement fails; else its word is the one
   * it names.
   */
  lemma EntryLands(d: Dict, link: Link, e: SeedEntry, root: Option<Id>, clock: Clock)
    requires Valid(d)
    ensures var p := EntryOver(d, link, e, root, clock);
      && (p.word.Some? <==> Accepted(e) && Call(link).ok)
      && (!Accepted(e) ==> p.d == d && p.link == link)
      && (p.word.Some? ==> WordLands(d.words, d.nextId, p.d.words, p.word.value, e, root, clock(d.nextId)))
  {
    hide Rebuilt, UpsertWord, WordLands, SeedRow;
    if Accepted(e) {
      var now := clock(d.nextId);
      UpsertedLands(d.words, d.nextId, e, root, now);
      var (words, w) := UpsertWord(d.words, d.nextId, SeedRow(e, root, NormalizeWordClass(e.wordClass).value, now));
      RebuiltKeepsWords(d.(words := words, nextId := d.nextId + 1), Call(link).link, w, e, now);
    }
  }

  lemma RebuiltKeepsWords(d: Dict, link: Link, w: Id, e: SeedEntry, now: Time)
    ensures var p := Rebuilt(d, link, w, e, now); p.d.words == d.words && p.word == Some(w)
  {
  }

  // ---- its children ----

  /** How many of the first n meanings are not blank. */
  function Meant(meanings: seq<string>, n: nat): nat
    requires n <= |meanings|
  {
    if n == 0 then 0 else Meant(meanings, n - 1) + CountIf(meanings[n - 1] != "")
  }

  function Spoken(examples: seq<SeedExample>, n: nat): nat
    requires n <= |examples|
  {
    if n == 0 then 0 else Spoken(examples, n - 1) + CountIf(examples[n - 1].banjar != "")
  }

  /** One body for each meaning that is not blank, in order, with its place in the list as sort order. */
  predicate AreMeanings(bodies: seq<DefinitionBody>, meanings: seq<string>)
  {
    && |bodies| == Meant(meanings, |meanings|)
    && forall i | 0 <= i < |meanings| && meanings[i] != "" ::
      Meant(meanings, i) < |bodies|
      && bodies[Meant(meanings, i)] == DefinitionBody(meanings[i], Int16(i + 1), Seeded, 0, 0)
  }

  /** One body for each example that has a sentence, in order, with its own translation. */
  predicate AreExamples(bodies: seq<ExampleBody>, examples: seq<SeedExample>)
  {
    && |bodies| == Spoken(examples, |examples|)
    && forall i | 0 <= i < |examples| && examples[i].banjar != "" ::
      Spoken(examples, i) < |bodies|
      && bodies[Spoken(examples, i)] == ExampleBody(examples[i].banjar, examples[i].indonesian, Seeded)
  }

  lemma {:induction false} SeedDefinitionsAt(meanings: seq<string>, n: nat)
    requires n <= |meanings|
    ensures |SeedDefinitions(meanings, n)| == Meant(meanings, n)
    ensures forall i | 0 <= i < n && meanings[i] != "" ::
      Meant(meanings, i) < Meant(meanings, n)
      && SeedDefinitions(meanings, n)[Meant(meanings, i)] == DefinitionBody(meanings[i], Int16(i + 1), Seeded, 0, 0)
  {
    if n > 0 {
      SeedDefinitionsAt(meanings, n - 1);
    }
  }

  lemma {:induction false} SeedExamplesAt(examples: seq<SeedExample>, n: nat)
    requires n <= |examples|
    ensures |SeedExamples(examples, n)| == Spoken(examples, n)
    ensures forall i | 0 <= i < n && examples[i].banjar != "" ::
      Spoken(examples, i) < Spoken(examples, n)
      && SeedExamples(examples, n)[Spoken(examples, i)]
        == ExampleBody(examples[i].banjar, examples[i].indonesian, Seeded)
  {
    if n > 0 {
      SeedExamplesAt(examples, n - 1);
    }
  }

  /** Of the statements xs, those that take effect over the link; a failing one does not stop the others. */
  function Taken<T>(xs: seq<T>, link: Link): (r: seq<T>)
    decreases |xs|
    ensures link.Up? ==> r == xs
  {
    if xs == [] then []
    else
      var reply := Call(link);
      (if reply.applied then [xs[0]] else []) + Taken(xs[1..], reply.link)
  }

  function AfterCalls(link: Link, n: nat): Link
    decreases n
  {
    if n == 0 then link else AfterCalls(Call(link).link, n - 1)
  }

  lemma {:induction false} TakenSnoc<T>(xs: seq<T>, x: T, link: Link)
    ensures var reply := Call(AfterCalls(link, |xs|));
      && Taken(xs + [x], link) == Taken(xs, link) + (if reply.applied then [x] else [])
      && AfterCalls(link, |xs| + 1) == reply.link
    decreases |xs|
  {
    if xs == [] {
      assert [x][1..] == [] && [] + [x] == [x];
    } else {
      assert (xs + [x])[1..] == xs[1..] + [x];
      TakenSnoc(xs[1..], x, Call(link).link);
    }
  }

  /** What a table holds once the statements of a word's children are through. */
  ghost predicate Filled<C>(f: Filling<C>, g: Filling<C>, w: Id, bodies: seq<C>)
  {
    && g.next == f.next + |bodies| && g.link == AfterCalls(f.link, |bodies|)
    && IdsBelow(g.rows, g.next)
    && (forall x :: Bodies(RowsOf(g.rows, x)) == Bodies(RowsOf(f.rows, x))
                    + if x == w then Taken(bodies, f.link) else [])
  }

  lemma FilledOne<C>(f: Filling<C>, g: Filling<C>, w: Id, bodies: seq<C>, body: C, now: Time, overwrite: (C, C) -> C)
    requires Filled(f, g, w, bodies)
    ensures Filled(f, FillOne(g, w, body, now, overwrite), w, bodies + [body])
  {
    TakenSnoc(bodies, body, f.link);
    var row := Child(g.next, w, body, now, now);
    var h := FillOne(g, w, body, now, overwrite);
    UpsertFreshAppends(g.rows, row, overwrite);
    forall x ensures Bodies(RowsOf(h.rows, x)) == Bodies(RowsOf(f.rows, x))
      + if x == w then Taken(bodies + [body], f.link) else [] {
      RowsOfAppend(g.rows, [row], x);
      RowsOfOwn([row], w, x);
      assert Bodies(RowsOf(h.rows, x))
        == Bodies(RowsOf(g.rows, x)) + if x == w && Call(g.link).applied then [body] else [];
    }
  }

  lemma {:induction false} DefinitionsFilled(f: Filling<DefinitionBody>, w: Id, meanings: seq<string>, n: nat,
                                             now: Time)
    requires n <= |meanings| && IdsBelow(f.rows, f.next)
    ensures Filled(f, FillDefinitions(f, w, meanings, n, now), w, SeedDefinitions(meanings, n))
  {
    hide Filled;
    if n == 0 {
      NothingFilled(f, w);
    } else {
      DefinitionsFilled(f, w, meanings, n - 1, now);
      if meanings[n - 1] != "" {
        FilledOne(f, FillDefinitions(f, w, meanings, n - 1, now), w, SeedDefinitions(meanings, n - 1),
                  DefinitionBody(meanings[n - 1], Int16(n), Seeded, 0, 0), now, OverwriteDefinition);
      }
    }
  }

  lemma {:induction false} ExamplesFilled(f: Filling<ExampleBody>, w: Id, examples: seq<SeedExample>, n: nat,
                                          now: Time)
    requires n <= |examples| && IdsBelow(f.rows, f.next)
    ensures Filled(f, FillExamples(f, w, examples, n, now), w, SeedExamples(examples, n))
  {
    hide Filled;
    if n == 0 {
      NothingFilled(f, w);
    } else {
      ExamplesFilled(f, w, examples, n - 1, now);
      if examples[n - 1].banjar != "" {
        FilledOne(f, FillExamples(f, w, examples, n - 1, now), w, SeedExamples(examples, n - 1),
                  ExampleBody(examples[n - 1].banjar, examples[n - 1].indonesian, Seeded), now, OverwriteExample);
      }
    }
  }

  lemma NothingFilled<C>(f: Filling<C>, w: Id)
    requires IdsBelow(f.rows, f.next)
    ensures Filled(f, f, w, [])
  {
    assert forall x :: Bodies(RowsOf(f.rows, x)) + [] == Bodies(RowsOf(f.rows, x));
  }

  /** What the delete leaves of the word's rows. */
  function Spared<C>(bodies: seq<C>, link: Link): seq<C>
  {
    if Call(link).applied then [] else bodies
  }

  lemma EmptiedLeaves<C>(f: Filling<C>, w: Id, x: Id)
    ensures Bodies(RowsOf(Emptied(f, w).rows, x))
      == if x == w then Spared(Bodies(RowsOf(f.rows, x)), f.link) else Bodies(RowsOf(f.rows, x))
  {
    DeleteEmptiesOnlyItsWord(f.rows, w, x);
  }

  /**
   * Over any link: the word has what its delete spared and, of the file's definitions and examples, those whose
   * statements take effect; every other word's are as they were.
   */
  lemma ChildrenLeft(d: Dict, link: Link, w: Id, e: SeedEntry, now: Time, x: Id)
    requires IdsBelow(d.definitions, d.nextId) && IdsBelow(d.examples, d.nextId)
    ensures var d', defs := Rebuilt(d, link, w, e, now).d, EntryDefinitions(e);
      var link2 := AfterCalls(Call(link).link, |defs|);
      var before, beforeExs := Bodies(RowsOf(d.definitions, x)), Bodies(RowsOf(d.examples, x));
      && Bodies(RowsOf(d'.definitions, x))
         == (if x == w then Spared(before, link) + Taken(defs, Call(link).link) else before)
      && Bodies(RowsOf(d'.examples, x))
         == (if x == w then Spared(beforeExs, link2) + Taken(EntryExamples(e), Call(link2).link) else beforeExs)
    ensures AreMeanings(EntryDefinitions(e), e.definitions) && AreExamples(EntryExamples(e), e.examples)
  {
    SeedDefinitionsAt(e.definitions, |e.definitions|);
    SeedExamplesAt(e.examples, |e.examples|);
    var f := Filling(d.definitions, d.nextId, link);
    WithoutBelow(d.definitions, w, d.nextId);
    DefinitionsFilled(Emptied(f, w), w, e.definitions, |e.definitions|, now);
    EmptiedLeaves(f, w, x);
    var defs := RebuiltDefinitions(f, w, e, now);
    var g := Filling(d.examples, defs.next, defs.link);
    WithoutBelow(d.examples, w, defs.next);
    ExamplesFilled(Emptied(g, w), w, e.examples, |e.examples|, now);
    EmptiedLeaves(g, w, x);
  }

  /** When no statement fails the word has the entry's meanings and examples and nothing else. */
  lemma EntryChildren(d: Dict, e: SeedEntry, root: Option<Id>, clock: Clock)
    requires Valid(d) && (root.Some? ==> root.value in d.words) && Accepted(e)
    ensures var (d', w) := UpsertEntry(d, e, root, clock);
      && w.Some? && w.value in d'.words && Names(d'.words[w.value], e, root)
      && AreMeanings(Bodies(RowsOf(d'.definitions, w.value)), e.definitions)
      && AreExamples(Bodies(RowsOf(d'.examples, w.value)), e.examples)
  {
    var (d', w) := UpsertEntry(d, e, root, clock);
    var wc := NormalizeWordClass(e.wordClass).value;
    GoodEntry(d, e, root, clock);
    EntryLands(d, Up, e, root, clock);
    KnownFacts(d, e, root, wc, clock(d.nextId), w.value);
    SeedDefinitionsAt(e.definitions, |e.definitions|);
    SeedExamplesAt(e.examples, |e.examples|);
  }

  ghost predicate Stamped<C>(rows: seq<Child<C>>, now: Time)
  {
    forall i | 0 <= i < |rows| :: rows[i].createdAt == now && rows[i].updatedAt == now
  }

  lemma NewRowsStamped<C>(rows: seq<Child<C>>, w: Id, bodies: seq<C>, now: Time, next: Id)
    ensures Stamped(RowsOf(Without(rows, w) + NewRows(w, bodies, now, next), w), now)
  {
    ReplacedRows(rows, NewRows(w, bodies, now, next), w, w);
  }

  /** And they are as old as the entry's word statement. */
  lemma ChildrenStamped(d: Dict, e: SeedEntry, root: Option<Id>, clock: Clock)
    requires Accepted(e)
    ensures var (d', w), now := UpsertEntry(d, e, root, clock), clock(d.nextId);
      && w.Some?
      && Stamped(RowsOf(d'.definitions, w.value), now) && Stamped(RowsOf(d'.examples, w.value), now)
  {
    hide Stamped, RowsOf, Without, NewRows, EntryDefinitions, EntryExamples, UpsertWord, SeedRow;
    var (d', w) := UpsertEntry(d, e, root, clock);
    var now, defs, exs := clock(d.nextId), EntryDefinitions(e), EntryExamples(e);
    NewRowsStamped(d.definitions, w.value, defs, now, d.nextId + 1);
    NewRowsStamped(d.examples, w.value, exs, now, d.nextId + 1 + |defs|);
  }

  // ---- a whole file ----

  /** After a run the table holds the words of an accepted root and of its accepted derived forms. */
  ghost predicate Landed(words: map<Id, WordRow>, e: SeedEntry)
  {
    Accepted(e) ==>
      && Target(words, e, None).Some?
      && forall k | 0 <= k < |e.derivedForms| && Accepted(e.derivedForms[k]) ::
        Target(words, e.derivedForms[k], Target(words, e, None)).Some?
  }

  lemma {:induction false} DerivedLand(d: Dict, derived: seq<SeedEntry>, root: Id, clock: Clock,
                                       final: map<Id, WordRow>)
    requires Valid(d) && root in d.words
    requires UniqueKeys(final) && Extends(SeedDerived(d, derived, root, clock).words, final)
    ensures forall k | 0 <= k < |derived| && Accepted(derived[k]) :: Target(final, derived[k], Some(root)).Some?
    decreases |derived|
  {
    if derived != [] {
      var d1 := UpsertEntry(d, derived[0], Some(root), clock).0;
      EntryValid(d, derived[0], Some(root), clock);
      DerivedLand(d1, derived[1..], root, clock, final);
      DerivedPerforms(d1, derived[1..], root, clock, SeedDerived(d1, derived[1..], root, clock).words) by {
        DerivedValid(d1, derived[1..], root, clock);
      }
      ExtendsTransitive(d1.words, SeedDerived(d1, derived[1..], root, clock).words, final);
      EntryPerforms(d, derived[0], Some(root), clock, final);
      forall k | 0 <= k < |derived| && Accepted(derived[k]) ensures Target(final, derived[k], Some(root)).Some? {
        if k > 0 {
          assert derived[k] == derived[1..][k - 1];
        }
      }
    }
  }

  lemma {:induction false} AllLand(d: Dict, entries: seq<SeedEntry>, clock: Clock, final: map<Id, WordRow>)
    requires Valid(d) && UniqueKeys(final) && Extends(Seed(d, entries, clock).words, final)
    ensures forall i | 0 <= i < |entries| :: Landed(final, entries[i])
    decreases |entries|
  {
    hide Landed;
    if entries != [] {
      var e, rest := entries[0], entries[1..];
      var (d1, root) := UpsertEntry(d, e, None, clock);
      EntryValid(d, e, None, clock);
      var d2 := if root.Some? then SeedDerived(d1, e.derivedForms, root.value, clock) else d1;
      if root.Some? {
        DerivedValid(d1, e.derivedForms, root.value, clock);
      }
      AllLand(d2, rest, clock, final);
      SeedExtends(d2, rest, clock);
      ExtendsTransitive(d2.words, Seed(d2, rest, clock).words, final);
      FirstLands(d, e, clock, final);
      forall i | 0 <= i < |entries| ensures Landed(final, entries[i]) {
        if i > 0 {
          assert entries[i] == rest[i - 1];
        }
      }
    }
  }

  lemma FirstLands(d: Dict, e: SeedEntry, clock: Clock, final: map<Id, WordRow>)
    requires Valid(d) && UniqueKeys(final)
    requires var (d1, root) := UpsertEntry(d, e, None, clock);
      Extends(if root.Some? then SeedDerived(d1, e.derivedForms, root.value, clock).words else d1.words, final)
    ensures Landed(final, e)
  {
    var (d1, root) := UpsertEntry(d, e, None, clock);
    EntryValid(d, e, None, clock);
    if root.Some? {
      var d2 := SeedDerived(d1, e.derivedForms, root.value, clock);
      DerivedValid(d1, e.derivedForms, root.value, clock);
      DerivedPerforms(d1, e.derivedForms, root.value, clock, d2.words);
      ExtendsTransitive(d1.words, d2.words, final);
      EntryPerforms(d, e, None, clock, final);
      DerivedLand(d1, e.derivedForms, root.value, clock, final);
    }
  }

  /** Every accepted entry of a file ends with a word of its own name, and a derived form under its root's word. */
  lemma FileIsThere(d: Dict, entries: seq<SeedEntry>, clock: Clock, i: nat)
    requires Valid(d) && i < |entries| && Accepted(entries[i])
    ensures var words := Seed(d, entries, clock).words;
      exists w | w in words ::
        && Names(words[w], entries[i], None)
        && forall k | 0 <= k < |entries[i].derivedForms| && Accepted(entries[i].derivedForms[k]) ::
          exists v | v in words :: Names(words[v], entries[i].derivedForms[k], Some(w))
  {
    var words := Seed(d, entries, clock).words;
    SeedExtends(d, entries, clock);
    AllLand(d, entries, clock, words);
    assert Landed(words, entries[i]);
    var w := Target(words, entries[i], None).value;
    TargetIff(words, entries[i], None, w);
    forall k | 0 <= k < |entries[i].derivedForms| && Accepted(entries[i].derivedForms[k])
      ensures exists v | v in words :: Names(words[v], entries[i].derivedForms[k], Some(w)) {
      var form := entries[i].derivedForms[k];
      TargetIff(words, form, Some(w), Target(words, form, Some(w)).value);
    }
  }

  /** The two entries are one root: the same spelling, and numbers that count as the same homonym. */
  ghost predicate SameRoot(a: SeedEntry, b: SeedEntry)
  {
    a.banjar == b.banjar && exists h | Counts(a.homonymNumber, h) :: Counts(b.homonymNumber, h)
  }

  /** Two accepted roots share a word exactly when they are one root; so homonyms with different numbers stay apart. */
  lemma RootsApartIff(d: Dict, entries: seq<SeedEntry>, clock: Clock, i: nat, j: nat)
    requires Valid(d) && i < |entries| && j < |entries| && Accepted(entries[i]) && Accepted(entries[j])
    ensures var words := Seed(d, entries, clock).words;
      exists v, w | v in words && w in words ::
        Names(words[v], entries[i], None) && Names(words[w], entries[j], None)
        && (v == w <==> SameRoot(entries[i], entries[j]))
  {
    var words := Seed(d, entries, clock).words;
    SeedExtends(d, entries, clock);
    AllLand(d, entries, clock, words);
    assert Landed(words, entries[i]) && Landed(words, entries[j]);
    var v, w := Target(words, entries[i], None).value, Target(words, entries[j], None).value;
    TargetIff(words, entries[i], None, v);
    TargetIff(words, entries[j], None, w);
    TargetIff(words, entries[j], None, v);
    if SameRoot(entries[i], entries[j]) {
      assert Names(words[v], entries[j], None);
    }
  }

  /** No entry from here on lands on the word. */
  ghost predicate NoneLandsOn(words: map<Id, WordRow>, entries: seq<SeedEntry>, w: Id)
  {
    forall i | 0 <= i < |entries| :: Target(words, entries[i], None) != Some(w)
  }

  lemma {:induction false} DerivedWriteNoRoot(words: map<Id, WordRow>, derived: seq<SeedEntry>, root: Id, w: Id)
    requires UniqueKeys(words) && w in words && words[w].root == None
    ensures LastWrite(PlanDerived(words, derived, root), w) == None
    decreases |derived|
  {
    if derived != [] {
      DerivedWriteNoRoot(words, derived[1..], root, w);
      TargetIff(words, derived[0], Some(root), w);
      LastWriteAppend(PlanEntry(words, derived[0], Some(root)), PlanDerived(words, derived[1..], root), w);
      OtherWrite(words, derived[0], Some(root), w);
    }
  }

  lemma OtherWrite(words: map<Id, WordRow>, e: SeedEntry, root: Option<Id>, w: Id)
    requires Target(words, e, root) != Some(w)
    ensures LastWrite(PlanEntry(words, e, root), w) == None
  {
    var plan := PlanEntry(words, e, root);
    if plan != [] {
      assert plan[..|plan| - 1] == [];
    }
  }

  lemma {:induction false} NoneWrites(words: map<Id, WordRow>, entries: seq<SeedEntry>, w: Id)
    requires UniqueKeys(words) && w in words && words[w].root == None && NoneLandsOn(words, entries, w)
    ensures LastWrite(Plan(words, entries), w) == None
    decreases |entries|
  {
    if entries != [] {
      var e, root := entries[0], Target(words, entries[0], None);
      assert NoneLandsOn(words, entries[1..], w);
      NoneWrites(words, entries[1..], w);
      OtherWrite(words, e, None, w);
      var inner := if root.Some? then PlanDerived(words, e.derivedForms, root.value) else [];
      if root.Some? {
        DerivedWriteNoRoot(words, e.derivedForms, root.value, w);
      }
      LastWriteAppend(PlanEntry(words, e, None), inner, w);
      LastWriteAppend(PlanEntry(words, e, None) + inner, Plan(words, entries[1..]), w);
    }
  }

  lemma {:induction false} LastRootWrites(words: map<Id, WordRow>, entries: seq<SeedEntry>, i: nat, w: Id)
    requires UniqueKeys(words) && i < |entries| && Target(words, entries[i], None) == Some(w)
    requires w in words && words[w].root == None && NoneLandsOn(words, entries[i + 1..], w)
    ensures LastWrite(Plan(words, entries), w)
      == Some(EntryFacts(entries[i], NormalizeWordClass(entries[i].wordClass).value))
    decreases |entries|
  {
    var e, rest, root := entries[0], entries[1..], Target(words, entries[0], None);
    var inner := if root.Some? then PlanDerived(words, e.derivedForms, root.value) else [];
    LastWriteAppend(PlanEntry(words, e, None) + inner, Plan(words, rest), w);
    if i == 0 {
      NoneWrites(words, rest, w);
      DerivedWriteNoRoot(words, e.derivedForms, w, w);
      LastWriteAppend(PlanEntry(words, e, None), inner, w);
    } else {
      assert rest[i..] == entries[i + 1..];
      LastRootWrites(words, rest, i - 1, w);
    }
  }

  lemma LaterElsewhere(words: map<Id, WordRow>, entries: seq<SeedEntry>, i: nat, w: Id)
    requires UniqueKeys(words) && i < |entries| && w in words && Names(words[w], entries[i], None)
    requires forall j | i < j < |entries| && Accepted(entries[j]) :: !SameRoot(entries[i], entries[j])
    ensures NoneLandsOn(words, entries[i + 1..], w)
  {
    var rest := entries[i + 1..];
    forall j | 0 <= j < |rest| ensures Target(words, rest[j], None) != Some(w) {
      assert rest[j] == entries[i + 1 + j];
      TargetIff(words, rest[j], None, w);
    }
  }

  /**
   * The last accepted entry of a root, and only that one, gives the root's word its class, its reference, its meanings
   * and its examples, whatever the database held.
   */
  lemma LastRootWins(d: Dict, entries: seq<SeedEntry>, clock: Clock, i: nat)
    requires Valid(d) && i < |entries| && Accepted(entries[i])
    requires forall j | i < j < |entries| && Accepted(entries[j]) :: !SameRoot(entries[i], entries[j])
    ensures var d', e := Seed(d, entries, clock), entries[i];
      exists w | w in d'.words ::
        && Names(d'.words[w], e, None) && d'.words[w].wordClass == NormalizeWordClass(e.wordClass).value
        && d'.words[w].reference == (if e.sourceReference == "" then None else Some(e.sourceReference))
        && AreMeanings(Bodies(RowsOf(d'.definitions, w)), e.definitions)
        && AreExamples(Bodies(RowsOf(d'.examples, w)), e.examples)
  {
    hide Plan, Seed, PlanDerived;
    var d', e := Seed(d, entries, clock), entries[i];
    SeedExtends(d, entries, clock);
    SeedPerformsPlan(d, entries, clock, d'.words);
    AllLand(d, entries, clock, d'.words);
    assert Landed(d'.words, e);
    var w := Target(d'.words, e, None).value;
    TargetIff(d'.words, e, None, w);
    LaterElsewhere(d'.words, entries, i, w);
    LastRootWrites(d'.words, entries, i, w);
    assert FactsOf(d', w) == EntryFacts(e, NormalizeWordClass(e.wordClass).value);
    SeedDefinitionsAt(e.definitions, |e.definitions|);
    SeedExamplesAt(e.examples, |e.examples|);
  }
}
