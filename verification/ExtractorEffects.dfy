/** What the extractor does with lines and entries, told by their positions, words and numbers. */
module ExtractorEffects {
  import opened Common
  import opened Extractor

  // ---- lines ----

  /** How many of the first n lines are no noise. */
  function Clean(r: Reader, lines: seq<string>, n: nat): nat
    requires n <= |lines|
  {
    if n == 0 then 0 else Clean(r, lines, n - 1) + CountIf(!r.isNoise(lines[n - 1]))
  }

  /** Every line that is no noise is kept, stripped, in its place. */
  lemma {:induction false} KeptAt(r: Reader, lines: seq<string>, n: nat)
    requires n <= |lines|
    ensures |Kept(r, lines[..n])| == Clean(r, lines, n)
    ensures forall i | 0 <= i < n && !r.isNoise(lines[i]) ::
      Clean(r, lines, i) < Clean(r, lines, n) && Kept(r, lines[..n])[Clean(r, lines, i)] == r.strip(lines[i])
  {
    if n > 0 {
      KeptAt(r, lines, n - 1);
      KeptNext(r, lines, n - 1);
    }
  }

  /** What comes before the first entry line is dropped, and no more. */
  lemma {:induction false} DroppedIs(r: Reader, lines: seq<string>, k: nat)
    requires k <= |lines| && forall i | 0 <= i < k :: !r.isEntry(lines[i])
    requires k < |lines| ==> r.isEntry(lines[k])
    ensures FromFirstEntry(r, lines) == lines[k..]
  {
    if k > 0 {
      DroppedIs(r, lines[1..], k - 1);
    }
  }

  /** Where the k-th line of a block begins in the joined text. */
  function Offset(group: seq<string>, k: nat): nat
    requires k <= |group|
  {
    if k == 0 then 0 else Offset(group, k - 1) + |group[k - 1]| + 1
  }

  lemma {:induction false} OffsetPrefix(group: seq<string>, n: nat, k: nat)
    requires k <= n <= |group|
    ensures Offset(group[..n], k) == Offset(group, k)
  {
    if k > 0 {
      OffsetPrefix(group, n, k - 1);
    }
  }

  lemma {:induction false} OffsetMonotone(group: seq<string>, j: nat, k: nat)
    requires j <= k <= |group|
    ensures Offset(group, j) <= Offset(group, k)
  {
    if j < k {
      OffsetMonotone(group, j, k - 1);
    }
  }

  /** A block is joined by single blanks: each line is there whole, with a blank before it unless it is the first. */
  lemma {:induction false} JoinedAt(group: seq<string>, k: nat)
    requires k < |group|
    ensures var s, at := Joined(group), Offset(group, k);
      && |s| == Offset(group, |group|) - 1 && at + |group[k]| <= |s| && s[at..at + |group[k]|] == group[k]
      && (k > 0 ==> s[at - 1] == ' ')
    decreases |group|
  {
    var n := |group| - 1;
    OffsetMonotone(group, k, n);
    if n > 0 {
      var front, s := group[..n], Joined(group);
      OffsetPrefix(group, n, n);
      JoinedAt(front, if k < n then k else 0);
      assert s == Joined(front) + " " + group[n];
      if k < n {
        OffsetPrefix(group, n, k);
        assert s[Offset(group, k)..Offset(group, k) + |group[k]|]
          == Joined(front)[Offset(group, k)..Offset(group, k) + |group[k]|];
      }
    }
  }

  // ---- numbers ----

  function Digit(c: char): nat
    requires IsDigit(c)
  {
    (c - '0') as nat
  }

  predicate AllDigits(s: string) { forall i | 0 <= i < |s| :: IsDigit(s[i]) }

  /** The number a row of digits stands for. */
  function ValueOf(s: string): nat
    requires AllDigits(s)
  {
    if s == [] then 0 else 10 * ValueOf(s[..|s| - 1]) + Digit(s[|s| - 1])
  }

  lemma DigitAt(k: nat)
    requires k < 10
    ensures IsDigit("0123456789"[k]) && Digit("0123456789"[k]) == k
  {
  }

  /** What is written for a number reads as the number. */
  lemma {:induction false} DecimalReads(n: nat)
    ensures Decimal(n) != [] && AllDigits(Decimal(n)) && ValueOf(Decimal(n)) == n
  {
    if n < 10 {
      DigitAt(n);
      assert Decimal(n)[..0] == [];
    } else {
      DecimalReads(n / 10);
      DigitAt(n % 10);
      var s := Decimal(n);
      assert s[..|s| - 1] == Decimal(n / 10);
    }
  }

  lemma DecimalInjective(a: nat, b: nat)
    ensures Decimal(a) == Decimal(b) <==> a == b
  {
    DecimalReads(a);
    DecimalReads(b);
  }

  // ---- suffixes ----

  /** A word is a derived form's root by spelling exactly when the form is something and then the word. */
  lemma ProperSuffixIff(root: string, word: string)
    ensures ProperSuffix(root, word) <==> exists prefix :: prefix != [] && prefix + root == word
  {
    if ProperSuffix(root, word) {
      var prefix := word[..|word| - |root|];
      assert prefix != [] && prefix + root == word;
    }
    if prefix :| prefix != [] && prefix + root == word {
      assert word[|prefix|..] == root;
    }
  }

  // ---- a file of which nothing is lost ----

  /** The word is spelled like the other with a number. */
  predicate Numbered(word: string, other: string)
  {
    |word| > |other| + 1 && word[..|other|] == other && word[|other|] == '_' && AllDigits(word[|other| + 1..])
  }

  /**
   * No two roots share word and number, none is spelled like another with a number, none like a derived form's key,
   * and no derived form comes twice.
   */
  ghost predicate Distinguished(entries: seq<Option<Entry>>)
  {
    && NoClash(entries)
    && forall i, j | 0 <= i < |entries| && 0 <= j < |entries| && i != j && entries[i].Some? && entries[j].Some? ::
      var a, b := entries[i].value, entries[j].value;
      && (a.derived == b.derived && a.word == b.word ==> !a.derived && a.homonym != b.homonym)
      && (!a.derived && !b.derived ==> !Numbered(a.word, b.word))
  }

  /** A key for the entry: its word, numbered or not, or its word as a derived form. */
  predicate KeyLike(e: Entry, key: string)
  {
    if e.derived then key == e.word + "_derived" else key == e.word || key == e.word + "_" + Decimal(e.homonym)
  }

  lemma NumberedKey(word: string, n: nat)
    ensures Numbered(word + "_" + Decimal(n), word)
  {
    DecimalReads(n);
    var key := word + "_" + Decimal(n);
    assert key[..|word|] == word && key[|word| + 1..] == Decimal(n);
  }

  /** Where an underscore is followed by digits only, word and digits are told apart. */
  lemma NumberedApart(a: string, s: string, b: string, t: string)
    requires AllDigits(s) && AllDigits(t) && a + "_" + s == b + "_" + t
    ensures a == b && s == t
  {
    var key := a + "_" + s;
    assert key[|a|] == '_' && key[|b|] == '_';
    assert forall k | |a| < k < |key| :: key[k] == s[k - |a| - 1] && key[k] != '_';
    assert forall k | |b| < k < |key| :: key[k] == t[k - |b| - 1] && key[k] != '_';
    assert key[..|a|] == a && key[..|b|] == b && key[|a| + 1..] == s && key[|b| + 1..] == t;
  }

  /** Two entries of such a file can share a key only as homonyms, and then only the word itself. */
  lemma KeysApart(entries: seq<Option<Entry>>, i: nat, j: nat, key: string)
    requires Distinguished(entries) && i < |entries| && j < |entries| && i != j
    requires entries[i].Some? && entries[j].Some?
    requires KeyLike(entries[i].value, key) && KeyLike(entries[j].value, key)
    ensures !entries[i].value.derived && !entries[j].value.derived
    ensures key == entries[i].value.word && key == entries[j].value.word
  {
    var a, b := entries[i].value, entries[j].value;
    if a.derived && b.derived {
      SuffixCancels(a.word, b.word, "_derived");
    } else if a.derived {
      NumberedIsNotDerived(b.word, b.homonym, a.word);
    } else if b.derived {
      NumberedIsNotDerived(a.word, a.homonym, b.word);
    } else {
      NumberedKey(a.word, a.homonym);
      NumberedKey(b.word, b.homonym);
      DecimalReads(a.homonym);
      DecimalReads(b.homonym);
      if key == a.word + "_" + Decimal(a.homonym) && key == b.word + "_" + Decimal(b.homonym) {
        NumberedApart(a.word, Decimal(a.homonym), b.word, Decimal(b.homonym));
        DecimalInjective(a.homonym, b.homonym);
      }
    }
  }

  /** The keys so far are those of different entries placed so far; the words of roots placed so far are among them. */
  ghost predicate KeysOf(entries: seq<Option<Entry>>, order: seq<nat>, n: nat, keys: seq<string>, at: seq<nat>)
    requires Listed(entries, order) && n <= |order|
  {
    && |at| == |keys|
    && (forall k | 0 <= k < |keys| :: at[k] < n && KeyLike(entries[order[at[k]]].value, keys[k]))
    && (forall k, l | 0 <= k < l < |keys| :: at[k] != at[l])
    && (forall k | 0 <= k < n && !entries[order[k]].value.derived :: entries[order[k]].value.word in keys)
  }

  lemma NewKeyIsNew(entries: seq<Option<Entry>>, order: seq<nat>, n: nat, keys: seq<string>, at: seq<nat>, key: string)
    requires Distinguished(entries) && Listed(entries, order) && NoRepeat(order) && n < |order|
    requires KeysOf(entries, order, n, keys, at) && KeyLike(entries[order[n]].value, key)
    requires var e := entries[order[n]].value; !e.derived && key == e.word ==> e.word !in keys
    ensures key !in keys
  {
    forall k | 0 <= k < |keys| ensures keys[k] != key {
      if keys[k] == key {
        assert order[at[k]] != order[n];
        KeysApart(entries, order[at[k]], order[n], key);
      }
    }
  }

  lemma KeysOfNext(entries: seq<Option<Entry>>, order: seq<nat>, n: nat, keys: seq<string>, at: seq<nat>, key: string)
    requires Listed(entries, order) && n < |order| && KeysOf(entries, order, n, keys, at)
    requires var e := entries[order[n]].value; KeyLike(e, key) && (!e.derived ==> key == e.word || e.word in keys)
    ensures KeysOf(entries, order, n + 1, keys + [key], at + [n])
  {
  }

  lemma KeysOfSame(entries: seq<Option<Entry>>, order: seq<nat>, n: nat, keys: seq<string>, at: seq<nat>)
    requires Listed(entries, order) && n < |order| && KeysOf(entries, order, n, keys, at)
    requires entries[order[n]].value.derived
    ensures KeysOf(entries, order, n + 1, keys, at)
  {
  }

  lemma NoKeys(entries: seq<Option<Entry>>, order: seq<nat>)
    requires Listed(entries, order)
    ensures KeysOf(entries, order, 0, [], [])
  {
  }

  /** The keys foreseen of such a file are all different. */
  lemma {:induction false} ForeseenApart(entries: seq<Option<Entry>>, order: seq<nat>, n: nat) returns (at: seq<nat>)
    requires Distinguished(entries) && Listed(entries, order) && NoRepeat(order) && n <= |order|
    ensures KeysOf(entries, order, n, Foreseen(entries, order, n).keys, at)
    ensures NoRepeat(Foreseen(entries, order, n).keys)
  {
    hide KeysOf, Distinguished, Decimal;
    if n == 0 {
      at := [];
      NoKeys(entries, order);
    } else {
      var keys, e := Foreseen(entries, order, n - 1).keys, entries[order[n - 1]].value;
      at := ForeseenApart(entries, order, n - 1);
      if e.derived && Fits(Foreseen(entries, order, n - 1).words, e.word) {
        KeysOfSame(entries, order, n - 1, keys, at);
      } else {
        var key := if e.derived then e.word + "_derived"
          else if e.word in keys then e.word + "_" + Decimal(e.homonym) else e.word;
        NewKeyIsNew(entries, order, n - 1, keys, at, key);
        NoRepeatAppend(keys, key);
        KeysOfNext(entries, order, n - 1, keys, at, key);
        at := at + [n - 1];
      }
    }
  }

  /** So in such a file every entry stays: it stands on its own or is nested under another. */
  lemma NothingIsLost(entries: seq<Option<Entry>>)
    requires Distinguished(entries)
    ensures forall i | 0 <= i < |entries| && entries[i].Some? :: Placed(Grouped(entries), i)
  {
    OrderComplete(entries);
    var at := ForeseenApart(entries, Order(entries), |Order(entries)|);
    GroupingForest(entries);
  }

  /** Homonyms with different numbers, for one. */
  lemma ThreeHomonymsStay(word: string, a: nat, b: nat, c: nat)
    requires a != b && b != c && a != c
    ensures var entries := [Some(Entry(word, a, false)), Some(Entry(word, b, false)), Some(Entry(word, c, false))];
      Placed(Grouped(entries), 0) && Placed(Grouped(entries), 1) && Placed(Grouped(entries), 2)
  {
    var entries := [Some(Entry(word, a, false)), Some(Entry(word, b, false)), Some(Entry(word, c, false))];
    NothingIsLost(entries);
    assert entries[0].Some? && entries[1].Some? && entries[2].Some?;
  }

  // ---- in which order ----

  /** Roots before derived forms, and each kind in the order of the file. */
  predicate Before(entries: seq<Option<Entry>>, i: nat, j: nat)
    requires i < |entries| && entries[i].Some? && j < |entries| && entries[j].Some?
  {
    if entries[i].value.derived == entries[j].value.derived then i < j else !entries[i].value.derived
  }

  predicate Ascending(ps: seq<nat>, n: nat)
  {
    (forall j, k | 0 <= j < k < |ps| :: ps[j] < ps[k]) && forall k | 0 <= k < |ps| :: ps[k] < n
  }

  lemma AscendingNext(ps: seq<nat>, n: nat)
    requires Ascending(ps, n)
    ensures Ascending(ps, n + 1) && Ascending(ps + [n], n + 1)
  {
  }

  lemma {:induction false} PositionsRise(entries: seq<Option<Entry>>, derived: bool, n: nat)
    requires n <= |entries|
    ensures Ascending(Positions(entries, derived, n), n)
  {
    if n > 0 {
      hide Ascending;
      PositionsRise(entries, derived, n - 1);
      AscendingNext(Positions(entries, derived, n - 1), n - 1);
      PositionsNext(entries, derived, n - 1);
    }
  }

  lemma OrderRises(entries: seq<Option<Entry>>, j: nat, k: nat)
    requires j < k < |Order(entries)|
    ensures Listed(entries, Order(entries)) && Before(entries, Order(entries)[j], Order(entries)[k])
  {
    OrderListed(entries);
    var roots, derived := Positions(entries, false, |entries|), Positions(entries, true, |entries|);
    PositionsOfKind(entries, false, |entries|);
    PositionsOfKind(entries, true, |entries|);
    PositionsRise(entries, false, |entries|);
    PositionsRise(entries, true, |entries|);
    var order, m := Order(entries), |roots|;
    assert order[j] == (if j < m then roots[j] else derived[j - m]);
    assert order[k] == (if k < m then roots[k] else derived[k - m]);
    if k < m {
      assert !entries[roots[j]].value.derived && !entries[roots[k]].value.derived;
    } else if j < m {
      assert !entries[roots[j]].value.derived && entries[derived[k - m]].value.derived;
    } else {
      assert entries[derived[j - m]].value.derived && entries[derived[k - m]].value.derived;
    }
  }

  ghost predicate AllBefore(entries: seq<Option<Entry>>, placed: seq<nat>, i: nat)
    requires i < |entries| && entries[i].Some?
  {
    forall k | 0 <= k < |placed| ::
      placed[k] < |entries| && entries[placed[k]].Some? && Before(entries, placed[k], i)
  }

  lemma PrefixBefore(entries: seq<Option<Entry>>, n: nat)
    requires n < |Order(entries)|
    ensures Listed(entries, Order(entries)) && AllBefore(entries, Order(entries)[..n], Order(entries)[n])
  {
    OrderListed(entries);
    forall k | 0 <= k < n ensures Before(entries, Order(entries)[k], Order(entries)[n]) {
      OrderRises(entries, k, n);
    }
  }

  /** Everything in the map came before i, and the forms of every host are in the order of the file. */
  ghost predicate Rising(entries: seq<Option<Entry>>, hosts: seq<Host>, placed: seq<nat>)
  {
    && (forall p, j | 0 <= p < |hosts| && 0 <= j < |hosts[p].forms| ::
          hosts[p].forms[j] in placed && hosts[p].forms[j] < |entries|
          && entries[hosts[p].forms[j]].Some? && entries[hosts[p].forms[j]].value.derived)
    && forall p, j, k | 0 <= p < |hosts| && 0 <= j < k < |hosts[p].forms| :: hosts[p].forms[j] < hosts[p].forms[k]
  }

  lemma PlaceKeepsRising(entries: seq<Option<Entry>>, hosts: seq<Host>, placed: seq<nat>, i: nat)
    requires i < |entries| && entries[i].Some? && Within(entries, hosts) && Rising(entries, hosts, placed)
    requires AllBefore(entries, placed, i)
    ensures Rising(entries, Place(entries, hosts, i), placed + [i])
  {
    var hosts' := Place(entries, hosts, i);
    if KeyFor(entries, hosts, i).None? {
      var r := FirstHost(entries, hosts, entries[i].value.word).value;
      assert forall p | 0 <= p < |hosts| && p != r :: hosts'[p] == hosts[p];
      assert hosts'[r].forms == hosts[r].forms + [i];
    } else {
      assert forall p | 0 <= p < |hosts'| :: hosts'[p].forms == [] || (p < |hosts| && hosts'[p] == hosts[p]);
    }
  }

  lemma {:induction false} AllRising(entries: seq<Option<Entry>>, n: nat)
    requires n <= |Order(entries)|
    ensures Listed(entries, Order(entries))
    ensures Rising(entries, PlaceAll(entries, Order(entries), n), Order(entries)[..n])
  {
    hide Rising, Place;
    OrderListed(entries);
    var order := Order(entries);
    if n == 0 {
      NoneRising(entries);
    } else {
      AllRising(entries, n - 1);
      assert order[..n] == order[..n - 1] + [order[n - 1]];
      PrefixBefore(entries, n - 1);
      PlaceKeepsRising(entries, PlaceAll(entries, order, n - 1), order[..n - 1], order[n - 1]);
    }
  }

  lemma NoneRising(entries: seq<Option<Entry>>)
    ensures Rising(entries, [], [])
  {
  }

  /** The forms under a host come in the order of the file. */
  lemma FormsInOrder(entries: seq<Option<Entry>>, p: nat, j: nat, k: nat)
    requires p < |Grouped(entries)| && j < k < |Grouped(entries)[p].forms|
    ensures Grouped(entries)[p].forms[j] < Grouped(entries)[p].forms[k]
  {
    AllRising(entries, |Order(entries)|);
  }

  /** The hosts stand in the order in which they were placed. */
  ghost predicate InRow(entries: seq<Option<Entry>>, hosts: seq<Host>, placed: seq<nat>)
    requires Within(entries, hosts)
  {
    && (forall p | 0 <= p < |hosts| :: hosts[p].root in placed)
    && forall p, q | 0 <= p < q < |hosts| :: Before(entries, hosts[p].root, hosts[q].root)
  }

  lemma PlaceKeepsRow(entries: seq<Option<Entry>>, hosts: seq<Host>, placed: seq<nat>, i: nat)
    requires i < |entries| && entries[i].Some? && Within(entries, hosts) && InRow(entries, hosts, placed)
    requires AllBefore(entries, placed, i)
    requires KeyFor(entries, hosts, i).Some? ==> !HasKey(hosts, KeyFor(entries, hosts, i).value)
    ensures InRow(entries, Place(entries, hosts, i), placed + [i])
  {
    var hosts', key := Place(entries, hosts, i), KeyFor(entries, hosts, i);
    if key.Some? {
      assert hosts' == hosts + [Host(key.value, i, [])];
    }
    assert forall p | 0 <= p < |hosts| :: hosts'[p].root == hosts[p].root;
  }

  lemma {:induction false} AllInRow(entries: seq<Option<Entry>>, n: nat)
    requires Listed(entries, Order(entries)) && n <= |Order(entries)|
    requires NoRepeat(KeysUsed(entries, Order(entries), n))
    ensures InRow(entries, PlaceAll(entries, Order(entries), n), Order(entries)[..n])
  {
    hide InRow, Place, KeyFor, Order, AllBefore;
    var order := Order(entries);
    if n == 0 {
      NoneInRow(entries);
    } else {
      var hosts, keys, i := PlaceAll(entries, order, n - 1), KeysUsed(entries, order, n - 1), order[n - 1];
      var key := KeyFor(entries, hosts, i);
      OrderComplete(entries);
      AllSound(entries, order, n - 1);
      if key.Some? {
        NoRepeatAppend(keys, key.value);
        assert HasKey(hosts, key.value) <==> key.value in keys;
      } else {
        assert keys + [] == keys;
      }
      AllInRow(entries, n - 1);
      assert order[..n] == order[..n - 1] + [i];
      PrefixBefore(entries, n - 1);
      PlaceKeepsRow(entries, hosts, order[..n - 1], i);
    }
  }

  lemma NoneInRow(entries: seq<Option<Entry>>)
    ensures InRow(entries, [], [])
  {
  }

  /** When no key comes up twice, hosts come roots first, and each kind in the order of the file. */
  lemma HostsInOrder(entries: seq<Option<Entry>>, p: nat, q: nat)
    requires NoRepeat(ForeseenKeys(entries)) && p < q < |Grouped(entries)|
    ensures Within(entries, Grouped(entries))
    ensures Before(entries, Grouped(entries)[p].root, Grouped(entries)[q].root)
  {
    GroupingForest(entries);
    AllInRow(entries, |Order(entries)|);
  }
}
