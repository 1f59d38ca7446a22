/** scripts/seed/extract_dictionary.py: lines into blocks, and parsed entries into roots with their derived forms. */
module Extractor {
  import opened Common

  // ---- join_blocks ----

  /** is_noise, str.strip and the entry pattern, which this model does not look into. */
  datatype Reader = Reader(isNoise: string -> bool, strip: string -> string, isEntry: string -> bool)

  /** The lines that are not noise, stripped. */
  function Kept(r: Reader, lines: seq<string>): seq<string>
  {
    if lines == [] then []
    else
      var n := |lines| - 1;
      Kept(r, lines[..n]) + if r.isNoise(lines[n]) then [] else [r.strip(lines[n])]
  }

  /** What is left once everything before the first entry line is dropped. */
  function FromFirstEntry(r: Reader, lines: seq<string>): seq<string>
  {
    if lines == [] || r.isEntry(lines[0]) then lines else FromFirstEntry(r, lines[1..])
  }

  function Flatten<T>(groups: seq<seq<T>>): seq<T>
  {
    if groups == [] then [] else Flatten(groups[..|groups| - 1]) + groups[|groups| - 1]
  }

  /** A block: an entry line and the lines up to the next. */
  predicate IsBlock(r: Reader, group: seq<string>)
  {
    group != [] && r.isEntry(group[0]) && forall i | 0 < i < |group| :: !r.isEntry(group[i])
  }

  /** The specification: blocks that, one after the other, are the lines from the first entry on. */
  predicate IsSplit(r: Reader, groups: seq<seq<string>>, lines: seq<string>)
  {
    (forall k | 0 <= k < |groups| :: IsBlock(r, groups[k])) && Flatten(groups) == FromFirstEntry(r, lines)
  }

  /** The blocks after each line: an entry line opens one, another line continues the last if there is one. */
  function Groups(r: Reader, lines: seq<string>): seq<seq<string>>
  {
    if lines == [] then []
    else
      var n := |lines| - 1;
      var before, line := Groups(r, lines[..n]), lines[n];
      if r.isEntry(line) then before + [[line]]
      else if before == [] then []
      else before[..|before| - 1] + [before[|before| - 1] + [line]]
  }

  lemma {:induction false} FromFirstEntryAppend(r: Reader, lines: seq<string>, line: string)
    ensures FromFirstEntry(r, lines + [line])
      == if FromFirstEntry(r, lines) != [] then FromFirstEntry(r, lines) + [line]
        else if r.isEntry(line) then [line] else []
  {
    if lines == [] {
      assert [line][1..] == [];
    } else if !r.isEntry(lines[0]) {
      assert (lines + [line])[1..] == lines[1..] + [line];
      FromFirstEntryAppend(r, lines[1..], line);
    }
  }

  lemma FlattenLast<T>(groups: seq<seq<T>>, last: seq<T>)
    ensures Flatten(groups + [last]) == Flatten(groups) + last
  {
    assert (groups + [last])[..|groups|] == groups;
  }

  lemma EntryOpensBlock(r: Reader, groups: seq<seq<string>>, lines: seq<string>, line: string)
    requires IsSplit(r, groups, lines) && r.isEntry(line)
    ensures IsSplit(r, groups + [[line]], lines + [line])
  {
    FromFirstEntryAppend(r, lines, line);
    FlattenLast(groups, [line]);
  }

  lemma LineContinuesBlock(r: Reader, closed: seq<seq<string>>, open: seq<string>, lines: seq<string>, line: string)
    requires IsSplit(r, closed + [open], lines) && !r.isEntry(line)
    ensures IsSplit(r, closed + [open + [line]], lines + [line])
  {
    var groups := closed + [open];
    FromFirstEntryAppend(r, lines, line);
    assert groups[|closed|] == open && forall k | 0 <= k < |closed| :: closed[k] == groups[k];
    FlattenLast(closed, open);
    FlattenLast(closed, open + [line]);
    assert Flatten(closed) + (open + [line]) == Flatten(groups) + [line];
  }

  lemma {:induction false} GroupsSplit(r: Reader, lines: seq<string>)
    ensures IsSplit(r, Groups(r, lines), lines)
  {
    hide FromFirstEntry, Flatten;
    if lines == [] {
      NothingSplit(r);
    } else {
      var n := |lines| - 1;
      var before, line := Groups(r, lines[..n]), lines[n];
      GroupsSplit(r, lines[..n]);
      assert lines == lines[..n] + [line];
      if r.isEntry(line) {
        EntryOpensBlock(r, before, lines[..n], line);
      } else if before != [] {
        var m := |before| - 1;
        assert before == before[..m] + [before[m]];
        LineContinuesBlock(r, before[..m], before[m], lines[..n], line);
      } else {
        NoBlockYet(r, lines[..n], line);
      }
    }
  }

  lemma NothingSplit(r: Reader)
    ensures IsSplit(r, [], [])
  {
  }

  lemma NoBlockYet(r: Reader, lines: seq<string>, line: string)
    requires IsSplit(r, [], lines) && !r.isEntry(line)
    ensures IsSplit(r, [], lines + [line])
  {
    FromFirstEntryAppend(r, lines, line);
  }

  /** There is only one way to split. */
  lemma {:induction false} SplitIsUnique(r: Reader, a: seq<seq<string>>, b: seq<seq<string>>)
    requires forall k | 0 <= k < |a| :: IsBlock(r, a[k])
    requires forall k | 0 <= k < |b| :: IsBlock(r, b[k])
    requires Flatten(a) == Flatten(b)
    ensures a == b
    decreases |a|
  {
    if a == [] || b == [] {
      EmptyFlatten(r, a);
      EmptyFlatten(r, b);
    } else {
      var m, n := |a| - 1, |b| - 1;
      LastBlock(r, a, b);
      assert Flatten(a)[..|Flatten(a)| - |a[m]|] == Flatten(a[..m])
        && Flatten(b)[..|Flatten(b)| - |b[n]|] == Flatten(b[..n]);
      SplitIsUnique(r, a[..m], b[..n]);
      assert a == a[..m] + [a[m]] && b == b[..n] + [b[n]];
    }
  }

  /** So the blocks are the split of the kept lines. */
  lemma SplitIff(r: Reader, groups: seq<seq<string>>, lines: seq<string>)
    ensures IsSplit(r, groups, lines) <==> groups == Groups(r, lines)
  {
    GroupsSplit(r, lines);
    if IsSplit(r, groups, lines) {
      SplitIsUnique(r, groups, Groups(r, lines));
    }
  }

  lemma EmptyFlatten(r: Reader, a: seq<seq<string>>)
    requires forall k | 0 <= k < |a| :: IsBlock(r, a[k])
    ensures Flatten(a) == [] <==> a == []
  {
  }

  /** Of two blocks that end the same lines neither is longer. */
  lemma NotLonger(r: Reader, s: seq<string>, x: seq<string>, y: seq<string>)
    requires IsBlock(r, x) && IsBlock(r, y) && |x| <= |s| && |y| <= |s|
    requires s[|s| - |x|..] == x && s[|s| - |y|..] == y
    ensures |y| <= |x|
  {
    assert s[|s| - |x|] == x[0];
  }

  lemma LastBlock(r: Reader, a: seq<seq<string>>, b: seq<seq<string>>)
    requires a != [] && b != [] && IsBlock(r, a[|a| - 1]) && IsBlock(r, b[|b| - 1]) && Flatten(a) == Flatten(b)
    ensures a[|a| - 1] == b[|b| - 1]
  {
    var s, x, y := Flatten(a), a[|a| - 1], b[|b| - 1];
    assert s[|s| - |x|..] == x && s[|s| - |y|..] == y;
    NotLonger(r, s, x, y);
    NotLonger(r, s, y, x);
  }

  /** " ".join */
  function Joined(group: seq<string>): string
  {
    if group == [] then ""
    else if |group| == 1 then group[0]
    else Joined(group[..|group| - 1]) + " " + group[|group| - 1]
  }

  function Blocks(groups: seq<seq<string>>): seq<string>
  {
    if groups == [] then [] else Blocks(groups[..|groups| - 1]) + [Joined(groups[|groups| - 1])]
  }

  lemma BlocksNext(groups: seq<seq<string>>, last: seq<string>)
    ensures Blocks(groups + [last]) == Blocks(groups) + [Joined(last)]
  {
    assert (groups + [last])[..|groups|] == groups;
  }

  /** The blocks closed so far and the one still open. */
  function WithOpen(closed: seq<seq<string>>, current: seq<string>): seq<seq<string>>
  {
    closed + if current == [] then [] else [current]
  }

  lemma GroupsNext(r: Reader, kept: seq<string>, line: string, closed: seq<seq<string>>, current: seq<string>)
    requires Groups(r, kept) == WithOpen(closed, current) && (current == [] ==> closed == [])
    ensures Groups(r, kept + [line])
      == if r.isEntry(line) then WithOpen(WithOpen(closed, current), [line])
         else if current == [] then [] else WithOpen(closed, current + [line])
  {
    assert (kept + [line])[..|kept|] == kept;
    if current != [] {
      assert WithOpen(closed, current)[..|closed|] == closed;
    }
  }

  lemma KeptNext(r: Reader, lines: seq<string>, i: nat)
    requires i < |lines|
    ensures Kept(r, lines[..i + 1])
      == if r.isNoise(lines[i]) then Kept(r, lines[..i]) else Kept(r, lines[..i]) + [r.strip(lines[i])]
  {
    assert lines[..i + 1][..i] == lines[..i];
  }

  method JoinBlocks(r: Reader, lines: seq<string>, start: nat) returns (blocks: seq<string>)
    ensures var section := if start <= |lines| then lines[start..] else [];
      blocks == Blocks(Groups(r, Kept(r, section)))
  {
    var section := if start <= |lines| then lines[start..] else [];
    var current: seq<string> := [];
    blocks := [];
    ghost var closed: seq<seq<string>> := [];
    for i := 0 to |section|
      invariant blocks == Blocks(closed)
      invariant Groups(r, Kept(r, section[..i])) == WithOpen(closed, current)
      invariant current == [] ==> closed == []
    {
      KeptNext(r, section, i);
      var line := section[i];
      if !r.isNoise(line) {
        var stripped := r.strip(line);
        GroupsNext(r, Kept(r, section[..i]), stripped, closed, current);
        if r.isEntry(stripped) {
          if current != [] {
            BlocksNext(closed, current);
            blocks := blocks + [Joined(current)];
            closed := closed + [current];
          }
          current := [stripped];
        } else if current != [] {
          current := current + [stripped];
        }
      }
    }
    assert section[..|section|] == section;
    if current != [] {
      BlocksNext(closed, current);
      blocks := blocks + [Joined(current)];
    }
  }

  // ---- group_entries ----

  datatype Entry = Entry(word: string, homonym: nat, derived: bool)

  /**
   * An entry of the map: its key, the entry stored there and the entries nested under it, all by position in the
   * input.
   */
  datatype Host = Host(key: string, root: nat, forms: seq<nat>)

  function Decimal(n: nat): string
  {
    if n < 10 then ["0123456789"[n]] else Decimal(n / 10) + ["0123456789"[n % 10]]
  }

  function IndexOfKey(hosts: seq<Host>, key: string): (r: Option<nat>)
    ensures r.Some? ==> r.value < |hosts| && hosts[r.value].key == key
    ensures r.None? ==> forall p | 0 <= p < |hosts| :: hosts[p].key != key
  {
    if hosts == [] then None
    else if hosts[0].key == key then Some(0)
    else
      var rest := IndexOfKey(hosts[1..], key);
      if rest.None? then None else Some(rest.value + 1)
  }

  /** root_map[key] = entry: a key that is there keeps its place and loses what it held. */
  function Put(hosts: seq<Host>, key: string, i: nat): seq<Host>
  {
    match IndexOfKey(hosts, key)
    case Some(p) => hosts[p := Host(key, i, [])]
    case None => hosts + [Host(key, i, [])]
  }

  /** word.endswith(root) and longer. */
  predicate ProperSuffix(root: string, word: string)
  {
    |root| < |word| && word[|word| - |root|..] == root
  }

  /** All positions are entries that are there: None is skipped from the start. */
  predicate Within(entries: seq<Option<Entry>>, hosts: seq<Host>)
  {
    forall p | 0 <= p < |hosts| :: hosts[p].root < |entries| && entries[hosts[p].root].Some?
  }

  /** The first host, in the order of insertion, whose word is a proper suffix. */
  function FirstHost(entries: seq<Option<Entry>>, hosts: seq<Host>, word: string): (r: Option<nat>)
    requires Within(entries, hosts)
    ensures r.Some? ==> r.value < |hosts| && ProperSuffix(entries[hosts[r.value].root].value.word, word)
    ensures forall p | 0 <= p < if r.Some? then r.value else |hosts| ::
      !ProperSuffix(entries[hosts[p].root].value.word, word)
  {
    if hosts == [] then None
    else if ProperSuffix(entries[hosts[0].root].value.word, word) then Some(0)
    else
      var rest := FirstHost(entries, hosts[1..], word);
      if rest.None? then None else Some(rest.value + 1)
  }

  /** The key under which an entry goes into the map, if it goes there and is not nested. */
  function KeyFor(entries: seq<Option<Entry>>, hosts: seq<Host>, i: nat): Option<string>
    requires i < |entries| && entries[i].Some? && Within(entries, hosts)
  {
    var e := entries[i].value;
    if e.derived then if FirstHost(entries, hosts, e.word).Some? then None else Some(e.word + "_derived")
    else Some(if IndexOfKey(hosts, e.word).Some? then e.word + "_" + Decimal(e.homonym) else e.word)
  }

  function Place(entries: seq<Option<Entry>>, hosts: seq<Host>, i: nat): (r: seq<Host>)
    requires i < |entries| && entries[i].Some? && Within(entries, hosts)
    ensures Within(entries, r)
  {
    match KeyFor(entries, hosts, i)
    case Some(key) => Put(hosts, key, i)
    case None =>
      var p := FirstHost(entries, hosts, entries[i].value.word).value;
      hosts[p := hosts[p].(forms := hosts[p].forms + [i])]
  }

  /** The positions of the first n entries that are roots, or derived forms, in order. */
  function Positions(entries: seq<Option<Entry>>, derived: bool, n: nat): seq<nat>
    requires n <= |entries|
  {
    if n == 0 then []
    else
      Positions(entries, derived, n - 1) +
      if entries[n - 1].Some? && entries[n - 1].value.derived == derived then [n - 1] else []
  }

  /** Positions of entries of one kind, below a bound. */
  predicate OfKind(entries: seq<Option<Entry>>, derived: bool, n: nat, r: seq<nat>)
    requires n <= |entries|
  {
    forall k | 0 <= k < |r| :: r[k] < n && entries[r[k]].Some? && entries[r[k]].value.derived == derived
  }

  lemma {:induction false} PositionsOfKind(entries: seq<Option<Entry>>, derived: bool, n: nat)
    requires n <= |entries|
    ensures OfKind(entries, derived, n, Positions(entries, derived, n)) && NoRepeat(Positions(entries, derived, n))
  {
    if n > 0 {
      var before := Positions(entries, derived, n - 1);
      PositionsOfKind(entries, derived, n - 1);
      OneMoreOfKind(entries, derived, n - 1, before);
    }
  }

  lemma OneMoreOfKind(entries: seq<Option<Entry>>, derived: bool, n: nat, before: seq<nat>)
    requires n < |entries| && OfKind(entries, derived, n, before) && NoRepeat(before)
    ensures OfKind(entries, derived, n + 1, before)
    ensures entries[n].Some? && entries[n].value.derived == derived ==>
      OfKind(entries, derived, n + 1, before + [n]) && NoRepeat(before + [n])
  {
  }

  lemma {:induction false} PositionsComplete(entries: seq<Option<Entry>>, derived: bool, n: nat, i: nat)
    requires i < n <= |entries| && entries[i].Some? && entries[i].value.derived == derived
    ensures i in Positions(entries, derived, n)
  {
    if i < n - 1 {
      PositionsComplete(entries, derived, n - 1, i);
    }
  }

  /** Roots first, then derived forms. */
  function Order(entries: seq<Option<Entry>>): seq<nat>
  {
    Positions(entries, false, |entries|) + Positions(entries, true, |entries|)
  }

  predicate Listed(entries: seq<Option<Entry>>, order: seq<nat>)
  {
    forall k | 0 <= k < |order| :: order[k] < |entries| && entries[order[k]].Some?
  }

  /** The map after the first n entries of the order. */
  function PlaceAll(entries: seq<Option<Entry>>, order: seq<nat>, n: nat): (r: seq<Host>)
    requires Listed(entries, order) && n <= |order|
    ensures Within(entries, r)
  {
    if n == 0 then [] else Place(entries, PlaceAll(entries, order, n - 1), order[n - 1])
  }

  /** The keys computed on the way. */
  function KeysUsed(entries: seq<Option<Entry>>, order: seq<nat>, n: nat): seq<string>
    requires Listed(entries, order) && n <= |order|
  {
    if n == 0 then []
    else
      var key := KeyFor(entries, PlaceAll(entries, order, n - 1), order[n - 1]);
      KeysUsed(entries, order, n - 1) + if key.Some? then [key.value] else []
  }

  lemma OrderListed(entries: seq<Option<Entry>>)
    ensures Listed(entries, Order(entries))
  {
    PositionsOfKind(entries, false, |entries|);
    PositionsOfKind(entries, true, |entries|);
  }

  function Grouped(entries: seq<Option<Entry>>): seq<Host>
  {
    OrderListed(entries);
    PlaceAll(entries, Order(entries), |Order(entries)|)
  }

  // ---- the code ----

  lemma PositionsNext(entries: seq<Option<Entry>>, derived: bool, n: nat)
    requires n < |entries|
    ensures Positions(entries, derived, n + 1)
      == if entries[n].Some? && entries[n].value.derived == derived then Positions(entries, derived, n) + [n]
         else Positions(entries, derived, n)
  {
  }

  /** The roots come first: the m-th of them is the m-th in the order. */
  lemma {:induction false} PositionsPrefix(entries: seq<Option<Entry>>, derived: bool, m: nat, n: nat)
    requires m <= n <= |entries|
    ensures Positions(entries, derived, m) <= Positions(entries, derived, n)
    decreases n
  {
    if m < n {
      PositionsPrefix(entries, derived, m, n - 1);
    }
  }

  lemma RootAt(entries: seq<Option<Entry>>, n: nat)
    requires n < |entries| && entries[n].Some? && !entries[n].value.derived
    ensures var m := |Positions(entries, false, n)|; m < |Order(entries)| && Order(entries)[m] == n
  {
    PositionsPrefix(entries, false, n + 1, |entries|);
  }

  /** The only position found by FirstHost's own description. */
  lemma FirstHostIs(entries: seq<Option<Entry>>, hosts: seq<Host>, word: string, p: nat)
    requires Within(entries, hosts) && p <= |hosts|
    requires forall q | 0 <= q < p :: !ProperSuffix(entries[hosts[q].root].value.word, word)
    requires p < |hosts| ==> ProperSuffix(entries[hosts[p].root].value.word, word)
    ensures FirstHost(entries, hosts, word) == if p < |hosts| then Some(p) else None
  {
  }

  method FindHost(entries: seq<Option<Entry>>, hosts: seq<Host>, word: string) returns (found: Option<nat>)
    requires Within(entries, hosts)
    ensures found == FirstHost(entries, hosts, word)
  {
    for p := 0 to |hosts|
      invariant forall q | 0 <= q < p :: !ProperSuffix(entries[hosts[q].root].value.word, word)
    {
      if ProperSuffix(entries[hosts[p].root].value.word, word) {
        FirstHostIs(entries, hosts, word, p);
        return Some(p);
      }
    }
    FirstHostIs(entries, hosts, word, |hosts|);
    found := None;
  }

  method PlaceRoot(entries: seq<Option<Entry>>, hosts: seq<Host>, i: nat) returns (placed: seq<Host>)
    requires i < |entries| && entries[i].Some? && !entries[i].value.derived && Within(entries, hosts)
    ensures placed == Place(entries, hosts, i)
  {
    var key := entries[i].value.word;
    if IndexOfKey(hosts, key).Some? {
      key := key + "_" + Decimal(entries[i].value.homonym);
    }
    placed := Put(hosts, key, i);
  }

  method PlaceForm(entries: seq<Option<Entry>>, hosts: seq<Host>, i: nat) returns (placed: seq<Host>)
    requires i < |entries| && entries[i].Some? && entries[i].value.derived && Within(entries, hosts)
    ensures placed == Place(entries, hosts, i)
  {
    var word := entries[i].value.word;
    var p := FindHost(entries, hosts, word);
    if p.Some? {
      placed := hosts[p.value := hosts[p.value].(forms := hosts[p.value].forms + [i])];
    } else {
      placed := Put(hosts, word + "_derived", i);
    }
  }

  lemma NothingCollected(entries: seq<Option<Entry>>)
    ensures Positions(entries, false, 0) == [] && Positions(entries, true, 0) == []
    ensures Listed(entries, Order(entries)) && PlaceAll(entries, Order(entries), 0) == []
  {
    OrderListed(entries);
  }

  lemma RootNext(entries: seq<Option<Entry>>, n: nat)
    requires n < |entries| && entries[n].Some? && !entries[n].value.derived
    ensures Listed(entries, Order(entries))
    ensures var m := |Positions(entries, false, n)|;
      && m < |Order(entries)| && |Positions(entries, false, n + 1)| == m + 1
      && PlaceAll(entries, Order(entries), m + 1) == Place(entries, PlaceAll(entries, Order(entries), m), n)
  {
    OrderListed(entries);
    PositionsNext(entries, false, n);
    RootAt(entries, n);
  }

  method CollectRoots(entries: seq<Option<Entry>>) returns (hosts: seq<Host>, derived: seq<nat>)
    ensures Listed(entries, Order(entries)) && |Positions(entries, false, |entries|)| <= |Order(entries)|
    ensures derived == Positions(entries, true, |entries|)
    ensures hosts == PlaceAll(entries, Order(entries), |Positions(entries, false, |entries|)|)
  {
    hide Place, PlaceAll, Positions, Order;
    NothingCollected(entries);
    hosts, derived := [], [];
    for n := 0 to |entries|
      invariant |Positions(entries, false, n)| <= |Order(entries)|
      invariant derived == Positions(entries, true, n)
      invariant hosts == PlaceAll(entries, Order(entries), |Positions(entries, false, n)|)
    {
      PositionsNext(entries, true, n);
      PositionsNext(entries, false, n);
      if entries[n].Some? {
        if entries[n].value.derived {
          derived := derived + [n];
        } else {
          RootNext(entries, n);
          hosts := PlaceRoot(entries, hosts, n);
        }
      }
    }
  }

  method AttachForms(entries: seq<Option<Entry>>, roots: seq<Host>, derived: seq<nat>, ghost order: seq<nat>)
    returns (hosts: seq<Host>)
    requires Listed(entries, order) && |derived| <= |order|
    requires forall k | 0 <= k < |derived| ::
      derived[k] == order[|order| - |derived| + k] && entries[derived[k]].Some? && entries[derived[k]].value.derived
    requires roots == PlaceAll(entries, order, |order| - |derived|)
    ensures hosts == PlaceAll(entries, order, |order|)
  {
    hide Place;
    hosts := roots;
    for k := 0 to |derived|
      invariant hosts == PlaceAll(entries, order, |order| - |derived| + k)
    {
      hosts := PlaceForm(entries, hosts, derived[k]);
    }
  }

  method GroupEntries(entries: seq<Option<Entry>>) returns (hosts: seq<Host>)
    ensures hosts == Grouped(entries)
  {
    hide PlaceAll, Positions, KeyFor, Place;
    var derived: seq<nat>;
    hosts, derived := CollectRoots(entries);
    PositionsOfKind(entries, true, |entries|);
    hosts := AttachForms(entries, hosts, derived, Order(entries));
  }

  // ---- where entries end up ----

  /** A place in the map: a host, or the j-th form under it. */
  datatype Spot = AsRoot(p: nat) | AsForm(p: nat, j: nat)

  predicate IsAt(hosts: seq<Host>, i: nat, s: Spot)
  {
    s.p < |hosts| && match s
      case AsRoot(p) => hosts[p].root == i
      case AsForm(p, j) => j < |hosts[p].forms| && hosts[p].forms[j] == i
  }

  ghost predicate Placed(hosts: seq<Host>, i: nat)
  {
    exists s :: IsAt(hosts, i, s)
  }

  /** Every entry is in at most one place. So a host is nested nowhere, and nesting is one level deep. */
  ghost predicate Once(hosts: seq<Host>)
  {
    forall i, a, b | IsAt(hosts, i, a) && IsAt(hosts, i, b) :: a == b
  }

  /** What is nested is a derived form that ends in its host's word. */
  predicate WellNested(entries: seq<Option<Entry>>, hosts: seq<Host>)
    requires Within(entries, hosts)
  {
    forall p, j | 0 <= p < |hosts| && 0 <= j < |hosts[p].forms| ::
      && hosts[p].forms[j] < |entries| && entries[hosts[p].forms[j]].Some? && entries[hosts[p].forms[j]].value.derived
      && ProperSuffix(entries[hosts[p].root].value.word, entries[hosts[p].forms[j]].value.word)
  }

  lemma AppendedSpots(hosts: seq<Host>, h: Host)
    requires h.forms == [] && Once(hosts) && !Placed(hosts, h.root)
    ensures Once(hosts + [h])
    ensures forall x :: Placed(hosts + [h], x) <==> x == h.root || Placed(hosts, x)
  {
    var hosts' := hosts + [h];
    forall x, s | IsAt(hosts', x, s) ensures if s == AsRoot(|hosts|) then x == h.root else IsAt(hosts, x, s) {}
    forall x, s | IsAt(hosts, x, s) ensures IsAt(hosts', x, s) {}
    assert IsAt(hosts', h.root, AsRoot(|hosts|));
  }

  lemma NestedSpots(hosts: seq<Host>, p: nat, i: nat)
    requires p < |hosts| && Once(hosts) && !Placed(hosts, i)
    ensures var hosts' := hosts[p := hosts[p].(forms := hosts[p].forms + [i])];
      Once(hosts') && forall x :: Placed(hosts', x) <==> x == i || Placed(hosts, x)
  {
    var hosts' := hosts[p := hosts[p].(forms := hosts[p].forms + [i])];
    var spot := AsForm(p, |hosts[p].forms|);
    forall x, s | IsAt(hosts', x, s) ensures if s == spot then x == i else IsAt(hosts, x, s) {}
    forall x, s | IsAt(hosts, x, s) ensures IsAt(hosts', x, s) {}
    assert IsAt(hosts', i, spot);
  }

  lemma ReplacedSpots(hosts: seq<Host>, p: nat, key: string, i: nat)
    requires p < |hosts| && Once(hosts) && !Placed(hosts, i)
    ensures var hosts' := hosts[p := Host(key, i, [])];
      && Once(hosts') && Placed(hosts', i) && !Placed(hosts', hosts[p].root)
      && forall x :: Placed(hosts', x) ==> x == i || Placed(hosts, x)
  {
    var hosts' := hosts[p := Host(key, i, [])];
    forall x, s | IsAt(hosts', x, s) ensures if s == AsRoot(p) then x == i else IsAt(hosts, x, s) && s.p != p {}
    assert IsAt(hosts', i, AsRoot(p));
    assert IsAt(hosts, hosts[p].root, AsRoot(p));
  }

  ghost predicate HasKey(hosts: seq<Host>, key: string)
  {
    exists p | 0 <= p < |hosts| :: hosts[p].key == key
  }

  predicate NoRepeat<T(==)>(s: seq<T>)
  {
    forall j, k | 0 <= j < k < |s| :: s[j] != s[k]
  }

  /**
   * One placing: the entry is placed; the others stay unless its key was taken, and then the entry that held it is
   * lost.
   */
  lemma PlaceSpots(entries: seq<Option<Entry>>, hosts: seq<Host>, i: nat)
    requires i < |entries| && entries[i].Some? && Within(entries, hosts) && Once(hosts) && !Placed(hosts, i)
    ensures var hosts', key := Place(entries, hosts, i), KeyFor(entries, hosts, i);
      var taken := key.Some? && HasKey(hosts, key.value);
      Once(hosts') && OnePlacing(hosts, hosts', i, taken) && OneKeyMore(hosts, hosts', key)
  {
    match KeyFor(entries, hosts, i)
    case None =>
      var p := FirstHost(entries, hosts, entries[i].value.word).value;
      NestedSpots(hosts, p, i);
      var hosts' := Place(entries, hosts, i);
      assert forall q | 0 <= q < |hosts| :: hosts'[q].key == hosts[q].key;
    case Some(key) =>
      var hosts' := Place(entries, hosts, i);
      match IndexOfKey(hosts, key)
      case None =>
        AppendedSpots(hosts, Host(key, i, []));
        assert hosts'[|hosts|].key == key;
        assert forall q | 0 <= q < |hosts| :: hosts'[q] == hosts[q];
      case Some(p) =>
        ReplacedSpots(hosts, p, key, i);
        assert IsAt(hosts, hosts[p].root, AsRoot(p));
        assert forall q | 0 <= q < |hosts| :: hosts'[q].key == hosts[q].key;
  }

  lemma PlaceNestsWell(entries: seq<Option<Entry>>, hosts: seq<Host>, i: nat)
    requires i < |entries| && entries[i].Some? && Within(entries, hosts) && WellNested(entries, hosts)
    ensures WellNested(entries, Place(entries, hosts, i))
  {
  }

  predicate CouldTake(entries: seq<Option<Entry>>, root: nat, i: nat)
  {
    && root < |entries| && entries[root].Some? && i < |entries| && entries[i].Some? && entries[i].value.derived
    && ProperSuffix(entries[root].value.word, entries[i].value.word)
  }

  /** Neither the host's own entry nor one nested there is a derived form the root could take. */
  predicate NoneFor(entries: seq<Option<Entry>>, root: nat, host: Host)
  {
    !CouldTake(entries, root, host.root) && forall j | 0 <= j < |host.forms| :: !CouldTake(entries, root, host.forms[j])
  }

  /** No entry is nested, or stands unmatched, behind an earlier host that would have taken it. */
  predicate FirstCome(entries: seq<Option<Entry>>, hosts: seq<Host>)
  {
    forall p, q | 0 <= q < p < |hosts| :: NoneFor(entries, hosts[q].root, hosts[p])
  }

  lemma NestingKeepsFirstCome(entries: seq<Option<Entry>>, hosts: seq<Host>, i: nat)
    requires i < |entries| && entries[i].Some? && Within(entries, hosts) && FirstCome(entries, hosts)
    requires KeyFor(entries, hosts, i).None?
    ensures FirstCome(entries, Place(entries, hosts, i))
  {
    var hosts', r := Place(entries, hosts, i), FirstHost(entries, hosts, entries[i].value.word).value;
    forall p, q | 0 <= q < p < |hosts'| ensures NoneFor(entries, hosts'[q].root, hosts'[p]) {
      assert NoneFor(entries, hosts[q].root, hosts[p]) && hosts'[q].root == hosts[q].root;
      if p == r {
        assert !ProperSuffix(entries[hosts[q].root].value.word, entries[i].value.word);
      }
    }
  }

  lemma StandingKeepsFirstCome(entries: seq<Option<Entry>>, hosts: seq<Host>, i: nat)
    requires i < |entries| && entries[i].Some? && Within(entries, hosts) && FirstCome(entries, hosts)
    requires KeyFor(entries, hosts, i).Some? && !HasKey(hosts, KeyFor(entries, hosts, i).value)
    ensures FirstCome(entries, Place(entries, hosts, i))
  {
    var hosts' := Place(entries, hosts, i);
    assert hosts' == hosts + [Host(KeyFor(entries, hosts, i).value, i, [])];
    forall p, q | 0 <= q < p < |hosts'| ensures NoneFor(entries, hosts'[q].root, hosts'[p]) {
      if p < |hosts| {
        assert NoneFor(entries, hosts[q].root, hosts[p]);
      }
    }
  }

  lemma PlaceKeepsFirstCome(entries: seq<Option<Entry>>, hosts: seq<Host>, i: nat)
    requires i < |entries| && entries[i].Some? && Within(entries, hosts) && WellNested(entries, hosts)
      && FirstCome(entries, hosts)
    requires KeyFor(entries, hosts, i).Some? ==> !HasKey(hosts, KeyFor(entries, hosts, i).value)
    ensures WellNested(entries, Place(entries, hosts, i)) && FirstCome(entries, Place(entries, hosts, i))
  {
    hide FirstCome, WellNested, Place;
    PlaceNestsWell(entries, hosts, i);
    if KeyFor(entries, hosts, i).None? {
      NestingKeepsFirstCome(entries, hosts, i);
    } else {
      StandingKeepsFirstCome(entries, hosts, i);
    }
  }

  /** The order of placing lists every entry that is there exactly once. */
  lemma OrderComplete(entries: seq<Option<Entry>>)
    ensures Listed(entries, Order(entries)) && NoRepeat(Order(entries))
    ensures forall i | 0 <= i < |entries| && entries[i].Some? :: i in Order(entries)
  {
    OrderListed(entries);
    PositionsOfKind(entries, false, |entries|);
    PositionsOfKind(entries, true, |entries|);
    forall i | 0 <= i < |entries| && entries[i].Some? ensures i in Order(entries) {
      PositionsComplete(entries, entries[i].value.derived, |entries|, i);
    }
  }

  ghost predicate OnlyFrom(hosts: seq<Host>, s: seq<nat>)
  {
    forall x | Placed(hosts, x) :: x in s
  }

  ghost predicate HasKeys(hosts: seq<Host>, keys: seq<string>)
  {
    forall k :: HasKey(hosts, k) <==> k in keys
  }

  /** After placing the entries s in turn. */
  ghost predicate Sound(entries: seq<Option<Entry>>, s: seq<nat>, hosts: seq<Host>, keys: seq<string>)
  {
    && Within(entries, hosts) && Once(hosts) && WellNested(entries, hosts) && OnlyFrom(hosts, s) && HasKeys(hosts, keys)
    && (NoRepeat(keys) <==> AllPlaced(hosts, s))
    && (NoRepeat(keys) ==> FirstCome(entries, hosts))
  }

  lemma NoRepeatAppend<T>(s: seq<T>, x: T)
    ensures NoRepeat(s + [x]) <==> NoRepeat(s) && x !in s
  {
    var t := s + [x];
    if NoRepeat(t) {
      forall j | 0 <= j < |s| ensures s[j] != x {
        assert t[j] != t[|s|];
      }
      forall j, k | 0 <= j < k < |s| ensures s[j] != s[k] {
        assert t[j] != t[k];
      }
    }
  }

  ghost predicate OneKeyMore(hosts: seq<Host>, hosts': seq<Host>, key: Option<string>)
  {
    forall k :: HasKey(hosts', k) <==> HasKey(hosts, k) || key == Some(k)
  }

  lemma KeysStay(hosts: seq<Host>, hosts': seq<Host>, keys: seq<string>, key: Option<string>)
    requires OneKeyMore(hosts, hosts', key) && HasKeys(hosts, keys)
    ensures var keys' := keys + if key.Some? then [key.value] else [];
      HasKeys(hosts', keys') && (NoRepeat(keys') <==> NoRepeat(keys) && !(key.Some? && HasKey(hosts, key.value)))
  {
    if key.Some? {
      NoRepeatAppend(keys, key.value);
    } else {
      assert keys + [] == keys;
    }
  }

  /** What PlaceSpots says of one placing. */
  ghost predicate OnePlacing(hosts: seq<Host>, hosts': seq<Host>, i: nat, taken: bool)
  {
    && Placed(hosts', i)
    && (forall x :: Placed(hosts', x) ==> x == i || Placed(hosts, x))
    && (!taken ==> forall x :: Placed(hosts, x) ==> Placed(hosts', x))
    && (taken ==> exists x :: Placed(hosts, x) && !Placed(hosts', x))
  }

  ghost predicate AllPlaced(hosts: seq<Host>, s: seq<nat>)
  {
    forall x | x in s :: Placed(hosts, x)
  }

  /** Nothing is lost after a placing exactly when nothing was before and its key was free. */
  lemma LossIsForGood(hosts: seq<Host>, hosts': seq<Host>, s: seq<nat>, i: nat, taken: bool)
    requires OnePlacing(hosts, hosts', i, taken) && i !in s && OnlyFrom(hosts, s)
    ensures AllPlaced(hosts', s + [i]) <==> AllPlaced(hosts, s) && !taken
    ensures OnlyFrom(hosts', s + [i])
  {
    if AllPlaced(hosts', s + [i]) {
      forall x | x in s ensures Placed(hosts, x) {
        assert x in s + [i];
      }
      forall x | Placed(hosts, x) ensures Placed(hosts', x) {
        assert x in s + [i];
      }
    }
    if AllPlaced(hosts, s) && !taken {
      forall x | x in s + [i] ensures Placed(hosts', x) {
        assert x in s || x == i;
      }
    }
  }

  lemma StaysSound(entries: seq<Option<Entry>>, s: seq<nat>, hosts: seq<Host>, keys: seq<string>, i: nat)
    requires Sound(entries, s, hosts, keys) && i < |entries| && entries[i].Some? && i !in s
    ensures var key := KeyFor(entries, hosts, i);
      Sound(entries, s + [i], Place(entries, hosts, i), keys + if key.Some? then [key.value] else [])
  {
    var key := KeyFor(entries, hosts, i);
    var taken := key.Some? && HasKey(hosts, key.value);
    PlaceSpots(entries, hosts, i);
    LossIsForGood(hosts, Place(entries, hosts, i), s, i, taken);
    PlaceNestsWell(entries, hosts, i);
    KeysStay(hosts, Place(entries, hosts, i), keys, key);
    if !taken && NoRepeat(keys) {
      PlaceKeepsFirstCome(entries, hosts, i);
    }
  }

  lemma StartsSound(entries: seq<Option<Entry>>)
    ensures Sound(entries, [], [], [])
  {
  }

  lemma {:induction false} AllSound(entries: seq<Option<Entry>>, order: seq<nat>, n: nat)
    requires Listed(entries, order) && NoRepeat(order) && n <= |order|
    ensures Sound(entries, order[..n], PlaceAll(entries, order, n), KeysUsed(entries, order, n))
  {
    hide Sound, Place, KeyFor;
    if n == 0 {
      StartsSound(entries);
    } else {
      AllSound(entries, order, n - 1);
      assert order[..n] == order[..n - 1] + [order[n - 1]];
      StaysSound(entries, order[..n - 1], PlaceAll(entries, order, n - 1), KeysUsed(entries, order, n - 1),
                 order[n - 1]);
    }
  }

  // ---- the first host takes it, whatever is lost ----

  /** No root is spelled like the key of a derived form that stands on its own. */
  ghost predicate NoClash(entries: seq<Option<Entry>>)
  {
    forall i, j | 0 <= i < |entries| && 0 <= j < |entries| && entries[i].Some? && entries[j].Some?
                  && !entries[i].value.derived && entries[j].value.derived ::
      entries[i].value.word != entries[j].value.word + "_derived"
  }

  predicate IsDigit(c: char) { '0' <= c <= '9' }

  lemma {:induction false} DecimalEndsInDigit(n: nat)
    ensures Decimal(n) != [] && IsDigit(Decimal(n)[|Decimal(n)| - 1])
  {
    var digits := "0123456789";
    assert forall k | 0 <= k < 10 :: IsDigit(digits[k]);
  }

  /** A numbered root and a derived form on its own never share a key. */
  lemma NumberedIsNotDerived(word: string, n: nat, other: string)
    ensures word + "_" + Decimal(n) != other + "_derived"
  {
    DecimalEndsInDigit(n);
    var a, b := word + "_" + Decimal(n), other + "_derived";
    assert a[|a| - 1] == Decimal(n)[|Decimal(n)| - 1];
    assert b[|b| - 1] == 'd';
  }

  lemma SuffixCancels(a: string, b: string, s: string)
    requires a + s == b + s
    ensures a == b
  {
    assert |a| == |b| && (a + s)[..|a|] == a && (b + s)[..|b|] == b;
  }

  /** Only a derived form on its own holds the key of one, and it has the same word. */
  ghost predicate KeysTell(entries: seq<Option<Entry>>, hosts: seq<Host>)
    requires Within(entries, hosts)
  {
    forall p, j | 0 <= p < |hosts| && 0 <= j < |entries| && entries[j].Some? && entries[j].value.derived
                  && hosts[p].key == entries[j].value.word + "_derived" ::
      entries[hosts[p].root].value.derived && entries[hosts[p].root].value.word == entries[j].value.word
  }

  lemma NewKeyTells(entries: seq<Option<Entry>>, hosts: seq<Host>, i: nat, j: nat)
    requires NoClash(entries) && Within(entries, hosts) && i < |entries| && entries[i].Some?
    requires j < |entries| && entries[j].Some? && entries[j].value.derived
    requires KeyFor(entries, hosts, i) == Some(entries[j].value.word + "_derived")
    ensures entries[i].value.derived && entries[i].value.word == entries[j].value.word
  {
    var e := entries[i].value;
    if e.derived {
      SuffixCancels(e.word, entries[j].value.word, "_derived");
    } else {
      NumberedIsNotDerived(e.word, e.homonym, entries[j].value.word);
    }
  }

  lemma PlaceKeepsKeysTelling(entries: seq<Option<Entry>>, hosts: seq<Host>, i: nat)
    requires NoClash(entries) && Within(entries, hosts) && i < |entries| && entries[i].Some? && KeysTell(entries, hosts)
    ensures KeysTell(entries, Place(entries, hosts, i))
  {
    var hosts', key := Place(entries, hosts, i), KeyFor(entries, hosts, i);
    forall p, j | 0 <= p < |hosts'| && 0 <= j < |entries| && entries[j].Some? && entries[j].value.derived
                  && hosts'[p].key == entries[j].value.word + "_derived"
      ensures entries[hosts'[p].root].value.derived && entries[hosts'[p].root].value.word == entries[j].value.word
    {
      if key == Some(hosts'[p].key) {
        NewKeyTells(entries, hosts, i, j);
      }
    }
  }

  /** Nothing derived has been placed. */
  predicate RootsOnly(entries: seq<Option<Entry>>, hosts: seq<Host>)
    requires Within(entries, hosts)
  {
    forall p | 0 <= p < |hosts| :: !entries[hosts[p].root].value.derived && hosts[p].forms == []
  }

  lemma RootKeepsRootsOnly(entries: seq<Option<Entry>>, hosts: seq<Host>, i: nat)
    requires i < |entries| && entries[i].Some? && !entries[i].value.derived && Within(entries, hosts)
      && RootsOnly(entries, hosts)
    ensures RootsOnly(entries, Place(entries, hosts, i))
  {
  }

  lemma RootsFirstCome(entries: seq<Option<Entry>>, hosts: seq<Host>)
    requires Within(entries, hosts) && RootsOnly(entries, hosts)
    ensures WellNested(entries, hosts) && FirstCome(entries, hosts)
  {
  }

  /** Standing on its own under a key that is taken, a derived form takes the place of another of the same word. */
  lemma FormKeepsFirstCome(entries: seq<Option<Entry>>, hosts: seq<Host>, i: nat)
    requires i < |entries| && entries[i].Some? && entries[i].value.derived && Within(entries, hosts)
    requires WellNested(entries, hosts) && FirstCome(entries, hosts) && KeysTell(entries, hosts)
    ensures WellNested(entries, Place(entries, hosts, i)) && FirstCome(entries, Place(entries, hosts, i))
  {
    var key := KeyFor(entries, hosts, i);
    if key.Some? && HasKey(hosts, key.value) {
      PlaceNestsWell(entries, hosts, i);
      var p := IndexOfKey(hosts, key.value).value;
      assert entries[hosts[p].root].value.word == entries[i].value.word;
    } else {
      PlaceKeepsFirstCome(entries, hosts, i);
    }
  }

  lemma {:induction false} RootsStayRoots(entries: seq<Option<Entry>>, order: seq<nat>, n: nat)
    requires NoClash(entries) && Listed(entries, order) && n <= |order|
    requires forall k | 0 <= k < n :: !entries[order[k]].value.derived
    ensures RootsOnly(entries, PlaceAll(entries, order, n)) && KeysTell(entries, PlaceAll(entries, order, n))
  {
    hide Place;
    if n > 0 {
      RootsStayRoots(entries, order, n - 1);
      RootKeepsRootsOnly(entries, PlaceAll(entries, order, n - 1), order[n - 1]);
      PlaceKeepsKeysTelling(entries, PlaceAll(entries, order, n - 1), order[n - 1]);
    }
  }

  lemma {:induction false} FormsStayFirstCome(entries: seq<Option<Entry>>, order: seq<nat>, r: nat, n: nat)
    requires NoClash(entries) && Listed(entries, order) && r <= n <= |order|
    requires forall k | 0 <= k < r :: !entries[order[k]].value.derived
    requires forall k | r <= k < n :: entries[order[k]].value.derived
    ensures var hosts := PlaceAll(entries, order, n);
      KeysTell(entries, hosts) && WellNested(entries, hosts) && FirstCome(entries, hosts)
    decreases n
  {
    hide Place, WellNested, FirstCome, KeysTell, KeyFor, RootsOnly;
    if n == r {
      RootsStayRoots(entries, order, r);
      RootsFirstCome(entries, PlaceAll(entries, order, r));
    } else {
      FormsStayFirstCome(entries, order, r, n - 1);
      PlaceKeepsKeysTelling(entries, PlaceAll(entries, order, n - 1), order[n - 1]);
      FormKeepsFirstCome(entries, PlaceAll(entries, order, n - 1), order[n - 1]);
    }
  }

  lemma GroupedFirstCome(entries: seq<Option<Entry>>)
    requires NoClash(entries)
    ensures WellNested(entries, Grouped(entries)) && FirstCome(entries, Grouped(entries))
  {
    var roots, derived := Positions(entries, false, |entries|), Positions(entries, true, |entries|);
    PositionsOfKind(entries, false, |entries|);
    PositionsOfKind(entries, true, |entries|);
    OrderListed(entries);
    forall k | 0 <= k < |Order(entries)| ensures entries[Order(entries)[k]].value.derived == (k >= |roots|) {
      if k < |roots| {
        assert Order(entries)[k] == roots[k];
      } else {
        assert Order(entries)[k] == derived[k - |roots|];
      }
    }
    FormsStayFirstCome(entries, Order(entries), |roots|, |Order(entries)|);
  }

  /** The entry goes in under a key that is taken, and there is a form behind that host which the entry could take. */
  ghost predicate Disorders(entries: seq<Option<Entry>>, hosts: seq<Host>, i: nat)
    requires i < |entries| && entries[i].Some? && Within(entries, hosts)
  {
    var key := KeyFor(entries, hosts, i);
    && key.Some? && IndexOfKey(hosts, key.value).Some?
    && exists q | IndexOfKey(hosts, key.value).value < q < |hosts| :: !NoneFor(entries, i, hosts[q])
  }

  lemma OverwritingDisordersIff(entries: seq<Option<Entry>>, hosts: seq<Host>, i: nat, p: nat)
    requires i < |entries| && entries[i].Some? && Within(entries, hosts) && FirstCome(entries, hosts)
    requires var key := KeyFor(entries, hosts, i); key.Some? && IndexOfKey(hosts, key.value) == Some(p)
    ensures FirstCome(entries, Place(entries, hosts, i)) <==> !Disorders(entries, hosts, i)
  {
    var hosts' := Place(entries, hosts, i);
    assert hosts' == hosts[p := Host(KeyFor(entries, hosts, i).value, i, [])];
    if FirstCome(entries, hosts') {
      forall q | p < q < |hosts| ensures NoneFor(entries, i, hosts[q]) {
        assert NoneFor(entries, hosts'[p].root, hosts'[q]);
      }
    }
    if !Disorders(entries, hosts, i) {
      forall r, q | 0 <= q < r < |hosts'| ensures NoneFor(entries, hosts'[q].root, hosts'[r]) {
        assert NoneFor(entries, hosts[q].root, hosts[r]);
      }
    }
  }

  /** One placing ends the order exactly then. */
  lemma PlaceDisordersIff(entries: seq<Option<Entry>>, hosts: seq<Host>, i: nat)
    requires i < |entries| && entries[i].Some? && Within(entries, hosts) && FirstCome(entries, hosts)
    ensures FirstCome(entries, Place(entries, hosts, i)) <==> !Disorders(entries, hosts, i)
  {
    hide FirstCome, Place;
    var key := KeyFor(entries, hosts, i);
    if key.None? {
      NestingKeepsFirstCome(entries, hosts, i);
    } else if IndexOfKey(hosts, key.value).Some? {
      OverwritingDisordersIff(entries, hosts, i, IndexOfKey(hosts, key.value).value);
    } else {
      StandingKeepsFirstCome(entries, hosts, i);
    }
  }

  lemma NothingPlaced(entries: seq<Option<Entry>>, order: seq<nat>)
    requires Listed(entries, order)
    ensures PlaceAll(entries, order, 0) == [] && FirstCome(entries, [])
  {
  }

  lemma PlaceAllNext(entries: seq<Option<Entry>>, order: seq<nat>, n: nat)
    requires Listed(entries, order) && n < |order|
    ensures PlaceAll(entries, order, n + 1) == Place(entries, PlaceAll(entries, order, n), order[n])
  {
  }

  /** So the map is in order all along exactly when no placing is of that kind. */
  lemma {:induction false} FirstComeThroughoutIff(entries: seq<Option<Entry>>, order: seq<nat>, n: nat)
    requires Listed(entries, order) && n <= |order|
    ensures (forall k | 0 <= k <= n :: FirstCome(entries, PlaceAll(entries, order, k)))
      <==> forall k | 0 <= k < n :: !Disorders(entries, PlaceAll(entries, order, k), order[k])
  {
    hide FirstCome, Place, PlaceAll, Disorders;
    NothingPlaced(entries, order);
    if n > 0 {
      var before, i := PlaceAll(entries, order, n - 1), order[n - 1];
      FirstComeThroughoutIff(entries, order, n - 1);
      PlaceAllNext(entries, order, n - 1);
      if FirstCome(entries, before) {
        PlaceDisordersIff(entries, before, i);
        assert FirstCome(entries, PlaceAll(entries, order, n)) <==> !Disorders(entries, before, i);
      }
    }
  }

  // ---- the keys, foreseen from the words ----

  /** What can be told of a run without the map: the keys computed, and the words that stand on their own. */
  datatype Outlook = Outlook(keys: seq<string>, words: seq<string>)

  predicate Fits(words: seq<string>, word: string)
  {
    exists k | 0 <= k < |words| :: ProperSuffix(words[k], word)
  }

  /**
   * A root's key is its word, numbered if that is a key already; a derived form that no word standing so far fits has
   * its own.
   */
  function Foreseen(entries: seq<Option<Entry>>, order: seq<nat>, n: nat): Outlook
    requires Listed(entries, order) && n <= |order|
  {
    if n == 0 then Outlook([], [])
    else
      var before, e := Foreseen(entries, order, n - 1), entries[order[n - 1]].value;
      if !e.derived then
        var key := if e.word in before.keys then e.word + "_" + Decimal(e.homonym) else e.word;
        Outlook(before.keys + [key], before.words + [e.word])
      else if Fits(before.words, e.word) then before
      else Outlook(before.keys + [e.word + "_derived"], before.words + [e.word])
  }

  /** The words of the hosts, in order. */
  predicate WordsAre(entries: seq<Option<Entry>>, hosts: seq<Host>, words: seq<string>)
    requires Within(entries, hosts)
  {
    |words| == |hosts| && forall p | 0 <= p < |hosts| :: words[p] == entries[hosts[p].root].value.word
  }

  /** As long as no key has come up twice the outlook is right. */
  ghost predicate RightSoFar(entries: seq<Option<Entry>>, order: seq<nat>, n: nat)
    requires Listed(entries, order) && n <= |order|
  {
    var keys, outlook := KeysUsed(entries, order, n), Foreseen(entries, order, n);
    && (NoRepeat(keys) <==> NoRepeat(outlook.keys))
    && (NoRepeat(keys) ==> keys == outlook.keys && WordsAre(entries, PlaceAll(entries, order, n), outlook.words))
  }

  lemma RepeatStays(s: seq<string>, more: seq<string>)
    requires !NoRepeat(s)
    ensures !NoRepeat(s + more)
  {
    var j, k :| 0 <= j < k < |s| && s[j] == s[k];
    assert (s + more)[j] == (s + more)[k];
  }

  lemma KeyIsForeseen(entries: seq<Option<Entry>>, hosts: seq<Host>, keys: seq<string>, words: seq<string>, i: nat)
    requires i < |entries| && entries[i].Some? && Within(entries, hosts) && HasKeys(hosts, keys)
      && WordsAre(entries, hosts, words)
    ensures var e := entries[i].value;
      KeyFor(entries, hosts, i)
        == if !e.derived then Some(if e.word in keys then e.word + "_" + Decimal(e.homonym) else e.word)
           else if Fits(words, e.word) then None else Some(e.word + "_derived")
  {
    var e := entries[i].value;
    assert HasKey(hosts, e.word) <==> e.word in keys;
    assert IndexOfKey(hosts, e.word).Some? <==> HasKey(hosts, e.word);
    if FirstHost(entries, hosts, e.word).Some? {
      var p := FirstHost(entries, hosts, e.word).value;
      assert ProperSuffix(words[p], e.word);
    }
  }

  lemma PlaceKeepsWords(entries: seq<Option<Entry>>, hosts: seq<Host>, words: seq<string>, i: nat)
    requires i < |entries| && entries[i].Some? && Within(entries, hosts) && WordsAre(entries, hosts, words)
    requires KeyFor(entries, hosts, i).Some? ==> !HasKey(hosts, KeyFor(entries, hosts, i).value)
    ensures WordsAre(entries, Place(entries, hosts, i),
                     if KeyFor(entries, hosts, i).Some? then words + [entries[i].value.word] else words)
  {
  }

  lemma StaysRight(entries: seq<Option<Entry>>, order: seq<nat>, n: nat)
    requires Listed(entries, order) && NoRepeat(order) && n < |order| && RightSoFar(entries, order, n)
    ensures RightSoFar(entries, order, n + 1)
  {
    var hosts, keys, i := PlaceAll(entries, order, n), KeysUsed(entries, order, n), order[n];
    var outlook, key := Foreseen(entries, order, n), KeyFor(entries, hosts, i);
    var more := if key.Some? then [key.value] else [];
    var foreseen := Foreseen(entries, order, n + 1).keys[|outlook.keys|..];
    assert KeysUsed(entries, order, n + 1) == keys + more
      && Foreseen(entries, order, n + 1).keys == outlook.keys + foreseen;
    if !NoRepeat(keys) {
      RepeatStays(keys, more);
      RepeatStays(outlook.keys, foreseen);
    } else {
      AllSound(entries, order, n);
      KeyIsForeseen(entries, hosts, keys, outlook.words, i);
      if key.Some? {
        NoRepeatAppend(keys, key.value);
      }
      if NoRepeat(keys + more) {
        PlaceKeepsWords(entries, hosts, outlook.words, i);
      }
    }
  }

  lemma StartsRight(entries: seq<Option<Entry>>, order: seq<nat>)
    requires Listed(entries, order)
    ensures RightSoFar(entries, order, 0)
  {
  }

  lemma {:induction false} AllRight(entries: seq<Option<Entry>>, order: seq<nat>, n: nat)
    requires Listed(entries, order) && NoRepeat(order) && n <= |order|
    ensures RightSoFar(entries, order, n)
  {
    hide RightSoFar;
    if n == 0 {
      StartsRight(entries, order);
    } else {
      AllRight(entries, order, n - 1);
      StaysRight(entries, order, n - 1);
    }
  }

  /** The keys, from the words and homonym numbers. */
  function ForeseenKeys(entries: seq<Option<Entry>>): seq<string>
  {
    OrderListed(entries);
    Foreseen(entries, Order(entries), |Order(entries)|).keys
  }

  // ---- the whole ----

  /**
   * Every entry ends up in at most one place, and what is nested is a derived form under a host whose word is a
   * proper suffix of it. Nothing is lost exactly when no two of the keys foreseen from the words and homonym numbers
   * are equal. Whether or not anything is lost, every derived form is under, or stands behind hosts none of which is
   * before, the first that could take it, unless a root is spelled like the key of a derived form.
   */
  lemma GroupingForest(entries: seq<Option<Entry>>)
    ensures Listed(entries, Order(entries))
    ensures var hosts, keys := Grouped(entries), KeysUsed(entries, Order(entries), |Order(entries)|);
      && Once(hosts) && WellNested(entries, hosts)
      && (forall x: nat | Placed(hosts, x) :: x < |entries| && entries[x].Some?)
      && (NoRepeat(keys) <==> forall x | 0 <= x < |entries| && entries[x].Some? :: Placed(hosts, x))
      && (NoRepeat(keys) <==> NoRepeat(ForeseenKeys(entries)))
      && (NoClash(entries) || NoRepeat(keys) ==> FirstCome(entries, hosts))
  {
    var order := Order(entries);
    OrderComplete(entries);
    AllSound(entries, order, |order|);
    AllRight(entries, order, |order|);
    assert order[..|order|] == order;
    if NoClash(entries) {
      GroupedFirstCome(entries);
    }
  }

  /** One level: a host is nested under nothing. */
  lemma DepthOne(entries: seq<Option<Entry>>, p: nat, q: nat, j: nat)
    requires p < |Grouped(entries)| && q < |Grouped(entries)| && j < |Grouped(entries)[q].forms|
    ensures Grouped(entries)[p].root != Grouped(entries)[q].forms[j]
  {
    var hosts := Grouped(entries);
    GroupingForest(entries);
    assert IsAt(hosts, hosts[p].root, AsRoot(p)) && IsAt(hosts, hosts[q].forms[j], AsForm(q, j));
  }

  /** Two more roots of a word, with the same homonym number, share a key: the first of the two is lost. */
  lemma HomonymsCanCollide(word: string, n: nat)
    ensures var e := Some(Entry(word, n, false)); !Placed(Grouped([e, e, e]), 1)
  {
    var e := Some(Entry(word, n, false));
    var entries, order := [e, e, e], Order([e, e, e]);
    OrderListed(entries);
    ThreeRoots(entries);
    var key := word + "_" + Decimal(n);
    assert key != word;
    var h1 := [Host(word, 0, [])];
    assert PlaceAll(entries, order, 1) == Place(entries, [], 0) == h1;
    var h2 := h1 + [Host(key, 1, [])];
    assert IndexOfKey(h1, word) == Some(0) && IndexOfKey(h1, key) == None;
    assert PlaceAll(entries, order, 2) == Place(entries, h1, 1) == h2;
    assert IndexOfKey(h2, word) == Some(0) && IndexOfKey(h2, key) == Some(1);
    assert PlaceAll(entries, order, 3) == Place(entries, h2, 2) == [Host(word, 0, []), Host(key, 2, [])];
  }

  lemma ThreeRoots(entries: seq<Option<Entry>>)
    requires |entries| == 3 && forall i | 0 <= i < 3 :: entries[i].Some? && !entries[i].value.derived
    ensures Order(entries) == [0, 1, 2]
  {
    PositionsNext(entries, false, 2);
    PositionsNext(entries, false, 1);
    PositionsNext(entries, false, 0);
    PositionsNext(entries, true, 2);
    PositionsNext(entries, true, 1);
    PositionsNext(entries, true, 0);
  }

  /** A root that clashes with the word x, a form that ends in x, and x itself. */
  function Clashing(x: string): seq<Option<Entry>>
  {
    [Some(Entry(x + "_derived", 1, false)), Some(Entry("a" + x, 1, true)), Some(Entry(x, 1, true))]
  }

  lemma ClashingHosts(x: string)
    ensures var entries, key, other := Clashing(x), x + "_derived", "a" + x + "_derived";
      && Place(entries, [], 0) == [Host(key, 0, [])]
      && Place(entries, [Host(key, 0, [])], 1) == [Host(key, 0, []), Host(other, 1, [])]
  {
    var entries, key, other := Clashing(x), x + "_derived", "a" + x + "_derived";
    assert |key| != |other|;
    FirstHostIs(entries, [Host(key, 0, [])], "a" + x, 1);
  }

  lemma ClashingOverwrites(x: string)
    ensures var entries, key, other := Clashing(x), x + "_derived", "a" + x + "_derived";
      Place(entries, [Host(key, 0, []), Host(other, 1, [])], 2) == [Host(key, 2, []), Host(other, 1, [])]
  {
    var hosts := [Host(x + "_derived", 0, []), Host("a" + x + "_derived", 1, [])];
    FirstHostIs(Clashing(x), hosts, x, 2);
    assert IndexOfKey(hosts, x + "_derived") == Some(0);
  }

  lemma ClashingSteps(x: string)
    ensures Order(Clashing(x)) == [0, 1, 2]
    ensures Grouped(Clashing(x)) == [Host(x + "_derived", 2, []), Host("a" + x + "_derived", 1, [])]
  {
    hide Place;
    var entries := Clashing(x);
    OrderListed(entries);
    OneRootTwoForms(entries);
    ClashingHosts(x);
    ClashingOverwrites(x);
    assert PlaceAll(entries, Order(entries), 1) == Place(entries, [], 0);
    assert PlaceAll(entries, Order(entries), 2) == Place(entries, PlaceAll(entries, Order(entries), 1), 1);
    assert PlaceAll(entries, Order(entries), 3) == Place(entries, PlaceAll(entries, Order(entries), 2), 2);
  }

  /**
   * Otherwise order can be lost: the root's place goes to a form that the one behind it should have been nested
   * under.
   */
  lemma ClashCanDisorder(x: string)
    ensures WellNested(Clashing(x), Grouped(Clashing(x))) && !FirstCome(Clashing(x), Grouped(Clashing(x)))
  {
    hide Grouped, Placed, Once;
    GroupingForest(Clashing(x));
    ClashingSteps(x);
    var hosts := Grouped(Clashing(x));
    assert ("a" + x)[1..] == x && hosts[0].root == 2 && hosts[1].root == 1;
  }

  lemma OneRootTwoForms(entries: seq<Option<Entry>>)
    requires |entries| == 3 && forall i | 0 <= i < 3 :: entries[i].Some? && entries[i].value.derived == (i > 0)
    ensures Order(entries) == [0, 1, 2]
  {
    PositionsNext(entries, false, 2);
    PositionsNext(entries, false, 1);
    PositionsNext(entries, false, 0);
    PositionsNext(entries, true, 2);
    PositionsNext(entries, true, 1);
    PositionsNext(entries, true, 0);
  }
}
