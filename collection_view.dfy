/**
  The collection page's logic: the per-rarity summary tally, the filter chain that picks the
  cards to show, the four sort orders, and the string helpers that feed the markup.
 */
module CollectionView {
  import opened Builtins
  import opened Cards
  import Store
  import Packs

  /** `col[c.id] ?? 0`: how many copies of `c` the collection holds. */
  function Owned(col: Store.Collection, c: Card): (n: nat)
    ensures c.id !in col ==> n == 0
    ensures c.id in col ==> n == col[c.id]
  {
    Store.CountOf(col, c.id)
  }

  // ---------------------------------------------------------------------------------------
  // Summary tally

  /** The summary count of tier `t`: copies owned, summed over the catalog cards of `t`. */
  function OwnedTotal(cards: seq<Card>, col: Store.Collection, t: string): (n: nat)
    ensures cards == [] ==> n == 0
    decreases |cards|
  {
    if cards == [] then 0
    else
      var c := cards[|cards| - 1];
      OwnedTotal(cards[..|cards| - 1], col, t) + (if c.rarity == t then Owned(col, c) else 0)
  }

  /** The summary's unique count of tier `t`: catalog cards of `t` owned at least once. */
  function OwnedDistinct(cards: seq<Card>, col: Store.Collection, t: string): (n: nat)
    ensures n <= |cards|
    decreases |cards|
  {
    if cards == [] then 0
    else
      var c := cards[|cards| - 1];
      OwnedDistinct(cards[..|cards| - 1], col, t) + (if c.rarity == t && Owned(col, c) > 0 then 1 else 0)
  }

  /** The catalog cards of tier `t` that are owned at least once. */
  function OwnedOfTier(cards: seq<Card>, col: Store.Collection, t: string): seq<Card>
  {
    Filter(cards, (c: Card) => c.rarity == t && Owned(col, c) > 0)
  }

  /** One more catalog card adds its owned count to the total of its own tier. */
  lemma OwnedTotalSnoc(cards: seq<Card>, c: Card, col: Store.Collection, t: string)
    ensures OwnedTotal(cards + [c], col, t)
      == OwnedTotal(cards, col, t) + (if c.rarity == t then Owned(col, c) else 0)
  {
    assert (cards + [c])[..|cards|] == cards;
  }

  /** One more catalog card adds one to the unique count of its own tier when it is owned. */
  lemma OwnedDistinctSnoc(cards: seq<Card>, c: Card, col: Store.Collection, t: string)
    ensures OwnedDistinct(cards + [c], col, t)
      == OwnedDistinct(cards, col, t) + (if c.rarity == t && Owned(col, c) > 0 then 1 else 0)
  {
    assert (cards + [c])[..|cards|] == cards;
  }

  /** The unique count is the number of catalog cards the filter "of tier `t` and owned" keeps. */
  lemma {:induction false} OwnedDistinctCounts(cards: seq<Card>, col: Store.Collection, t: string)
    ensures OwnedDistinct(cards, col, t) == |OwnedOfTier(cards, col, t)|
    decreases |cards|
  {
    if cards != [] {
      var init, c := cards[..|cards| - 1], cards[|cards| - 1];
      OwnedDistinctCounts(init, col, t);
      assert cards == init + [c];
      FilterAppend(init, [c], (x: Card) => x.rarity == t && Owned(col, x) > 0);
    }
  }

  /** The summary counts over the tiers `tiers`: tier to total owned. */
  function Totals(tiers: set<string>, cards: seq<Card>, col: Store.Collection): (m: map<string, nat>)
    ensures m.Keys == tiers
  {
    map t | t in tiers :: OwnedTotal(cards, col, t)
  }

  /** The summary's unique counts over the tiers `tiers`: tier to distinct cards owned. */
  function Uniques(tiers: set<string>, cards: seq<Card>, col: Store.Collection): (m: map<string, nat>)
    ensures m.Keys == tiers
  {
    map t | t in tiers :: OwnedDistinct(cards, col, t)
  }

  /** One more catalog card raises only the total of its own tier, and nothing when its
      rarity is not a tier. */
  lemma TotalsSnoc(tiers: set<string>, cards: seq<Card>, c: Card, col: Store.Collection)
    ensures Totals(tiers, cards + [c], col) ==
      if c.rarity in Totals(tiers, cards, col)
      then Totals(tiers, cards, col)[c.rarity := Totals(tiers, cards, col)[c.rarity] + Store.CountOf(col, c.id)]
      else Totals(tiers, cards, col)
  {
    var before, after := Totals(tiers, cards, col), Totals(tiers, cards + [c], col);
    var expected := if c.rarity in tiers then before[c.rarity := before[c.rarity] + Owned(col, c)] else before;
    forall t | t in tiers ensures after[t] == expected[t] {
      OwnedTotalSnoc(cards, c, col, t);
    }
    assert after.Keys == expected.Keys;
  }

  /** One more catalog card, when owned, raises only the unique count of its own tier. */
  lemma UniquesSnoc(tiers: set<string>, cards: seq<Card>, c: Card, col: Store.Collection)
    ensures Uniques(tiers, cards + [c], col) ==
      if c.rarity in tiers && Store.CountOf(col, c.id) > 0
      then Uniques(tiers, cards, col)[c.rarity := Uniques(tiers, cards, col)[c.rarity] + 1]
      else Uniques(tiers, cards, col)
  {
    var before, after := Uniques(tiers, cards, col), Uniques(tiers, cards + [c], col);
    var expected := if c.rarity in tiers && Owned(col, c) > 0 then before[c.rarity := before[c.rarity] + 1] else before;
    forall t | t in tiers ensures after[t] == expected[t] {
      OwnedDistinctSnoc(cards, c, col, t);
    }
    assert after.Keys == expected.Keys;
  }

  /** One pass of the tally loop, over card `cards[i]`, stated on the tallies of the cards
      before it: a card whose rarity is not a tier changes nothing, any other adds its owned
      count to its tier's total and, when owned, one to its tier's unique count. */
  lemma TallyStep(tiers: set<string>, cards: seq<Card>, i: nat, col: Store.Collection,
                  counts: map<string, nat>, uniques: map<string, nat>)
    requires i < |cards|
    requires counts == Totals(tiers, cards[..i], col) && uniques == Uniques(tiers, cards[..i], col)
    ensures var c, n := cards[i], Store.CountOf(col, cards[i].id);
      && (c.rarity in counts <==> c.rarity in uniques)
      && (c.rarity !in counts ==>
            Totals(tiers, cards[..i + 1], col) == counts && Uniques(tiers, cards[..i + 1], col) == uniques)
      && (c.rarity in counts ==>
            Totals(tiers, cards[..i + 1], col) == counts[c.rarity := counts[c.rarity] + n])
      && (c.rarity in counts && n > 0 ==>
            Uniques(tiers, cards[..i + 1], col) == uniques[c.rarity := uniques[c.rarity] + 1])
      && (c.rarity in counts && n == 0 ==> Uniques(tiers, cards[..i + 1], col) == uniques)
  {
    assert cards[..i + 1] == cards[..i] + [cards[i]];
    TotalsSnoc(tiers, cards[..i], cards[i], col);
    UniquesSnoc(tiers, cards[..i], cards[i], col);
  }

  /** The tally of `renderSummary`: zero-fill the five tiers, then tally the catalog. */
  method Summarize(allCards: seq<Card>, col: Store.Collection)
    returns (counts: map<string, nat>, uniques: map<string, nat>)
    ensures counts == Totals(TierSet, allCards, col) && uniques == Uniques(TierSet, allCards, col)
  {
    counts, uniques := map[], map[];
    for i := 0 to |Tiers|
      invariant counts == uniques == map t | t in Tiers[..i] :: 0
    {
      assert Tiers[..i + 1] == Tiers[..i] + [Tiers[i]];
      counts := counts[Tiers[i] := 0];
      uniques := uniques[Tiers[i] := 0];
    }
    ZeroTallies(col);
    counts, uniques := TallyCards(TierSet, allCards, col, counts, uniques);
  }

  /** The second loop of `renderSummary`: for each catalog card of a tier add its owned count,
      and one more unique card when that count is positive; cards of any other rarity are
      skipped. */
  method TallyCards(tiers: set<string>, allCards: seq<Card>, col: Store.Collection,
                    counts0: map<string, nat>, uniques0: map<string, nat>)
    returns (counts: map<string, nat>, uniques: map<string, nat>)
    requires counts0 == Totals(tiers, [], col) && uniques0 == Uniques(tiers, [], col)
    ensures counts == Totals(tiers, allCards, col) && uniques == Uniques(tiers, allCards, col)
  {
    counts, uniques := counts0, uniques0;
    assert allCards[..0] == [];
    for i := 0 to |allCards|
      invariant counts == Totals(tiers, allCards[..i], col) && uniques == Uniques(tiers, allCards[..i], col)
    {
      var c := allCards[i];
      var n := Store.CountOf(col, c.id);
      ghost var nextCounts, nextUniques := Totals(tiers, allCards[..i + 1], col), Uniques(tiers, allCards[..i + 1], col);
      TallyStep(tiers, allCards, i, col, counts, uniques);
      if c.rarity !in counts {
        assert counts == nextCounts && uniques == nextUniques;
        continue;
      }
      counts := counts[c.rarity := counts[c.rarity] + n];
      assert counts == nextCounts;
      if n > 0 {
        uniques := uniques[c.rarity := uniques[c.rarity] + 1];
      }
      assert uniques == nextUniques;
    }
    assert allCards[..|allCards|] == allCards;
  }

  /** Before any card is tallied, every tier stands at zero. */
  lemma ZeroTallies(col: Store.Collection)
    ensures Totals(TierSet, [], col) == Uniques(TierSet, [], col) == map t | t in Tiers[..|Tiers|] :: 0
  {
    assert Tiers[..|Tiers|] == Tiers;
    assert forall t :: t in TierSet <==> t in Tiers;
  }

  /** A tier's unique count is at most the number of catalog cards of that tier, and at most
      its total count. */
  lemma {:induction false} UniqueBounds(cards: seq<Card>, col: Store.Collection, t: string)
    ensures OwnedDistinct(cards, col, t) <= |Packs.Bucket(cards, t)|
    ensures OwnedDistinct(cards, col, t) <= OwnedTotal(cards, col, t)
    decreases |cards|
  {
    OwnedDistinctCounts(cards, col, t);
    FilterMonotone(cards, (c: Card) => c.rarity == t && Owned(col, c) > 0, (c: Card) => c.rarity == t);
    if cards != [] {
      UniqueBounds(cards[..|cards| - 1], col, t);
    }
  }

  /** Adding cards to the collection never lowers a tier's total or unique count. */
  lemma {:induction false} SummaryNeverDecreases(cards: seq<Card>, col: Store.Collection, ids: seq<string>, t: string)
    ensures OwnedTotal(cards, Store.AddAll(col, ids), t) >= OwnedTotal(cards, col, t)
    ensures OwnedDistinct(cards, Store.AddAll(col, ids), t) >= OwnedDistinct(cards, col, t)
    decreases |cards|
  {
    if cards != [] {
      Store.AddAllCounts(col, ids);
      SummaryNeverDecreases(cards[..|cards| - 1], col, ids, t);
    }
  }

  // ---------------------------------------------------------------------------------------
  // Filter chain

  /** The search box's text, trimmed and lower-cased. */
  function Query(search: string): (q: string)
    ensures NoUpper(q)
  {
    Lower(Trim(search))
  }

  /** Whether `render` shows card `c`: it is of the active tab's rarity, its lower-cased name
      contains the query when there is one, and it is owned when only owned cards are shown. */
  predicate Shown(col: Store.Collection, activeRarity: string, q: string, ownedOnly: bool, c: Card)
  {
    c.rarity == activeRarity
    && (q != [] ==> Includes(Lower(c.name), q))
    && (ownedOnly ==> Owned(col, c) > 0)
  }

  /** The filter chain of `render`: by rarity, then by name when the query is not empty, then
      by ownership when asked. The three filters amount to one filter by `Shown`. */
  method FilterCards(allCards: seq<Card>, col: Store.Collection, activeRarity: string, search: string, ownedOnly: bool)
    returns (cards: seq<Card>)
    ensures cards == Filter(allCards, (c: Card) => Shown(col, activeRarity, Query(search), ownedOnly, c))
    ensures IsSubsequence(cards, allCards)
    ensures forall c :: c in cards <==> c in allCards && Shown(col, activeRarity, Query(search), ownedOnly, c)
  {
    var q := Query(search);
    ghost var shown := (c: Card) => Shown(col, activeRarity, q, ownedOnly, c);
    ghost var byRarity := (c: Card) => c.rarity == activeRarity;
    ghost var byName := (c: Card) => c.rarity == activeRarity && (q != [] ==> Includes(Lower(c.name), q));
    cards := Filter(allCards, (c: Card) => c.rarity == activeRarity);
    assert cards == Filter(allCards, byRarity);
    if q != [] {
      FilterFuse(allCards, byRarity, (c: Card) => Includes(Lower(c.name), q), byName);
      cards := Filter(cards, (c: Card) => Includes(Lower(c.name), q));
    } else {
      FilterExt(allCards, byRarity, byName);
    }
    assert cards == Filter(allCards, byName);
    if ownedOnly {
      FilterFuse(allCards, byName, (c: Card) => Owned(col, c) > 0, shown);
      cards := Filter(cards, (c: Card) => Owned(col, c) > 0);
    } else {
      FilterExt(allCards, byName, shown);
    }
    assert cards == Filter(allCards, shown);
  }

  // ---------------------------------------------------------------------------------------
  // Sort orders

  /** `d || e` on numbers: `d`, unless it is 0. */
  function OrNumber(d: int, e: int): (r: int)
    ensures d != 0 ==> r == d
    ensures d == 0 ==> r == e
    ensures r < 0 <==> d < 0 || (d == 0 && e < 0)
  {
    if d != 0 then d else e
  }

  /** The sort modes of the collection page's sort menu. */
  datatype SortMode = CountDesc | CountAsc | NameDesc | NameAsc

  /** The mode a value of the sort menu selects: any value other than the three named ones
      sorts by ascending name. */
  function ModeOf(value: string): (m: SortMode)
    ensures m == CountDesc <==> value == "count-desc"
    ensures m == CountAsc <==> value == "count-asc"
    ensures m == NameDesc <==> value == "name-desc"
  {
    if value == "count-desc" then CountDesc
    else if value == "count-asc" then CountAsc
    else if value == "name-desc" then NameDesc
    else NameAsc
  }

  /** The comparator `sortCards` hands to `Array.prototype.sort` in mode `mode`: negative
      when `x` goes first. */
  function CompareBy(mode: SortMode, col: Store.Collection, x: Card, y: Card): (r: int)
    ensures mode == CountDesc && Owned(col, x) != Owned(col, y) ==> (r < 0 <==> Owned(col, x) > Owned(col, y))
    ensures mode == CountAsc && Owned(col, x) != Owned(col, y) ==> (r < 0 <==> Owned(col, x) < Owned(col, y))
    ensures (mode == CountDesc || mode == CountAsc) && Owned(col, x) == Owned(col, y) ==> r == Compare(x.name, y.name)
    ensures mode == NameDesc ==> r == Compare(y.name, x.name)
    ensures mode == NameAsc ==> r == Compare(x.name, y.name)
    ensures r == 0 <==> x.name == y.name && (mode == CountDesc || mode == CountAsc ==> Owned(col, x) == Owned(col, y))
  {
    match mode
    case CountDesc => OrNumber(Owned(col, y) - Owned(col, x), Compare(x.name, y.name))
    case CountAsc => OrNumber(Owned(col, x) - Owned(col, y), Compare(x.name, y.name))
    case NameDesc => Compare(y.name, x.name)
    case NameAsc => Compare(x.name, y.name)
  }

  /** The comparator is antisymmetric: swapping its arguments flips its sign. */
  lemma CompareByFlip(mode: SortMode, col: Store.Collection, x: Card, y: Card)
    ensures CompareBy(mode, col, y, x) == -CompareBy(mode, col, x, y)
  {
    CompareFlip(x.name, y.name);
  }

  /** "Goes no later than" is transitive in every mode. */
  lemma CompareByTransitive(mode: SortMode, col: Store.Collection, x: Card, y: Card, z: Card)
    requires CompareBy(mode, col, x, y) <= 0 && CompareBy(mode, col, y, z) <= 0
    ensures CompareBy(mode, col, x, z) <= 0
  {
    match mode
    case CountDesc | CountAsc =>
      if Owned(col, x) == Owned(col, y) == Owned(col, z) {
        CompareTransitive(x.name, y.name, z.name);
      }
    case NameDesc => CompareTransitive(z.name, y.name, x.name);
    case NameAsc => CompareTransitive(x.name, y.name, z.name);
  }

  /** No element of `s` goes after a later one. */
  predicate SortedBy(mode: SortMode, col: Store.Collection, s: seq<Card>)
  {
    forall i, j :: 0 <= i < j < |s| ==> CompareBy(mode, col, s[i], s[j]) <= 0
  }

  /** Places `x` after the last element of `s` that goes no later than it. */
  function Insert(mode: SortMode, col: Store.Collection, x: Card, s: seq<Card>): (r: seq<Card>)
    ensures multiset(r) == multiset(s) + multiset{x}
    decreases |s|
  {
    if s == [] then [x]
    else if CompareBy(mode, col, s[|s| - 1], x) <= 0 then s + [x]
    else
      var init := s[..|s| - 1];
      assert s == init + [s[|s| - 1]];
      Insert(mode, col, x, init) + [s[|s| - 1]]
  }

  /** An element that goes no earlier than every element of a sorted sequence can follow it. */
  lemma SortedSnoc(mode: SortMode, col: Store.Collection, t: seq<Card>, y: Card)
    requires SortedBy(mode, col, t)
    requires forall i :: 0 <= i < |t| ==> CompareBy(mode, col, t[i], y) <= 0
    ensures SortedBy(mode, col, t + [y])
  {
    var r := t + [y];
    forall i, j | 0 <= i < j < |r| ensures CompareBy(mode, col, r[i], r[j]) <= 0 {
      if j < |t| {
        assert r[i] == t[i] && r[j] == t[j];
      } else {
        assert r[i] == t[i] && r[j] == y;
      }
    }
  }

  /** Inserting into a sorted sequence keeps it sorted. */
  lemma {:induction false} InsertSorted(mode: SortMode, col: Store.Collection, x: Card, s: seq<Card>)
    requires SortedBy(mode, col, s)
    ensures SortedBy(mode, col, Insert(mode, col, x, s))
    decreases |s|
  {
    if s != [] {
      var last := s[|s| - 1];
      if CompareBy(mode, col, last, x) <= 0 {
        forall i | 0 <= i < |s| ensures CompareBy(mode, col, s[i], x) <= 0 {
          if i < |s| - 1 {
            CompareByTransitive(mode, col, s[i], last, x);
          }
        }
        SortedSnoc(mode, col, s, x);
      } else {
        var init := s[..|s| - 1];
        var t := Insert(mode, col, x, init);
        InsertSorted(mode, col, x, init);
        CompareByFlip(mode, col, last, x);
        forall i | 0 <= i < |t| ensures CompareBy(mode, col, t[i], last) <= 0 {
          assert t[i] in multiset(init) + multiset{x};
          if t[i] != x {
            assert t[i] in init;
            var k :| 0 <= k < |init| && init[k] == t[i];
            assert s[k] == t[i];
          }
        }
        SortedSnoc(mode, col, t, last);
      }
    }
  }

  /** `Array.prototype.sort` with the comparator of mode `mode`, as a stable insertion sort. */
  function SortBy(mode: SortMode, col: Store.Collection, s: seq<Card>): (r: seq<Card>)
    ensures multiset(r) == multiset(s)
    decreases |s|
  {
    if s == [] then []
    else
      var init := s[..|s| - 1];
      assert s == init + [s[|s| - 1]];
      Insert(mode, col, s[|s| - 1], SortBy(mode, col, init))
  }

  /** The sort leaves its result in the order of the comparator. */
  lemma {:induction false} SortBySorted(mode: SortMode, col: Store.Collection, s: seq<Card>)
    ensures SortedBy(mode, col, SortBy(mode, col, s))
    decreases |s|
  {
    if s != [] {
      var init := s[..|s| - 1];
      SortBySorted(mode, col, init);
      InsertSorted(mode, col, s[|s| - 1], SortBy(mode, col, init));
    }
  }

  /** A prefix of a sorted sequence is sorted. */
  lemma SortedPrefix(mode: SortMode, col: Store.Collection, s: seq<Card>, n: nat)
    requires SortedBy(mode, col, s) && n <= |s|
    ensures SortedBy(mode, col, s[..n])
  {
    forall i, j | 0 <= i < j < n ensures CompareBy(mode, col, s[..n][i], s[..n][j]) <= 0 {
      assert s[..n][i] == s[i] && s[..n][j] == s[j];
    }
  }

  /** An element that goes no earlier than the last one is inserted at the end. */
  lemma InsertAtEnd(mode: SortMode, col: Store.Collection, x: Card, s: seq<Card>)
    requires s == [] || CompareBy(mode, col, s[|s| - 1], x) <= 0
    ensures Insert(mode, col, x, s) == s + [x]
  {
  }

  /** Sorting an already sorted sequence leaves it unchanged; so sorting twice is sorting once. */
  lemma {:induction false} SortBySortedIsIdentity(mode: SortMode, col: Store.Collection, s: seq<Card>)
    requires SortedBy(mode, col, s)
    ensures SortBy(mode, col, s) == s
    decreases |s|
  {
    if s != [] {
      var init, last := s[..|s| - 1], s[|s| - 1];
      assert s == init + [last];
      assert SortedBy(mode, col, init) by {
        SortedPrefix(mode, col, s, |s| - 1);
      }
      assert init == [] || CompareBy(mode, col, init[|init| - 1], last) <= 0 by {
        if init != [] {
          assert init[|init| - 1] == s[|s| - 2];
        }
      }
      SortBySortedIsIdentity(mode, col, init);
      InsertAtEnd(mode, col, last, init);
    }
  }

  /** `sortCards`: the cards, permuted into the order of the selected sort mode. The input is
      left as it was (the source sorts a copy). */
  function SortCards(cards: seq<Card>, col: Store.Collection, mode: string): (r: seq<Card>)
    ensures multiset(r) == multiset(cards)
    ensures SortedBy(ModeOf(mode), col, r)
  {
    SortBySorted(ModeOf(mode), col, cards);
    SortBy(ModeOf(mode), col, cards)
  }

  /** What each sort mode means for the cards of the result, taken pairwise in order. */
  lemma SortOrders(cards: seq<Card>, col: Store.Collection, mode: string)
    ensures var r := SortCards(cards, col, mode);
      forall i, j :: 0 <= i < j < |r| ==>
        (mode == "count-desc" ==>
          (Owned(col, r[i]) >= Owned(col, r[j])
           && (Owned(col, r[i]) == Owned(col, r[j]) ==> Compare(r[i].name, r[j].name) <= 0)))
        && (mode == "count-asc" ==>
          (Owned(col, r[i]) <= Owned(col, r[j])
           && (Owned(col, r[i]) == Owned(col, r[j]) ==> Compare(r[i].name, r[j].name) <= 0)))
        && (mode == "name-desc" ==> Compare(r[j].name, r[i].name) <= 0)
        && (mode !in {"count-desc", "count-asc", "name-desc"} ==> Compare(r[i].name, r[j].name) <= 0)
  {
    var r := SortCards(cards, col, mode);
    forall i, j | 0 <= i < j < |r|
      ensures CompareBy(ModeOf(mode), col, r[i], r[j]) <= 0
    {
    }
  }

  /** The list `render` shows: the filter chain, then the sort. */
  method ListCards(allCards: seq<Card>, col: Store.Collection, activeRarity: string, search: string,
                   ownedOnly: bool, mode: string) returns (cards: seq<Card>)
    ensures multiset(cards) == multiset(Filter(allCards, (c: Card) => Shown(col, activeRarity, Query(search), ownedOnly, c)))
    ensures SortedBy(ModeOf(mode), col, cards)
    ensures forall c :: c in cards <==> c in allCards && Shown(col, activeRarity, Query(search), ownedOnly, c)
  {
    cards := FilterCards(allCards, col, activeRarity, search, ownedOnly);
    ghost var filtered := cards;
    cards := SortCards(cards, col, mode);
    assert forall c :: c in cards <==> c in multiset(filtered);
  }

  // ---------------------------------------------------------------------------------------
  // Markup helpers

  /** `rarityVar`: the CSS custom property that colours a tier's glow. */
  function RarityVar(r: string): (v: string)
    ensures HasPrefix(v, "var(--") && v[|v| - 1] == ')'
    ensures v == "var(--common)" <==> r !in {"uncommon", "rare", "legendary", "ultra x rare"}
    ensures r == "uncommon" ==> v == "var(--uncommon)"
    ensures r == "rare" ==> v == "var(--rare)"
    ensures r == "legendary" ==> v == "var(--legendary)"
    ensures r == "ultra x rare" ==> v == "var(--ultrax)"
  {
    if r == "uncommon" then "var(--uncommon)"
    else if r == "rare" then "var(--rare)"
    else if r == "legendary" then "var(--legendary)"
    else if r == "ultra x rare" then "var(--ultrax)"
    else "var(--common)"
  }

  /** Each of the five tiers glows in a colour of its own. */
  lemma RarityVarDistinct(a: string, b: string)
    requires a in TierSet && b in TierSet && a != b
    ensures RarityVar(a) != RarityVar(b)
  {
  }

  /** The characters `escapeHtml` replaces. */
  const HtmlSpecial: string := "&<>\"'"

  /** The replacement of one character. */
  function EscapeChar(c: char): (e: string)
    ensures c !in HtmlSpecial ==> e == [c]
    ensures c in HtmlSpecial ==> |e| >= 4 && e[0] == '&' && e[|e| - 1] == ';'
  {
    if c == '&' then "&amp;"
    else if c == '<' then "&lt;"
    else if c == '>' then "&gt;"
    else if c == '"' then "&quot;"
    else if c == '\'' then "&#39;"
    else [c]
  }

  /** `escapeHtml`: every `& < > " '` replaced by its entity, every other character kept. */
  function EscapeHtml(s: string): (r: string)
    ensures forall k :: 0 <= k < |r| ==> r[k] !in "<>\"'"
    ensures (forall k :: 0 <= k < |s| ==> s[k] !in HtmlSpecial) ==> r == s
    ensures |r| >= |s|
    ensures |s| == 1 ==> r == EscapeChar(s[0])
    decreases |s|
  {
    if s == [] then [] else EscapeChar(s[0]) + EscapeHtml(s[1..])
  }

  /** Escaping works character by character: the escape of a concatenation is the
      concatenation of the escapes. */
  lemma {:induction false} EscapeHtmlAppend(a: string, b: string)
    ensures EscapeHtml(a + b) == EscapeHtml(a) + EscapeHtml(b)
    decreases |a|
  {
    if a == [] {
      assert a + b == b;
    } else {
      assert (a + b)[0] == a[0] && (a + b)[1..] == a[1..] + b;
      EscapeHtmlAppend(a[1..], b);
    }
  }

  /** Decodes the five entities `escapeHtml` produces; any other character is kept. */
  function UnescapeHtml(s: string): string
    decreases |s|
  {
    if s == [] then []
    else if HasPrefix(s, "&amp;") then "&" + UnescapeHtml(s[5..])
    else if HasPrefix(s, "&lt;") then "<" + UnescapeHtml(s[4..])
    else if HasPrefix(s, "&gt;") then ">" + UnescapeHtml(s[4..])
    else if HasPrefix(s, "&quot;") then "\"" + UnescapeHtml(s[6..])
    else if HasPrefix(s, "&#39;") then "'" + UnescapeHtml(s[5..])
    else [s[0]] + UnescapeHtml(s[1..])
  }

  /** Decoding undoes the escape of one character, whatever follows it. */
  lemma UnescapeEscapeChar(c: char, rest: string)
    ensures UnescapeHtml(EscapeChar(c) + rest) == [c] + UnescapeHtml(rest)
  {
    var e := EscapeChar(c);
    var s := e + rest;
    assert s[..|e|] == e && s[|e|..] == rest;
    if c !in HtmlSpecial {
      assert s[0] == c && s[1..] == rest;
      assert !HasPrefix(s, "&amp;") && !HasPrefix(s, "&lt;") && !HasPrefix(s, "&gt;");
      assert !HasPrefix(s, "&quot;") && !HasPrefix(s, "&#39;");
    } else if c == '&' {
      assert HasPrefix(s, "&amp;");
    } else if c == '<' {
      assert s[1] == 'l';
      assert !HasPrefix(s, "&amp;") && HasPrefix(s, "&lt;");
    } else if c == '>' {
      assert s[1] == 'g';
      assert !HasPrefix(s, "&amp;") && !HasPrefix(s, "&lt;") && HasPrefix(s, "&gt;");
    } else if c == '"' {
      assert s[1] == 'q';
      assert !HasPrefix(s, "&amp;") && !HasPrefix(s, "&lt;") && !HasPrefix(s, "&gt;");
      assert HasPrefix(s, "&quot;");
    } else {
      assert s[1] == '#';
      assert !HasPrefix(s, "&amp;") && !HasPrefix(s, "&lt;") && !HasPrefix(s, "&gt;");
      assert !HasPrefix(s, "&quot;") && HasPrefix(s, "&#39;");
    }
  }

  /** Escaping loses nothing: decoding the escaped text gives back the original. */
  lemma {:induction false} EscapeHtmlRoundTrip(s: string)
    ensures UnescapeHtml(EscapeHtml(s)) == s
    decreases |s|
  {
    if s != [] {
      UnescapeEscapeChar(s[0], EscapeHtml(s[1..]));
      EscapeHtmlRoundTrip(s[1..]);
    }
  }

  /** `escapeBadgeClass`: every maximal run of whitespace becomes a backslash and a space. */
  function EscapeBadgeClass(s: string): (r: string)
    ensures |r| <= 2 * |s|
    ensures r == [] <==> s == []
    decreases |s|
  {
    if s == [] then []
    else if IsSpace(s[0]) then
      var n := LeadingSpaces(s);
      "\\ " + EscapeBadgeClass(s[n..])
    else
      [s[0]] + EscapeBadgeClass(s[1..])
  }

  /** Text without whitespace is left alone. */
  lemma {:induction false} EscapeBadgeClassNoSpace(s: string)
    requires NoSpace(s)
    ensures EscapeBadgeClass(s) == s
    decreases |s|
  {
    if s != [] {
      EscapeBadgeClassNoSpace(s[1..]);
    }
  }

  /** Every whitespace character of `r` is a plain space right after a backslash. */
  predicate SpacesEscaped(r: string)
  {
    forall k :: 0 <= k < |r| && IsSpace(r[k]) ==> r[k] == ' ' && 0 < k && r[k - 1] == '\\'
  }

  /** The only whitespace left in the result is a plain space, each one right after a backslash. */
  lemma {:induction false} EscapeBadgeClassSpaces(s: string)
    ensures SpacesEscaped(EscapeBadgeClass(s))
    decreases |s|
  {
    if s != [] {
      var r := EscapeBadgeClass(s);
      var head, rest;
      if IsSpace(s[0]) {
        head, rest := "\\ ", s[LeadingSpaces(s)..];
        assert !IsSpace(head[0]);
      } else {
        head, rest := [s[0]], s[1..];
      }
      EscapeBadgeClassSpaces(rest);
      var t := EscapeBadgeClass(rest);
      assert r == head + t;
      forall k | 0 <= k < |r| && IsSpace(r[k]) ensures r[k] == ' ' && 0 < k && r[k - 1] == '\\' {
        if k < |head| {
          assert r[k] == head[k];
          if k > 0 {
            assert r[k - 1] == head[k - 1];
          }
        } else {
          var m := k - |head|;
          assert r[k] == t[m] && IsSpace(t[m]);
          assert t[m] == ' ' && 0 < m && t[m - 1] == '\\';
          assert r[k - 1] == t[m - 1];
        }
      }
    }
  }

  /** A run of whitespace alone becomes one backslash-space. */
  lemma EscapeBadgeClassRun(s: string)
    requires s != [] && AllSpace(s)
    ensures EscapeBadgeClass(s) == "\\ "
  {
    assert LeadingSpaces(s) == |s|;
  }

  /** The whitespace run at the start of `a + b` is the one at the start of `a`, when that
      run ends inside `a` or `b` does not start with whitespace. */
  lemma {:induction false} LeadingSpacesAppend(a: string, b: string)
    requires LeadingSpaces(a) < |a| || b == [] || !IsSpace(b[0])
    ensures LeadingSpaces(a + b) == LeadingSpaces(a)
  {
    if a == [] {
      assert a + b == b;
    } else {
      assert (a + b)[0] == a[0];
      if IsSpace(a[0]) {
        assert (a + b)[1..] == a[1..] + b;
        LeadingSpacesAppend(a[1..], b);
      }
    }
  }

  /** How many characters `escapeBadgeClass` consumes at the start of `s`: the whole
      whitespace run, or one other character. */
  function BadgeSkip(s: string): (n: nat)
    requires s != []
    ensures 1 <= n <= |s|
  {
    if IsSpace(s[0]) then LeadingSpaces(s) else 1
  }

  /** What `escapeBadgeClass` writes for the characters `BadgeSkip` consumes. */
  function BadgeHead(s: string): string
    requires s != []
  {
    if IsSpace(s[0]) then "\\ " else [s[0]]
  }

  /** One step of `escapeBadgeClass`. */
  lemma EscapeBadgeClassUnfold(s: string)
    requires s != []
    ensures EscapeBadgeClass(s) == BadgeHead(s) + EscapeBadgeClass(s[BadgeSkip(s)..])
  {
  }

  /** Appending `b` does not change the first step on `a`, unless it extends a whitespace
      run that fills `a`. */
  lemma BadgeStepAppend(a: string, b: string)
    requires a != [] && (b == [] || !IsSpace(a[|a| - 1]) || !IsSpace(b[0]))
    ensures BadgeSkip(a + b) == BadgeSkip(a) && BadgeHead(a + b) == BadgeHead(a)
    ensures (a + b)[BadgeSkip(a)..] == a[BadgeSkip(a)..] + b
    ensures a[BadgeSkip(a)..] == [] || a[BadgeSkip(a)..][|a[BadgeSkip(a)..]| - 1] == a[|a| - 1]
  {
    assert (a + b)[0] == a[0];
    if IsSpace(a[0]) {
      assert LeadingSpaces(a) < |a| || b == [] || !IsSpace(b[0]) by {
        if LeadingSpaces(a) == |a| {
          assert IsSpace(a[|a| - 1]);
        }
      }
      LeadingSpacesAppend(a, b);
    }
  }

  /** Concatenation regroups freely; stated apart so that the proof below uses it without
      reopening `EscapeBadgeClass`. */
  lemma AppendAssociative(x: string, y: string, z: string)
    ensures x + (y + z) == (x + y) + z
  {
  }

  /** Text split anywhere except inside a run of whitespace escapes piece by piece. */
  lemma {:induction false} EscapeBadgeClassAppend(a: string, b: string)
    requires a == [] || b == [] || !IsSpace(a[|a| - 1]) || !IsSpace(b[0])
    ensures EscapeBadgeClass(a + b) == EscapeBadgeClass(a) + EscapeBadgeClass(b)
    decreases |a|
  {
    if a == [] {
      assert a + b == b;
    } else {
      var head, rest := BadgeHead(a), a[BadgeSkip(a)..];
      BadgeStepAppend(a, b);
      EscapeBadgeClassUnfold(a);
      EscapeBadgeClassUnfold(a + b);
      EscapeBadgeClassAppend(rest, b);
      AppendAssociative(head, EscapeBadgeClass(rest), EscapeBadgeClass(b));
    }
  }
}
