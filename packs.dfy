/**
  Pack generation: the rarity pools built from the catalog, the weighted draw of a pack and the
  Fisher–Yates shuffle that reorders it. Every call of `Math.random()` is a caller-supplied draw
  `u` with `0 <= u < 1`, consumed in the order the source makes its calls.
 */
module Packs {
  import opened Builtins
  import opened Cards

  /** The pools: rarity tier to the catalog cards of that tier. */
  type Pools = map<string, seq<Card>>

  /** The cards of tier `t`, in catalog order. */
  function Bucket(cards: seq<Card>, t: string): (b: seq<Card>)
    ensures |b| <= |cards|
    ensures IsSubsequence(b, cards)
  {
    Filter(cards, (c: Card) => c.rarity == t)
  }

  /** What `buildPools` returns: exactly the five tiers, each with its bucket. */
  function PoolsOf(cards: seq<Card>): (pools: Pools)
    ensures pools.Keys == TierSet
    ensures HasTiers(pools)
  {
    map t | t in TierSet :: Bucket(cards, t)
  }

  /** The pools every pack draws from are present. */
  predicate HasTiers(pools: Pools)
  {
    TierSet <= pools.Keys
  }

  /** `buildPools`: each card whose rarity is one of the tiers is pushed onto that tier's pool. */
  method BuildPools(cards: seq<Card>) returns (pools: Pools)
    ensures pools == PoolsOf(cards)
  {
    pools := EmptyPools();
    assert cards[..0] == [];
    for i := 0 to |cards|
      invariant pools == PoolsOf(cards[..i])
    {
      var c := cards[i];
      PoolsOfSnoc(cards[..i], c);
      assert cards[..i + 1] == cards[..i] + [c];
      if c.rarity in pools {
        pools := pools[c.rarity := pools[c.rarity] + [c]];
      }
    }
    assert cards[..|cards|] == cards;
  }

  /** Appending one card to the catalog appends it to its own pool and to no other. */
  lemma PoolsOfSnoc(cards: seq<Card>, c: Card)
    ensures PoolsOf(cards + [c]) ==
      if c.rarity in PoolsOf(cards) then PoolsOf(cards)[c.rarity := PoolsOf(cards)[c.rarity] + [c]]
      else PoolsOf(cards)
  {
    var before, after := PoolsOf(cards), PoolsOf(cards + [c]);
    var expected := if c.rarity in TierSet then before[c.rarity := before[c.rarity] + [c]] else before;
    forall t | t in TierSet ensures after[t] == expected[t] {
      FilterAppend(cards, [c], (x: Card) => x.rarity == t);
      assert Bucket([c], t) == if c.rarity == t then [c] else [];
    }
    assert after.Keys == expected.Keys;
    assert after == expected;
  }

  /** Each card whose rarity is a tier lands in the pool of that tier and in no other; a
      pool keeps the catalog's order. */
  lemma PoolMembership(cards: seq<Card>)
    ensures PoolsOf(cards).Keys == TierSet
    ensures forall t, c :: t in TierSet ==> (c in PoolsOf(cards)[t] <==> c in cards && c.rarity == t)
    ensures forall t :: t in TierSet ==> IsSubsequence(PoolsOf(cards)[t], cards)
  {
  }

  /** Pools preserve catalog order: the pools of a concatenated catalog are the pools of its
      parts, concatenated. */
  lemma PoolsKeepCatalogOrder(a: seq<Card>, b: seq<Card>)
    ensures forall t :: t in TierSet ==> PoolsOf(a + b)[t] == PoolsOf(a)[t] + PoolsOf(b)[t]
  {
    forall t | t in TierSet ensures Bucket(a + b, t) == Bucket(a, t) + Bucket(b, t) {
      FilterAppend(a, b, (x: Card) => x.rarity == t);
    }
  }

  /** The catalog cards whose rarity is one of the tiers. */
  function Recognised(cards: seq<Card>): seq<Card>
  {
    Filter(cards, (c: Card) => c.rarity in TierSet)
  }

  /** The catalog cards no pool receives. */
  function Dropped(cards: seq<Card>): seq<Card>
  {
    Filter(cards, (c: Card) => c.rarity !in TierSet)
  }

  /** The sum of the five pool sizes. */
  function PoolSizes(pools: Pools): nat
    requires HasTiers(pools)
  {
    |pools["common"]| + |pools["uncommon"]| + |pools["rare"]| + |pools["legendary"]|
      + |pools["ultra x rare"]|
  }

  /** The pools partition the recognised cards: their sizes add up to the number of recognised
      cards, and with the dropped cards to the size of the catalog. */
  lemma PoolSizesSum(cards: seq<Card>)
    ensures HasTiers(PoolsOf(cards))
    ensures PoolSizes(PoolsOf(cards)) == |Recognised(cards)|
    ensures PoolSizes(PoolsOf(cards)) + |Dropped(cards)| == |cards|
  {
    var pools := PoolsOf(cards);
    assert HasTiers(pools);
    assert pools["common"] == Bucket(cards, "common") && pools["uncommon"] == Bucket(cards, "uncommon");
    assert pools["rare"] == Bucket(cards, "rare") && pools["legendary"] == Bucket(cards, "legendary");
    assert pools["ultra x rare"] == Bucket(cards, "ultra x rare");
    BucketSizes(cards);
  }

  /** The five buckets and the dropped cards split the catalog. */
  lemma {:induction false} BucketSizes(cards: seq<Card>)
    ensures |Bucket(cards, "common")| + |Bucket(cards, "uncommon")| + |Bucket(cards, "rare")|
      + |Bucket(cards, "legendary")| + |Bucket(cards, "ultra x rare")| == |Recognised(cards)|
    ensures |Recognised(cards)| + |Dropped(cards)| == |cards|
  {
    if cards != [] {
      BucketSizes(cards[1..]);
    }
  }

  /** The names `Object.prototype` gives every plain object, which a lookup `by[key]` on an
      object literal finds when `key` is not one of its own keys. */
  const PrototypeMembers: set<string> := {
    "constructor", "__proto__", "hasOwnProperty", "isPrototypeOf", "propertyIsEnumerable",
    "toLocaleString", "toString", "valueOf", "__defineGetter__", "__defineSetter__",
    "__lookupGetter__", "__lookupSetter__"}

  /** `buildPools` as written: `if (by[c.rarity]) by[c.rarity].push(c)`. A rarity naming a
      prototype member finds an inherited value that is truthy but has no `push`, and the call
      throws a `TypeError` (modelled as `None`). */
  function PoolsAsWritten(pools: Pools, cards: seq<Card>): (r: Option<Pools>)
    ensures r.Some? ==> r.value.Keys == pools.Keys
    ensures r.None? ==> exists c :: c in cards && c.rarity in PrototypeMembers
    decreases |cards|
  {
    if cards == [] then Some(pools)
    else
      var c := cards[0];
      if c.rarity in pools then PoolsAsWritten(pools[c.rarity := pools[c.rarity] + [c]], cards[1..])
      else if c.rarity in PrototypeMembers then None
      else PoolsAsWritten(pools, cards[1..])
  }

  /** The pools `buildPools` starts from. */
  function EmptyPools(): (pools: Pools)
    ensures pools == PoolsOf([])
  {
    map["common" := [], "uncommon" := [], "rare" := [], "legendary" := [], "ultra x rare" := []]
  }

  /** The code as written throws on a catalog holding a card of rarity "constructor", which
      the intended behaviour simply leaves out of every pool. */
  lemma ConstructorRarityThrows()
    ensures var card := Card("1", "Odd", "constructor", "odd.png", "");
      PoolsAsWritten(EmptyPools(), [card]) == None && PoolsOf([card]) == PoolsOf([])
  {
    var card := Card("1", "Odd", "constructor", "odd.png", "");
    assert card.rarity !in EmptyPools();
    assert Bucket([card], "common") == [];
  }

  /** Away from prototype-member rarities the code as written and the intended pools agree. */
  lemma {:induction false} PoolsAsWrittenAgrees(done: seq<Card>, cards: seq<Card>)
    requires forall c :: c in cards ==> c.rarity !in PrototypeMembers
    ensures PoolsAsWritten(PoolsOf(done), cards) == Some(PoolsOf(done + cards))
    decreases |cards|
  {
    if cards == [] {
      assert done + cards == done;
    } else {
      var c := cards[0];
      PoolsOfSnoc(done, c);
      assert done + cards == (done + [c]) + cards[1..];
      PoolsAsWrittenAgrees(done + [c], cards[1..]);
    }
  }

  /** The draws of a `Math.random()` stream all lie in [0, 1). */
  predicate IsDrawStream(rand: seq<real>)
  {
    forall k :: 0 <= k < |rand| ==> 0.0 <= rand[k] < 1.0
  }

  /** `u * n`, written as `n`-fold addition so that each unfolding is linear. */
  function Scale(u: real, n: nat): (x: real)
    requires 0.0 <= u < 1.0
    ensures 0.0 <= x
    ensures n > 0 ==> x < n as real
  {
    if n == 0 then 0.0 else Scale(u, n - 1) + u
  }

  /** `Scale` is the product. */
  lemma {:induction false} ScaleIsProduct(u: real, n: nat)
    requires 0.0 <= u < 1.0
    ensures Scale(u, n) == u * n as real
  {
    if n > 0 {
      ScaleIsProduct(u, n - 1);
      assert u * n as real == u * (n - 1) as real + u;
    }
  }

  /** `Math.floor(x)` for `x` in [0, n): the number of whole units `x` holds. */
  function FloorBelow(x: real, n: nat): (k: nat)
    requires 0.0 <= x < n as real
    ensures k < n && k as real <= x < (k + 1) as real
    decreases n
  {
    if x < 1.0 then 0 else 1 + FloorBelow(x - 1.0, n - 1)
  }

  /** `randInt`: `Math.floor(u * maxExclusive)` for a draw `u`. */
  function RandInt(maxExclusive: nat, u: real): (k: int)
    requires 0.0 <= u < 1.0
    ensures maxExclusive == 0 ==> k == 0
    ensures maxExclusive > 0 ==> 0 <= k < maxExclusive
  {
    if maxExclusive == 0 then 0 else FloorBelow(Scale(u, maxExclusive), maxExclusive)
  }

  /** Each index is hit by exactly the draws in [k/n, (k+1)/n): an interval of width 1/n. */
  lemma RandIntUniform(n: nat, k: int, u: real)
    requires n > 0 && 0 <= k < n && 0.0 <= u < 1.0
    ensures RandInt(n, u) == k <==> k as real <= u * n as real < (k + 1) as real
  {
    ScaleIsProduct(u, n);
  }

  /** `pickOne`: the pool element at index `randInt(pool.length)`; on an empty pool that index
      is 0, out of range, and the result is `undefined` (`None`). */
  function PickOne(pool: seq<Card>, u: real): (r: Option<Card>)
    requires 0.0 <= u < 1.0
    ensures r.Some? <==> pool != []
    ensures r.Some? ==> r.value in pool
  {
    var k := RandInt(|pool|, u);
    if k < |pool| then Some(pool[k]) else None
  }

  /** `rollRareSlot`: ultra x rare below 0.01, legendary below 0.11, rare otherwise. */
  function RollRareSlot(u: real): (tier: string)
    requires 0.0 <= u < 1.0
    ensures tier in RareTiers
    ensures tier == "ultra x rare" <==> u < 0.01
    ensures tier == "legendary" <==> 0.01 <= u < 0.11
    ensures tier == "rare" <==> 0.11 <= u
  {
    if u < 0.01 then "ultra x rare"
    else if u < 0.11 then "legendary"
    else "rare"
  }

  /** The draws a pack consumes: 8 common, 5 uncommon, 2 × (roll, pick), 14 shuffle swaps. */
  const PackDraws: nat := 31
  const ShuffleStart: nat := 17

  /** The tier pull number `k` of a pack is drawn from, before the shuffle. */
  function SlotTier(rand: seq<real>, k: nat): (t: string)
    requires k < 15 && |rand| >= ShuffleStart && IsDrawStream(rand)
    ensures t in TierSet
  {
    if k < 8 then "common"
    else if k < 13 then "uncommon"
    else RollRareSlot(rand[13 + 2 * (k - 13)])
  }

  /** The draw that picks the card of pull number `k`. */
  function PickDraw(k: nat): (d: nat)
    requires k < 15
    ensures d < ShuffleStart
  {
    if k < 13 then k else 14 + 2 * (k - 13)
  }

  /** Pull number `k` of a pack, before the shuffle. */
  function PullAt(pools: Pools, rand: seq<real>, k: nat): Option<Card>
    requires HasTiers(pools) && k < 15 && |rand| >= ShuffleStart && IsDrawStream(rand)
  {
    PickOne(pools[SlotTier(rand, k)], rand[PickDraw(k)])
  }

  /** The fifteen pulls of `openPack` before the shuffle. */
  function Pulls(pools: Pools, rand: seq<real>): (pulls: seq<Option<Card>>)
    requires HasTiers(pools) && |rand| >= ShuffleStart && IsDrawStream(rand)
    ensures |pulls| == 15
    ensures forall k :: 0 <= k < 15 ==> pulls[k] == PullAt(pools, rand, k)
  {
    seq(15, k requires 0 <= k < 15 => PullAt(pools, rand, k))
  }

  /** The shape of a pack before the shuffle: positions 0–7 from the common pool, 8–12 from the
      uncommon pool, 13 and 14 from the pool their roll names; a pull is `undefined` exactly
      when its pool is empty. */
  lemma PullsShape(pools: Pools, rand: seq<real>)
    requires HasTiers(pools) && |rand| >= ShuffleStart && IsDrawStream(rand)
    ensures forall k :: 0 <= k < 8 ==> SlotTier(rand, k) == "common"
    ensures forall k :: 8 <= k < 13 ==> SlotTier(rand, k) == "uncommon"
    ensures forall k :: 13 <= k < 15 ==> SlotTier(rand, k) in RareTiers
    ensures forall k :: 0 <= k < 15 ==>
      (Pulls(pools, rand)[k].Some? <==> pools[SlotTier(rand, k)] != [])
      && (Pulls(pools, rand)[k].Some? ==> Pulls(pools, rand)[k].value in pools[SlotTier(rand, k)])
  {
  }

  /** Exchanges two elements. */
  function Swap<T>(s: seq<T>, i: nat, j: nat): (r: seq<T>)
    requires i < |s| && j < |s|
    ensures |r| == |s| && r[i] == s[j] && r[j] == s[i]
    ensures forall k :: 0 <= k < |s| && k != i && k != j ==> r[k] == s[k]
  {
    s[i := s[j]][j := s[i]]
  }

  /** A swap keeps the elements and their multiplicities. */
  lemma SwapPermutes<T>(s: seq<T>, i: nat, j: nat)
    requires i < |s| && j < |s|
    ensures multiset(Swap(s, i, j)) == multiset(s)
  {
  }

  /** Swap targets for a Fisher–Yates pass over `n` elements: step `d` handles position
      `n - 1 - d` and may exchange it with any position up to and including itself. */
  predicate ValidSwaps(js: seq<int>, n: nat)
  {
    |js| == (if n == 0 then 0 else n - 1) && forall d :: 0 <= d < |js| ==> 0 <= js[d] < n - d
  }

  /** The swap targets `shuffle` draws for `n` elements: step `d` takes `randInt(i + 1)`
      with `i = n - 1 - d`, from draw `d`. */
  function SwapTargets(n: nat, rand: seq<real>): (js: seq<int>)
    requires |rand| >= n - 1 && IsDrawStream(rand)
    ensures ValidSwaps(js, n)
    ensures forall d :: 0 <= d < |js| ==> js[d] == RandInt(n - d, rand[d])
  {
    seq(if n == 0 then 0 else n - 1, d requires 0 <= d < (if n == 0 then 0 else n - 1) => RandInt(n - d, rand[d]))
  }

  /** The Fisher–Yates loop from position `i` down to 1, with swap targets `js`. */
  function ShuffleDown<T>(s: seq<T>, i: int, js: seq<int>): (r: seq<T>)
    requires -1 <= i < |s| && ValidSwaps(js, |s|)
    ensures |r| == |s|
    decreases i
  {
    if i <= 0 then s
    else ShuffleDown(Swap(s, i, js[|s| - 1 - i]), i - 1, js)
  }

  /** Each step is a swap, so the loop permutes its input. */
  lemma {:induction false} ShuffleDownPermutes<T>(s: seq<T>, i: int, js: seq<int>)
    requires -1 <= i < |s| && ValidSwaps(js, |s|)
    ensures multiset(ShuffleDown(s, i, js)) == multiset(s)
    decreases i
  {
    if i > 0 {
      var s1 := Swap(s, i, js[|s| - 1 - i]);
      SwapPermutes(s, i, js[|s| - 1 - i]);
      ShuffleDownPermutes(s1, i - 1, js);
    }
  }

  /** The loop never touches a position above `i` again. */
  lemma {:induction false} ShuffleDownKeepsTail<T>(s: seq<T>, i: int, js: seq<int>, k: int)
    requires -1 <= i < |s| && ValidSwaps(js, |s|)
    requires i < k < |s|
    ensures ShuffleDown(s, i, js)[k] == s[k]
    decreases i
  {
    if i > 0 {
      ShuffleDownKeepsTail(Swap(s, i, js[|s| - 1 - i]), i - 1, js, k);
    }
  }

  /** One turn of the loop: a swap at `i`, then the rest of the loop below `i`. */
  lemma ShuffleDownStep<T>(s: seq<T>, i: int, rand: seq<real>)
    requires 0 < i < |s| && |rand| >= |s| - 1 && IsDrawStream(rand)
    ensures var js := SwapTargets(|s|, rand);
      ShuffleDown(s, i, js) == ShuffleDown(Swap(s, i, RandInt(i + 1, rand[|s| - 1 - i])), i - 1, js)
  {
    var js := SwapTargets(|s|, rand);
    assert js[|s| - 1 - i] == RandInt(i + 1, rand[|s| - 1 - i]);
  }

  /** The permutation `shuffle` applies for the draw stream `rand`. */
  function FisherYates<T>(s: seq<T>, rand: seq<real>): (r: seq<T>)
    requires |rand| >= |s| - 1 && IsDrawStream(rand)
    ensures |r| == |s|
  {
    ShuffleDown(s, |s| - 1, SwapTargets(|s|, rand))
  }

  /** The permutation is a permutation: same length, same elements with the same multiplicities. */
  lemma FisherYatesPermutes<T>(s: seq<T>, rand: seq<real>)
    requires |rand| >= |s| - 1 && IsDrawStream(rand)
    ensures |FisherYates(s, rand)| == |s| && multiset(FisherYates(s, rand)) == multiset(s)
  {
    ShuffleDownPermutes(s, |s| - 1, SwapTargets(|s|, rand));
  }

  /** The first step fixes the last position: it holds the element at index `randInt(n)` of
      the input, and no later step moves it. */
  lemma FisherYatesLast<T>(s: seq<T>, rand: seq<real>)
    requires |s| >= 2 && |rand| >= |s| - 1 && IsDrawStream(rand)
    ensures FisherYates(s, rand)[|s| - 1] == s[RandInt(|s|, rand[0])]
  {
    var n := |s|;
    var js := SwapTargets(n, rand);
    var s1 := Swap(s, n - 1, js[0]);
    assert FisherYates(s, rand) == ShuffleDown(s1, n - 2, js);
    ShuffleDownKeepsTail(s1, n - 2, js, n - 1);
  }

  /** The destructuring swap `[a[i], a[j]] = [a[j], a[i]]`. */
  method SwapInPlace<T>(a: array<T>, i: nat, j: nat)
    requires i < a.Length && j < a.Length
    modifies a
    ensures a[..] == Swap(old(a[..]), i, j)
  {
    a[i], a[j] := a[j], a[i];
  }

  /** `shuffle`: a copy of `arr` permuted in place by the Fisher–Yates loop; `arr` itself is
      left as it was. */
  method Shuffle<T>(arr: seq<T>, rand: seq<real>) returns (r: seq<T>)
    requires |rand| >= |arr| - 1 && IsDrawStream(rand)
    ensures r == FisherYates(arr, rand)
    ensures |r| == |arr| && multiset(r) == multiset(arr)
  {
    var a := new T[|arr|](k requires 0 <= k < |arr| => arr[k]);
    assert a[..] == arr;
    ghost var js := SwapTargets(|arr|, rand);
    ghost var target := ShuffleDown(arr, |arr| - 1, js);
    var i := a.Length - 1;
    while i > 0
      invariant -1 <= i < a.Length == |arr|
      invariant ShuffleDown(a[..], i, js) == target
    {
      var j := RandInt(i + 1, rand[a.Length - 1 - i]);
      ShuffleDownStep(a[..], i, rand);
      SwapInPlace(a, i, j);
      i := i - 1;
    }
    r := a[..];
    assert r == FisherYates(arr, rand);
    FisherYatesPermutes(arr, rand);
  }

  /** The pack `openPack` returns for the draw stream `rand`. */
  function PackOf(pools: Pools, rand: seq<real>): (pack: seq<Option<Card>>)
    requires HasTiers(pools) && |rand| >= PackDraws && IsDrawStream(rand)
    ensures |pack| == 15
  {
    FisherYates(Pulls(pools, rand), rand[ShuffleStart..])
  }

  /** `openPack`: push 8 common, 5 uncommon and 2 rare-tier pulls, then shuffle. */
  method OpenPack(pools: Pools, rand: seq<real>) returns (pack: seq<Option<Card>>)
    requires HasTiers(pools) && |rand| >= PackDraws && IsDrawStream(rand)
    ensures pack == PackOf(pools, rand)
    ensures |pack| == 15 && multiset(pack) == multiset(Pulls(pools, rand))
  {
    var pulls: seq<Option<Card>> := [];
    var next := 0;  // index of the next `Math.random()` draw
    for i := 0 to 8
      invariant next == |pulls| == i
      invariant forall k :: 0 <= k < i ==> pulls[k] == PullAt(pools, rand, k)
    {
      pulls := pulls + [PickOne(pools["common"], rand[next])];
      next := next + 1;
    }
    for i := 0 to 5
      invariant next == |pulls| == 8 + i
      invariant forall k :: 0 <= k < 8 + i ==> pulls[k] == PullAt(pools, rand, k)
    {
      pulls := pulls + [PickOne(pools["uncommon"], rand[next])];
      next := next + 1;
    }
    for i := 0 to 2
      invariant |pulls| == 13 + i && next == 13 + 2 * i
      invariant forall k :: 0 <= k < 13 + i ==> pulls[k] == PullAt(pools, rand, k)
    {
      var rarity := RollRareSlot(rand[next]);
      pulls := pulls + [PickOne(pools[rarity], rand[next + 1])];
      next := next + 2;
    }
    assert pulls == Pulls(pools, rand);
    FisherYatesPermutes(pulls, rand[ShuffleStart..]);
    pack := Shuffle(pulls, rand[ShuffleStart..]);
  }

  /** The number of drawn (not `undefined`) cards whose rarity is in `tiers`. */
  function CountIn(pack: seq<Option<Card>>, tiers: set<string>): nat
  {
    if pack == [] then 0
    else Counted(pack[0], tiers) + CountIn(pack[1..], tiers)
  }

  lemma {:induction false} CountInAppend(a: seq<Option<Card>>, b: seq<Option<Card>>, tiers: set<string>)
    ensures CountIn(a + b, tiers) == CountIn(a, tiers) + CountIn(b, tiers)
  {
    if a != [] {
      assert (a + b)[1..] == a[1..] + b;
      CountInAppend(a[1..], b, tiers);
    } else {
      assert a + b == b;
    }
  }

  /** Whether `CountIn` counts `x`. */
  function Counted(x: Option<Card>, tiers: set<string>): nat
  {
    if x.Some? && x.value.rarity in tiers then 1 else 0
  }

  /** Taking out position `k` takes out one copy of its element, and its share of the count. */
  lemma RemoveAt(b: seq<Option<Card>>, k: nat, tiers: set<string>)
    requires k < |b|
    ensures multiset(b[..k] + b[k + 1..]) == multiset(b) - multiset{b[k]}
    ensures CountIn(b, tiers) == CountIn(b[..k] + b[k + 1..], tiers) + Counted(b[k], tiers)
  {
    assert b == b[..k] + [b[k]] + b[k + 1..];
    CountInAppend(b[..k] + [b[k]], b[k + 1..], tiers);
    CountInAppend(b[..k], [b[k]], tiers);
    CountInAppend(b[..k], b[k + 1..], tiers);
  }

  /** Reordering a pack does not change how many of its cards have a given rarity. */
  lemma {:induction false} CountInPermutation(a: seq<Option<Card>>, b: seq<Option<Card>>, tiers: set<string>)
    requires multiset(a) == multiset(b)
    ensures CountIn(a, tiers) == CountIn(b, tiers)
    decreases |a|
  {
    if a == [] {
      assert |b| == |multiset(b)| == 0;
    } else {
      var x := a[0];
      assert x in multiset(b);
      var k :| 0 <= k < |b| && b[k] == x;
      var rest := b[..k] + b[k + 1..];
      assert multiset(a[1..]) == multiset(rest)
        && CountIn(a, tiers) == CountIn(a[1..], tiers) + Counted(x, tiers)
        && CountIn(b, tiers) == CountIn(rest, tiers) + Counted(x, tiers) by {
        RemoveAt(b, k, tiers);
        RemoveAt(a, 0, tiers);
        assert a[..0] + a[1..] == a[1..];
      }
      CountInPermutation(a[1..], rest, tiers);
    }
  }

  /** `CountIn` of a run whose every element is a card of `tiers` is its length; of a run with
      none, zero. */
  lemma {:induction false} CountInUniform(s: seq<Option<Card>>, tiers: set<string>, all: bool)
    requires forall k :: 0 <= k < |s| ==> (s[k].Some? && s[k].value.rarity in tiers) == all
    ensures CountIn(s, tiers) == if all then |s| else 0
  {
    if s != [] {
      CountInUniform(s[1..], tiers, all);
    }
  }

  /** Fifteen pulls laid out as `openPack` lays them out: 8 common cards, then 5 uncommon
      cards, then 2 cards of the rare tiers. */
  predicate PackShaped(pulls: seq<Option<Card>>)
  {
    |pulls| == 15
    && (forall k :: 0 <= k < 8 ==> pulls[k].Some? && pulls[k].value.rarity == "common")
    && (forall k :: 8 <= k < 13 ==> pulls[k].Some? && pulls[k].value.rarity == "uncommon")
    && (forall k :: 13 <= k < 15 ==> pulls[k].Some? && pulls[k].value.rarity in RareTiers)
  }

  /** The count of a reordering of fifteen pulls, split by the three runs of the pulls. */
  lemma CountByRuns(pulls: seq<Option<Card>>, pack: seq<Option<Card>>, tiers: set<string>)
    requires |pulls| == 15 && multiset(pack) == multiset(pulls)
    ensures CountIn(pack, tiers) == CountIn(pulls[..8], tiers) + CountIn(pulls[8..13], tiers) + CountIn(pulls[13..], tiers)
  {
    assert pulls == pulls[..8] + pulls[8..13] + pulls[13..];
    CountInAppend(pulls[..8] + pulls[8..13], pulls[13..], tiers);
    CountInAppend(pulls[..8], pulls[8..13], tiers);
    CountInPermutation(pack, pulls, tiers);
  }

  /** Any reordering of such pulls holds 8 common, 5 uncommon and 2 rare-tier cards. */
  lemma ShapedCounts(pulls: seq<Option<Card>>, pack: seq<Option<Card>>)
    requires PackShaped(pulls) && multiset(pack) == multiset(pulls)
    ensures CountIn(pack, {"common"}) == 8
    ensures CountIn(pack, {"uncommon"}) == 5
    ensures CountIn(pack, RareTiers) == 2
  {
    CountByRuns(pulls, pack, {"common"});
    CountInUniform(pulls[..8], {"common"}, true);
    CountInUniform(pulls[8..13], {"common"}, false);
    CountInUniform(pulls[13..], {"common"}, false);
    CountByRuns(pulls, pack, {"uncommon"});
    CountInUniform(pulls[..8], {"uncommon"}, false);
    CountInUniform(pulls[8..13], {"uncommon"}, true);
    CountInUniform(pulls[13..], {"uncommon"}, false);
    CountByRuns(pulls, pack, RareTiers);
    CountInUniform(pulls[..8], RareTiers, false);
    CountInUniform(pulls[8..13], RareTiers, false);
    CountInUniform(pulls[13..], RareTiers, true);
  }

  /** A pack drawn from the catalog's pools, all five non-empty, holds exactly 8 common cards,
      5 uncommon cards and 2 cards of the rare tiers, whatever the draws. */
  lemma PackComposition(cards: seq<Card>, rand: seq<real>)
    requires |rand| >= PackDraws && IsDrawStream(rand)
    requires forall t :: t in TierSet ==> PoolsOf(cards)[t] != []
    ensures CountIn(PackOf(PoolsOf(cards), rand), {"common"}) == 8
    ensures CountIn(PackOf(PoolsOf(cards), rand), {"uncommon"}) == 5
    ensures CountIn(PackOf(PoolsOf(cards), rand), RareTiers) == 2
  {
    var pools := PoolsOf(cards);
    var pulls := Pulls(pools, rand);
    PullsShape(pools, rand);
    PoolMembership(cards);
    assert PackShaped(pulls);
    FisherYatesPermutes(pulls, rand[ShuffleStart..]);
    ShapedCounts(pulls, PackOf(pools, rand));
  }
}
