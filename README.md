# tcg-cards: pack and collection logic in Dafny

This project models the logic of a small trading-card web demo. The demo has a pack page and a collection page.

- **Pack page.** The card catalog is sorted into five rarity pools. A pack of fifteen pulls is drawn from them: eight common, five uncommon, and two from the rare tiers. The tier of each rare-tier pull is chosen by a weighted roll. The pack is then reordered with a Fisher–Yates shuffle.
- **Collection.** The cards a player owns form a dictionary from card id to owned count. It is kept in the browser's `localStorage`.
- **Collection page.**
  - It tallies, per rarity, the copies owned and the distinct cards owned.
  - It filters the catalog by the active rarity tab, a search text and an "owned only" switch.
  - It sorts the result in one of four orders.
  - It escapes card text for the markup.

Modules:

- `builtins.dfy` (`Builtins`) models the JavaScript built-ins the logic relies on:
  - `String.prototype.trim`, using ECMAScript's white-space and line-terminator characters;
  - `toLowerCase`, restricted to ASCII letters;
  - `includes`;
  - `localeCompare`, as lexicographic order of Unicode code points;
  - `Array.prototype.filter`.
- `cards.dfy` (`Cards`): the card record, `normalizeCard`, `resolveImageUrl` and `rarityClass`.
- `store.dfy` (`Store`): the collection dictionary and `localStorage`. Storage is a class whose `items` map holds one parsed entry per key. The entry can be an object of counts, a value that is not an object, or text that does not parse.
- `packs.dfy` (`Packs`): `buildPools`, `randInt`, `pickOne`, `rollRareSlot`, `openPack` and `shuffle`.
- `collection_view.dfy` (`CollectionView`): the summary tally and the filter chain of the collection page, plus `sortCards`, `rarityVar`, `escapeHtml` and `escapeBadgeClass`.

### How randomness is modelled

Every `Math.random()` call is a caller-supplied real draw `u` with `0 <= u < 1`. The draws come from a sequence, used in the order the source makes its calls.

- `randInt(n)` is `Math.floor(u * n)`, computed exactly on reals.
- `rollRareSlot` compares its draw against the literal thresholds 0.01 and 0.11.
- A pack uses 31 draws:
  - 0–7 pick the commons;
  - 8–12 pick the uncommons;
  - 13–16 are the two (roll, pick) pairs;
  - 17–30 drive the 14 shuffle swaps.

`pickOne` on an empty pool reads index 0 of an empty array and yields `undefined`. The model writes this as `None`, so a pack is a sequence of `Option<Card>`.

## Model

| member | source | states |
|---|---|---|
| `Builtins.Trim` | collection.js:45 | `trim()` returns a slice of the input, with only whitespace cut at each end, and the result neither starts nor ends with whitespace |
| `Builtins.Lower` | collection.js:45 | `toLowerCase()` keeps the length, maps each character by itself, leaves no upper-case letter, and fixes text without upper-case letters |
| `Builtins.Compare` | collection.js:101 | `localeCompare` gives -1, 0 or 1, and 0 exactly on equal strings |
| `Builtins.CompareFlip` | collection.js:101 | swapping the two strings flips the sign of the comparison |
| `Builtins.CompareTransitive` | collection.js:101 | the string order is transitive, so the comparators built on it are consistent |
| `Builtins.Filter` | collection.js:47 | `filter` keeps exactly the elements that pass the test, in order, as a subsequence, and is never longer than its input |
| `Builtins.FilterCounts` | collection.js:47 | `filter` keeps every occurrence of a passing element and no occurrence of a failing one |
| `Builtins.FilterFuse` | collection.js:47-57 | filtering twice is filtering once by the conjunction of the two tests |
| `Builtins.Includes` | collection.js:50 | `includes` holds only when the query is no longer than the text; it always holds for the empty query and for a prefix of the text |
| `Cards.OrElse` | shared.js:21-26 | `??`: the present value when there is one, otherwise the default |
| `Cards.NormalizeCard` | shared.js:19-31 | the id is the given one or the fallback; a missing name becomes "Unknown"; rarity is lower-cased, "" when missing; the image file comes from `image_file`, else `imageFile`, else ""; `image` defaults to "" |
| `Cards.NormalizeIdempotent` | shared.js:19-31 | normalising a card that is already normalised changes nothing |
| `Cards.NormalizeFoldsRarityCase` | shared.js:21 | a rarity spelled "Ultra X Rare" is normalised into the tier "ultra x rare" |
| `Cards.StripLegacyPrefix` | shared.js:44 | one leading `tcg-cards/` is removed, and a path without it is left alone |
| `Cards.ImagePath` | shared.js:40-47 | the path is the trimmed `image` when that is not blank, otherwise `rarity/image_file`, with the legacy prefix stripped |
| `Cards.ImagePathFromTier` | shared.js:43-44 | a card with a blank image and a tier rarity resolves to `rarity/image_file` unchanged |
| `Cards.ImagePathStripsLegacy` | shared.js:43-44 | an explicit image `tcg-cards/X` (whitespace around it included) resolves to `X` |
| `Cards.RarityClass` | shared.js:128 | the class is `rarity-` followed by the rarity |
| `Cards.RarityClassInjective` | shared.js:128 | distinct rarities get distinct classes |
| `Store.CountOf` | shared.js:66 | `map[id] ?? 0`: the stored count of a present id and 0 for an absent one; a positive count means the id is present |
| `Store.Bump` | shared.js:66 | one loop step raises the count of `id` by one, from 0 when absent, and leaves every other count alone |
| `Store.AddAll` | shared.js:63-69 | the dictionary after the loop of `addToCollection`: no id is ever dropped, and an empty list changes nothing (counts in `Store.AddAllCounts`) |
| `Store.AddAllCounts` | shared.js:63-69 | after adding `ids`, each id's count is its old count (0 when absent) plus its number of occurrences in `ids` |
| `Store.AddAllKeys` | shared.js:63-69 | after adding, the ids present are the old ones and the added ones |
| `Store.AddNeverDecreases` | shared.js:63-69 | adding never removes an id and never lowers a count |
| `Store.AddAllAppend` | shared.js:63-69 | adding `a` then `b` is the same as adding `a + b` |
| `Store.CollectionStore.Read` | shared.js:50-59 | the stored dictionary when the entry is a parsed object; the empty dictionary when it is missing, unparsable or not an object |
| `Store.CollectionStore.Write` | shared.js:60-62 | the entry becomes the dictionary, every other entry is untouched, and the next read returns the dictionary |
| `Store.CollectionStore.Add` | shared.js:63-69 | the loop reads, counts each id once more and writes back; the stored dictionary becomes the old one plus the occurrences of `cardIds` |
| `Store.CollectionStore.Clear` | shared.js:70-72 | the entry is removed, only it, and the next read is empty |
| `Packs.Bucket` | shared.js:83-85 | one tier's pool: a subsequence of the catalog, never longer than it (membership in `Packs.PoolMembership`) |
| `Packs.PoolsOf` | shared.js:75-87 | the intended pools: exactly the five tier keys, so every tier a pack asks for is present |
| `Packs.EmptyPools` | shared.js:76-82 | the starting dictionary has five empty pools, the pools of an empty catalog |
| `Packs.BuildPools` | shared.js:75-87 | the loop yields exactly the five tiers, each holding the catalog's cards of that tier in catalog order |
| `Packs.PoolsOfSnoc` | shared.js:83-85 | one more card is appended to the pool of its own tier and to no other, or to none when its rarity is not a tier |
| `Packs.PoolMembership` | shared.js:75-87 | the keys are exactly the five tiers; a card is in pool `t` exactly when it is in the catalog with rarity `t`; each pool is a subsequence of the catalog |
| `Packs.PoolsKeepCatalogOrder` | shared.js:83-85 | the pools of a concatenated catalog are the concatenated pools of its parts |
| `Packs.PoolSizesSum` | shared.js:75-87 | the five pool sizes add up to the number of cards with a tier rarity, and together with the other cards to the catalog size |
| `Packs.BucketSizes` | shared.js:83-85 | the five tiers and the unrecognised cards partition the catalog |
| `Packs.PoolsAsWritten` | shared.js:83-85 | the loop as written: when it does not throw it keeps the five keys, and it throws only on a card whose rarity names an `Object.prototype` member (see Findings) |
| `Packs.ConstructorRarityThrows` | shared.js:84 | a catalog with one card of rarity "constructor" makes the code as written throw, while the intended pools stay empty |
| `Packs.PoolsAsWrittenAgrees` | shared.js:83-85 | without prototype-member rarities, the code as written computes the intended pools |
| `Packs.Scale` | shared.js:90 | `u * n` for a draw `u` lies in `[0, n)` |
| `Packs.ScaleIsProduct` | shared.js:90 | the repeated addition is the product `u * n` |
| `Packs.FloorBelow` | shared.js:90 | `Math.floor` on `[0, n)`: the whole number `k < n` with `k <= x < k + 1` |
| `Packs.RandInt` | shared.js:89-91 | the index lies in `[0, n)`, and is 0 when `n` is 0 |
| `Packs.RandIntUniform` | shared.js:89-91 | index `k` is drawn exactly when `k <= u * n < k + 1`, an interval of width `1/n` |
| `Packs.PickOne` | shared.js:93-95 | the result is defined exactly when the pool is not empty, and is then a member of the pool |
| `Packs.RollRareSlot` | shared.js:97-103 | "ultra x rare" exactly when `u < 0.01`, "legendary" exactly when `0.01 <= u < 0.11`, otherwise "rare" |
| `Packs.SlotTier` | shared.js:107-111 | every pull is drawn from one of the five tiers |
| `Packs.PickDraw` | shared.js:105-112 | each pull's card is chosen by one of the first 17 draws |
| `Packs.Pulls` | shared.js:105-112 | the fifteen pulls before the shuffle, position by position |
| `Packs.PullsShape` | shared.js:105-112 | positions 0–7 come from the common pool, 8–12 from the uncommon pool, and 13–14 from the pool their roll names; a pull is defined exactly when its pool is non-empty, and is then a member of it |
| `Packs.Swap` | shared.js:121 | the two positions exchange their elements, and every other position is kept |
| `Packs.SwapPermutes` | shared.js:121 | a swap keeps the multiset of elements |
| `Packs.SwapTargets` | shared.js:119-120 | step `d` swaps position `n-1-d` with `randInt(n-d)` of draw `d`, a position no higher than it |
| `Packs.ShuffleDown` | shared.js:119-122 | the loop from position `i` down keeps the length |
| `Packs.ShuffleDownPermutes` | shared.js:119-122 | the loop yields a permutation of its input |
| `Packs.ShuffleDownKeepsTail` | shared.js:119-122 | positions above the loop's start are never moved |
| `Packs.ShuffleDownStep` | shared.js:119-121 | one turn of the loop swaps position `i` with `Math.floor(u * (i + 1))` of the turn's draw, then runs the rest of the loop |
| `Packs.SwapInPlace` | shared.js:121 | the array afterwards is the old contents with the two positions exchanged |
| `Packs.FisherYates` | shared.js:117-124 | the permutation `shuffle` applies for a draw stream keeps the length (multiset in `Packs.FisherYatesPermutes`) |
| `Packs.FisherYatesPermutes` | shared.js:117-124 | the shuffle keeps the length and the multiset of elements |
| `Packs.FisherYatesLast` | shared.js:119-121 | the last position ends up holding the input element at index `randInt(n)` of the first draw |
| `Packs.Shuffle` | shared.js:117-124 | the in-place loop over a copy computes the Fisher–Yates permutation of the draws: same length, same multiset, input untouched |
| `Packs.PackOf` | shared.js:105-115 | the pack for a draw stream has 15 pulls (composition in `Packs.PackComposition`) |
| `Packs.OpenPack` | shared.js:105-115 | the three push loops then the shuffle give the pack for the draws: 15 pulls forming a permutation of the unshuffled pulls |
| `Packs.CountInAppend` | shared.js:105-115 | the per-rarity count of a pack is additive over concatenation |
| `Packs.CountInPermutation` | shared.js:114 | reordering a pack keeps how many of its cards fall in any set of tiers |
| `Packs.ShapedCounts` | shared.js:105-115 | any reordering of 8 common, 5 uncommon and 2 rare-tier pulls has exactly those counts |
| `Packs.PackComposition` | shared.js:105-115 | a pack from a catalog whose five pools are non-empty holds exactly 8 common, 5 uncommon and 2 rare-tier cards, whatever the draws |
| `CollectionView.Owned` | collection.js:53 | `col[c.id] ?? 0`: 0 for an absent id, the stored count for a present one |
| `CollectionView.OwnedTotal` | collection.js:75-78 | a tier's total over no cards is 0 (one card at a time in `CollectionView.OwnedTotalSnoc`) |
| `CollectionView.OwnedDistinct` | collection.js:75-79 | a tier's unique count never exceeds the number of catalog cards |
| `CollectionView.Totals` | collection.js:73-78 | the totals dictionary has exactly the tier keys |
| `CollectionView.Uniques` | collection.js:73-79 | the uniques dictionary has exactly the tier keys |
| `CollectionView.OwnedTotalSnoc` | collection.js:78 | one more catalog card adds its owned count to its own tier's total only |
| `CollectionView.OwnedDistinctSnoc` | collection.js:79 | one more owned catalog card adds one to its own tier's unique count only |
| `CollectionView.OwnedDistinctCounts` | collection.js:79 | the unique count of a tier is the number of catalog cards of that tier owned at least once |
| `CollectionView.TotalsSnoc` | collection.js:75-80 | one more card raises only its own tier's total, and nothing when its rarity is not a tier |
| `CollectionView.UniquesSnoc` | collection.js:75-80 | one more owned card raises only its own tier's unique count |
| `CollectionView.TallyStep` | collection.js:75-80 | one turn of the loop: skipped for a non-tier rarity, otherwise adds `col[id] ?? 0` to the total and one to the unique count when owned |
| `CollectionView.ZeroTallies` | collection.js:73 | the zero-filled dictionaries are the tallies of no cards |
| `CollectionView.Summarize` | collection.js:69-80 | the zero-fill and tally loops give, for each of the five tiers, the sum of owned counts and the number of owned cards of that tier |
| `CollectionView.TallyCards` | collection.js:75-80 | the tally loop turns the tallies of no cards into the tallies of the whole catalog |
| `CollectionView.UniqueBounds` | collection.js:77-79 | a tier's unique count is at most the number of catalog cards of the tier, and at most its total count |
| `CollectionView.SummaryNeverDecreases` | collection.js:69-80 | after adding cards to the collection, no tier's total or unique count is lower |
| `CollectionView.Query` | collection.js:45 | the search text, trimmed and lower-cased, holds no upper-case letter |
| `CollectionView.FilterCards` | collection.js:47-57 | the chain of filters keeps exactly the catalog cards of the active rarity that match the query (when it is non-empty) and are owned (when owned-only is on), in catalog order, as a subsequence |
| `CollectionView.ModeOf` | collection.js:97-112 | each of "count-desc", "count-asc" and "name-desc" selects its own comparator; any other value selects ascending names |
| `CollectionView.OrNumber` | collection.js:101 | the logical-or fallback on two differences: `d` unless it is 0, then `e`; negative exactly when `d` is, or `d` is 0 and `e` is |
| `CollectionView.CompareBy` | collection.js:100-113 | "count-desc" puts the higher count first, "count-asc" the lower, both falling back to names on equal counts; "name-desc" and name order compare names only; zero exactly on equal names (and equal counts in the count modes) |
| `CollectionView.CompareByFlip` | collection.js:100-113 | each comparator is antisymmetric |
| `CollectionView.CompareByTransitive` | collection.js:100-113 | each comparator is transitive |
| `CollectionView.Insert` | collection.js:100-113 | inserting keeps every element and adds one copy of the new one |
| `CollectionView.InsertSorted` | collection.js:100-113 | inserting into a sorted sequence keeps it sorted |
| `CollectionView.SortBy` | collection.js:98-113 | the sort returns a permutation of its input |
| `CollectionView.SortBySorted` | collection.js:98-113 | the sort's result is ordered by the comparator |
| `CollectionView.SortBySortedIsIdentity` | collection.js:98-113 | an already ordered list is returned unchanged, so sorting twice is sorting once |
| `CollectionView.SortCards` | collection.js:96-114 | the result is a permutation of the input, ordered by the selected comparator; the input is not changed |
| `CollectionView.SortOrders` | collection.js:100-113 | "count-desc" gives non-increasing counts and "count-asc" non-decreasing counts, both with ties in ascending name order; "name-desc" gives descending names; any other mode gives ascending names |
| `CollectionView.ListCards` | collection.js:39-59 | the cards shown are exactly the filtered cards, rearranged into the selected order |
| `CollectionView.RarityVar` | collection.js:158-164 | uncommon, rare and legendary get `var(--uncommon)`, `var(--rare)` and `var(--legendary)`, "ultra x rare" gets `var(--ultrax)`, and every other rarity gets `var(--common)` |
| `CollectionView.RarityVarDistinct` | collection.js:158-164 | the five tiers glow in five different colours |
| `CollectionView.EscapeChar` | collection.js:167-169 | the five special characters become entities, and any other character is kept |
| `CollectionView.EscapeHtml` | collection.js:166-170 | the output has no raw `<`, `>`, `"` or `'`, text without special characters is unchanged, the output is never shorter, and one character escapes as `CollectionView.EscapeChar` says |
| `CollectionView.EscapeHtmlAppend` | collection.js:166-170 | the escape of a concatenation is the concatenation of the escapes, so each character is replaced on its own |
| `CollectionView.UnescapeEscapeChar` | collection.js:167-169 | each entity decodes back to its character, whatever follows it |
| `CollectionView.EscapeHtmlRoundTrip` | collection.js:166-170 | decoding the escaped text gives back the original, so no information is lost |
| `CollectionView.EscapeBadgeClass` | collection.js:171-173 | the result is empty exactly when the input is, and at most twice as long |
| `CollectionView.EscapeBadgeClassNoSpace` | collection.js:171-173 | text without whitespace is unchanged |
| `CollectionView.EscapeBadgeClassSpaces` | collection.js:171-173 | every whitespace character left in the result is a plain space right after a backslash |
| `CollectionView.EscapeBadgeClassRun` | collection.js:171-173 | a whole run of whitespace becomes one backslash-space |
| `CollectionView.EscapeBadgeClassAppend` | collection.js:171-173 | text split anywhere except inside a whitespace run escapes piece by piece; with the three lemmas above, each maximal run becomes one backslash-space and everything else is kept ("x " gives `x\ `, "ultra x rare" gives `ultra\ x\ rare`) |

## Left out

- `loadCards` (shared.js:7-17) is not modelled. It covers `fetch`, JSON decoding, the cached promise and the `json.cards ?? []` shape. The model starts from a decoded list of raw cards.
- `cryptoRandomId` (shared.js:33-37) draws on a clock and a random source. `Cards.NormalizeCard` takes the id it would produce as a `fallbackId` parameter.
- `encodeURI` at the end of `resolveImageUrl` is a library percent-encoder. `Cards.ImagePath` is the path before that encoding.
- `Packs.RandInt`: `Math.random()` and its product with `n` are floating-point values. The model uses exact reals, so the rounding of `u * n` (which could lift a product just below a whole number onto it) is not modelled. The random choices stay real draws rather than integer indices, so that `randInt`'s floor and `rollRareSlot`'s thresholds appear exactly as written.
- `Packs.OpenPack` requires the five tiers to be present in `pools`, as `buildPools` guarantees. On a dictionary missing a rolled tier the source throws; this is not modelled.
- `Builtins.Lower` folds ASCII letters only. Full Unicode case mapping is not modelled.
- `Builtins.Compare` treats `localeCompare` as the lexicographic order of Unicode code points, since a Dafny character is a scalar value. Locale collation is not modelled, and neither is UTF-16 code-unit order, which differs from code-point order above U+FFFF.
- `CollectionView.SortBy` is a stable insertion sort, as the standard requires of `Array.prototype.sort`. The engine's own algorithm is not modelled, and stability is not stated as a separate property.
- Stored values that JSON can hold but that are not non-negative whole counts (strings, negatives, nested objects) are outside the `Collection` type.
- `Store.Bump` and `Store.CollectionStore.Add` count every absent id from 0, ids such as "constructor" and "__proto__" included. The source behaves differently for them. On the parsed object, `map["constructor"] ?? 0` finds the inherited `Object` function, so `+ 1` joins text and the stored value becomes a string. For `__proto__`, `map["__proto__"] ?? 0` is `Object.prototype`, `+ 1` makes the string `"[object Object]1"`, and the inherited `__proto__` setter ignores a value that is not an object, so nothing is stored and the addition is lost. `CollectionView.Owned` likewise reads 0 where the source reads the inherited member.
- `Store.CollectionStore.Read`: a stored top-level JSON array passes the source's `typeof obj === "object"` test (shared.js:55) and is returned as the collection. `JSON.stringify` on the next write keeps only its index elements, so counts added under other ids are lost. `Stored` has no array case, so this is not modelled.
- `Store.CollectionStore.Write`, `Store.CollectionStore.Add` and `Store.CollectionStore.Clear` model only successful writes and removals. The source does not catch an exception from `localStorage.setItem` or `removeItem` (shared.js:61, 71), such as a quota or security error, so it reaches the caller; the model has no failing case.
- `Cards.NormalizeCard` takes each raw field as a string or missing. It does not model `String(...)` turning a numeric or other non-string `id` or `name` into text (shared.js:25-26). Nor does it model the `TypeError` that `toLowerCase` raises for a present non-string `rarity` (shared.js:21).
- Everything that builds or wires the DOM is not modelled: the rest of `render` and `renderSummary`, `createCardTile`, the tab and dialog handlers. The same goes for pack.js (animation, timers, its own copies of `escapeHtml` and `escapeBadgeClass`) and `rarityLabel`.

## Findings

| source | as written | input that shows it | evidently intended | confidence | as-written member | corrected member |
|---|---|---|---|---|---|---|
| shared.js:83-85 | `if (by[c.rarity]) by[c.rarity].push(c)` looks the rarity up on a plain object literal, so an inherited `Object.prototype` member (a function, truthy, with no `push`) passes the test and the call throws a `TypeError` | a catalog holding one card whose rarity is "constructor" (or "__proto__"); both survive `normalizeCard`'s lower-casing | cards whose rarity is not one of the five tiers go into no pool, as for every other unknown rarity; an own-key test such as the one `renderSummary` makes with `hasOwnProperty` | not executed | `Packs.PoolsAsWritten`, `Packs.ConstructorRarityThrows` | `Packs.BuildPools`, `Packs.PoolsAsWrittenAgrees` |
