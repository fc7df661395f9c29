/**
  The collection store: a dictionary from card id to owned count, kept as JSON under one key
  of the browser's `localStorage`.
 */
module Store {

  /** The `localStorage` key the collection lives under. */
  const StorageKey: string := "tta_collection_v1"

  /** A collection: card id to owned count. */
  type Collection = map<string, nat>

  /** What one `localStorage` entry holds, as `JSON.parse` sees it. A top-level JSON array has
      no case here. */
  datatype Stored =
    | Unparsable                 // text `JSON.parse` rejects, the empty string included
    | NotAnObject                // JSON `null`, a number, a string or a boolean
    | Counts(counts: Collection) // a JSON object of card id to owned count

  /** `map[id] ?? 0`. */
  function CountOf(m: Collection, id: string): (n: nat)
    ensures id in m ==> n == m[id]
    ensures id !in m ==> n == 0
    ensures n > 0 ==> id in m
  {
    if id in m then m[id] else 0
  }

  /** One step of `addToCollection`'s loop: `map[id] = (map[id] ?? 0) + 1`. */
  function Bump(m: Collection, id: string): (r: Collection)
    ensures CountOf(r, id) == CountOf(m, id) + 1
    ensures forall k :: k != id ==> CountOf(r, k) == CountOf(m, k)
    ensures r.Keys == m.Keys + {id}
  {
    m[id := CountOf(m, id) + 1]
  }

  /** The dictionary after counting every id of `ids` once more, in order. */
  function AddAll(m: Collection, ids: seq<string>): (r: Collection)
    ensures m.Keys <= r.Keys
    ensures ids == [] ==> r == m
    decreases |ids|
  {
    if ids == [] then m else Bump(AddAll(m, ids[..|ids| - 1]), ids[|ids| - 1])
  }

  /** Each id's count rises by the number of times it occurs in `ids`, starting from 0 when
      absent. */
  lemma {:induction false} AddAllCounts(m: Collection, ids: seq<string>)
    ensures forall k :: CountOf(AddAll(m, ids), k) == CountOf(m, k) + multiset(ids)[k]
  {
    if ids != [] {
      var init, last := ids[..|ids| - 1], ids[|ids| - 1];
      AddAllCounts(m, init);
      assert ids == init + [last];
      assert multiset(ids) == multiset(init) + multiset{last};
    }
  }

  /** The ids present after adding are the old ones and the added ones. */
  lemma {:induction false} AddAllKeys(m: Collection, ids: seq<string>)
    ensures AddAll(m, ids).Keys == m.Keys + set id | id in ids
  {
    if ids != [] {
      var init, last := ids[..|ids| - 1], ids[|ids| - 1];
      AddAllKeys(m, init);
      assert ids == init + [last];
      assert (set id | id in ids) == (set id | id in init) + {last};
    }
  }

  /** Adding never lowers a count and never drops an id. */
  lemma AddNeverDecreases(m: Collection, ids: seq<string>)
    ensures forall k :: k in m ==> k in AddAll(m, ids) && AddAll(m, ids)[k] >= m[k]
  {
    AddAllCounts(m, ids);
    forall k | k in m ensures k in AddAll(m, ids) && AddAll(m, ids)[k] >= m[k] {
      assert CountOf(AddAll(m, ids), k) == CountOf(m, k) + multiset(ids)[k];
    }
  }

  /** Two additions in a row count the same as one addition of both lists. */
  lemma {:induction false} AddAllAppend(m: Collection, a: seq<string>, b: seq<string>)
    ensures AddAll(AddAll(m, a), b) == AddAll(m, a + b)
    decreases |b|
  {
    if b == [] {
      assert a + b == a;
    } else {
      var init := b[..|b| - 1];
      AddAllAppend(m, a, init);
      assert (a + b)[..|a + b| - 1] == a + init;
    }
  }

  /** The browser's `localStorage`, holding the collection among other entries. */
  class CollectionStore {
    var items: map<string, Stored>

    constructor (initial: map<string, Stored>)
      ensures items == initial
    {
      items := initial;
    }

    /** `readCollection`: the stored dictionary, or the empty one when the entry is missing,
        unparsable or not a JSON object. Never fails. */
    function Read(): (m: Collection)
      reads this
      ensures StorageKey in items && items[StorageKey].Counts? ==> m == items[StorageKey].counts
      ensures StorageKey !in items || !items[StorageKey].Counts? ==> m == map[]
    {
      if StorageKey in items then
        match items[StorageKey]
        case Counts(counts) => counts
        case _ => map[]
      else map[]
    }

    /** `writeCollection`: replaces the entry; every other entry is untouched. */
    method Write(m: Collection)
      modifies this
      ensures items == old(items)[StorageKey := Counts(m)]
      ensures Read() == m
    {
      items := items[StorageKey := Counts(m)];
    }

    /** `addToCollection`: read, count each id once more, write back. */
    method Add(cardIds: seq<string>)
      modifies this
      ensures items == old(items)[StorageKey := Counts(AddAll(old(Read()), cardIds))]
      ensures Read() == AddAll(old(Read()), cardIds)
      ensures forall k :: CountOf(Read(), k) == CountOf(old(Read()), k) + multiset(cardIds)[k]
    {
      var m := Read();
      ghost var start := m;
      var i := 0;
      while i < |cardIds|
        invariant 0 <= i <= |cardIds|
        invariant m == AddAll(start, cardIds[..i])
      {
        var id := cardIds[i];
        assert cardIds[..i + 1][..i] == cardIds[..i];
        m := m[id := CountOf(m, id) + 1];
        i := i + 1;
      }
      assert cardIds[..i] == cardIds;
      Write(m);
      AddAllCounts(start, cardIds);
    }

    /** `clearCollection`: removes the entry, so that the next read is empty. */
    method Clear()
      modifies this
      ensures items == old(items) - {StorageKey}
      ensures Read() == map[]
    {
      items := items - {StorageKey};
    }
  }
}
