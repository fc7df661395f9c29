/**
  The card record shared by both pages: normalisation of a decoded catalog entry, the image
  path a card is shown with, and the CSS class of a rarity.
 */
module Cards {
  import opened Builtins

  /** The five rarity tiers, in the order the summary lists them. */
  const Tiers: seq<string> := ["common", "uncommon", "rare", "legendary", "ultra x rare"]

  /** The tiers as a set. */
  const TierSet: set<string> := {"common", "uncommon", "rare", "legendary", "ultra x rare"}

  /** The tiers a rare slot of a pack can draw from. */
  const RareTiers: set<string> := {"rare", "legendary", "ultra x rare"}

  /** A catalog entry after normalisation. */
  datatype Card = Card(id: string, name: string, rarity: string, imageFile: string, image: string)

  /** A catalog entry as decoded from the card data file. Every field may be missing, and a
      present field is a string; the image file name may be spelled `image_file` or
      `imageFile`. */
  datatype RawCard = RawCard(
    id: Option<string>,
    name: Option<string>,
    rarity: Option<string>,
    image_file: Option<string>,
    imageFile: Option<string>,
    image: Option<string>)

  /** `o ?? d`. */
  function OrElse(o: Option<string>, d: string): (r: string)
    ensures o.Some? ==> r == o.value
    ensures o.None? ==> r == d
  {
    match o
    case Some(v) => v
    case None => d
  }

  /** `normalizeCard`. The random id the source generates for an entry without one is the
      caller-supplied `fallbackId`. */
  function NormalizeCard(raw: RawCard, fallbackId: string): (c: Card)
    ensures c.id == OrElse(raw.id, fallbackId)
    ensures raw.name.None? ==> c.name == "Unknown"
    ensures raw.name.Some? ==> c.name == raw.name.value
    ensures NoUpper(c.rarity)
    ensures raw.rarity.None? ==> c.rarity == ""
    ensures raw.rarity.Some? ==> c.rarity == Lower(raw.rarity.value)
    ensures raw.image_file.Some? ==> c.imageFile == raw.image_file.value
    ensures raw.image_file.None? && raw.imageFile.Some? ==> c.imageFile == raw.imageFile.value
    ensures raw.image_file.None? && raw.imageFile.None? ==> c.imageFile == ""
    ensures c.image == OrElse(raw.image, "")
  {
    var rarity := Lower(OrElse(raw.rarity, ""));
    var imageFile := OrElse(raw.image_file, OrElse(raw.imageFile, ""));
    Card(OrElse(raw.id, fallbackId), OrElse(raw.name, "Unknown"), rarity, imageFile, OrElse(raw.image, ""))
  }

  /** A normalised card written back as a raw entry with every field present. */
  function AsRaw(c: Card): RawCard
  {
    RawCard(Some(c.id), Some(c.name), Some(c.rarity), Some(c.imageFile), None, Some(c.image))
  }

  /** Normalising is idempotent: a normalised card, written back out and normalised again
      (with any fallback id), is unchanged. */
  lemma NormalizeIdempotent(raw: RawCard, fallbackId: string, otherId: string)
    ensures NormalizeCard(AsRaw(NormalizeCard(raw, fallbackId)), otherId) == NormalizeCard(raw, fallbackId)
  {
    var c := NormalizeCard(raw, fallbackId);
    assert Lower(c.rarity) == c.rarity;
  }

  /** A rarity spelled with capitals still lands in its tier once normalised. */
  lemma NormalizeFoldsRarityCase(raw: RawCard, fallbackId: string)
    requires raw.rarity == Some("Ultra X Rare")
    ensures NormalizeCard(raw, fallbackId).rarity == "ultra x rare"
    ensures NormalizeCard(raw, fallbackId).rarity in TierSet
  {
    var r := NormalizeCard(raw, fallbackId).rarity;
    assert |r| == 12;
    assert r[0] == 'u' && r[6] == 'x' && r[8] == 'r';
  }

  /** The directory prefix of older catalog paths. */
  const LegacyPrefix: string := "tcg-cards/"

  /** `p.replace(/^tcg-cards\//, "")`: one leading legacy prefix is removed. */
  function StripLegacyPrefix(p: string): (r: string)
    ensures HasPrefix(p, LegacyPrefix) ==> LegacyPrefix + r == p
    ensures !HasPrefix(p, LegacyPrefix) ==> r == p
  {
    if HasPrefix(p, LegacyPrefix) then p[|LegacyPrefix|..] else p
  }

  /** `resolveImageUrl` before its final `encodeURI`: the trimmed `image` when it is not
      blank, otherwise `rarity/image_file`, without a leading legacy prefix. */
  function ImagePath(card: Card): (p: string)
    ensures Trim(card.image) != [] ==> p == StripLegacyPrefix(Trim(card.image))
    ensures Trim(card.image) == [] ==> p == StripLegacyPrefix(card.rarity + "/" + card.imageFile)
  {
    var chosen := if Trim(card.image) != [] then Trim(card.image) else card.rarity + "/" + card.imageFile;
    StripLegacyPrefix(chosen)
  }

  /** A card with a blank `image` and a recognised rarity is found under its tier's directory. */
  lemma ImagePathFromTier(card: Card)
    requires AllSpace(card.image)
    requires card.rarity in TierSet
    ensures ImagePath(card) == card.rarity + "/" + card.imageFile
  {
    TrimAllSpace(card.image);
    var chosen := card.rarity + "/" + card.imageFile;
    assert chosen[0] == card.rarity[0];
    assert !HasPrefix(chosen, LegacyPrefix);
  }

  /** An explicit image path in the legacy layout loses exactly its leading prefix,
      surrounding whitespace included. */
  lemma ImagePathStripsLegacy(card: Card, rest: string)
    requires Trim(card.image) == LegacyPrefix + rest
    ensures ImagePath(card) == rest
  {
    var t := Trim(card.image);
    assert t[..|LegacyPrefix|] == LegacyPrefix;
    assert t[|LegacyPrefix|..] == rest;
  }

  /** `rarityClass`. */
  function RarityClass(r: string): (cls: string)
    ensures HasPrefix(cls, "rarity-") && cls[7..] == r
  {
    "rarity-" + r
  }

  /** Distinct rarities get distinct CSS classes. */
  lemma RarityClassInjective(a: string, b: string)
    requires RarityClass(a) == RarityClass(b)
    ensures a == b
  {
    assert RarityClass(a)[7..] == a;
  }
}
