/**
 * `MetadataProcessor.Map`: the two signals of one game turned into the
 * category, tag and feature names the plugin applies, plus the ProtonDB link.
 */
module Processor {
  import opened Common
  import opened Text
  import opened Domain

  /** `if (!list.Contains(probe)) list.Add(item)`. */
  function AddUnless(xs: seq<string>, probe: string, item: string): seq<string> {
    if probe in xs then xs else xs + [item]
  }

  /** `if (!list.Contains(item)) list.Add(item)`. */
  function AddIfAbsent(xs: seq<string>, item: string): seq<string> {
    AddUnless(xs, item, item)
  }

  /**
   * One deck category's entries. The feature's guard tests the bare category name while the name
   * added is prefixed, so the guard never finds anything in a fresh result.
   */
  function AddDeck(m: MappingResult, name: string, tag: string): MappingResult {
    m.(categories := AddIfAbsent(AddIfAbsent(m.categories, "Steam Deck"), "Steam Deck - " + name),
       tags := AddIfAbsent(m.tags, tag),
       features := AddUnless(m.features, name, "Steamdeck:" + name))
  }

  /** The tier's entries and its link. */
  function AddTier(m: MappingResult, tier: ProtonDbTier, url: Option<string>): MappingResult {
    var name := TierName(tier);
    m.(categories := AddIfAbsent(AddIfAbsent(m.categories, "ProtonDB"), "ProtonDB - " + name),
       tags := AddIfAbsent(m.tags, "protondb:" + Lower(name)),
       features := AddIfAbsent(m.features, "Protondb:" + name),
       protonDbUrl := url)
  }

  /**
   * `Map(appId, deck, proton)`; a null summary counts as the Unknown tier. The link comes only from a
   * summary with a known tier.
   */
  function Map(appId: int, deck: SteamDeckCompatibility, proton: Option<ProtonDbResult>): (r: MappingResult)
    ensures r.protonDbUrl.Some? ==>
      proton.Some? && proton.value.tier != ProtonDbTier.Unknown && r.protonDbUrl == proton.value.url
  {
    var empty := MappingResult([], [], [], None);
    var afterDeck :=
      match deck
      case Verified => AddDeck(empty, "Verified", DeckTagLiteral(deck))
      case Playable => AddDeck(empty, "Playable", DeckTagLiteral(deck))
      case Unsupported => AddDeck(empty, "Unsupported", DeckTagLiteral(deck))
      case Unknown => empty;
    var tier := if proton.Some? then proton.value.tier else ProtonDbTier.Unknown;
    if tier != ProtonDbTier.Unknown then AddTier(afterDeck, tier, proton.value.url) else afterDeck
  }

  /** The tier a possibly-null summary stands for. */
  function TierOf(proton: Option<ProtonDbResult>): ProtonDbTier {
    if proton.Some? then proton.value.tier else ProtonDbTier.Unknown
  }

  /** Reference reading of the mapping: the deck's names first, then the tier's, each only when known. */
  function DeckCategories(deck: SteamDeckCompatibility): seq<string> {
    if deck == SteamDeckCompatibility.Unknown then [] else ["Steam Deck", "Steam Deck - " + DeckName(deck)]
  }

  function TierCategories(tier: ProtonDbTier): seq<string> {
    if tier == ProtonDbTier.Unknown then [] else ["ProtonDB", "ProtonDB - " + TierName(tier)]
  }

  function DeckTags(deck: SteamDeckCompatibility): seq<string> {
    if deck == SteamDeckCompatibility.Unknown then [] else ["steamdeck:" + Lower(DeckName(deck))]
  }

  function TierTags(tier: ProtonDbTier): seq<string> {
    if tier == ProtonDbTier.Unknown then [] else ["protondb:" + Lower(TierName(tier))]
  }

  function DeckFeatures(deck: SteamDeckCompatibility): seq<string> {
    if deck == SteamDeckCompatibility.Unknown then [] else ["Steamdeck:" + DeckName(deck)]
  }

  function TierFeatures(tier: ProtonDbTier): seq<string> {
    if tier == ProtonDbTier.Unknown then [] else ["Protondb:" + TierName(tier)]
  }

  /** No name occurs twice. */
  predicate NoDuplicates(xs: seq<string>) {
    forall i, j :: 0 <= i < j < |xs| ==> xs[i] != xs[j]
  }

  /** The literal deck tag `Map` adds for each known category. */
  function DeckTagLiteral(deck: SteamDeckCompatibility): string {
    match deck
    case Verified => "steamdeck:verified"
    case Playable => "steamdeck:playable"
    case _ => "steamdeck:unsupported"
  }

  lemma LowerIs(s: string, t: string)
    requires |s| == |t| && forall i :: 0 <= i < |s| ==> LowerChar(s[i]) == t[i]
    ensures Lower(s) == t
  {
  }

  /** The literal deck tags are the category names in lower case. */
  lemma DeckTagIsLowerName(deck: SteamDeckCompatibility)
    requires deck != SteamDeckCompatibility.Unknown
    ensures DeckTags(deck) == [DeckTagLiteral(deck)]
  {
    match deck
    case Verified =>
      LowerIs("Verified", "verified");
      assert "steamdeck:" + "verified" == "steamdeck:verified";
    case Playable =>
      LowerIs("Playable", "playable");
      assert "steamdeck:" + "playable" == "steamdeck:playable";
    case Unsupported =>
      LowerIs("Unsupported", "unsupported");
      assert "steamdeck:" + "unsupported" == "steamdeck:unsupported";
  }

  /** Strings that differ in their first character differ. */
  lemma FirstCharDiffers(a: string, b: string)
    requires |a| > 0 && |b| > 0 && a[0] != b[0]
    ensures a != b
  {
  }

  /**
   * The mapping agrees with the reference reading: the deck's category pair and tag when the deck is
   * known, then the tier's pair and tag when the tier is known, the link only with a known tier, and
   * `appId` plays no part.
   */
  lemma MapSpec(appId: int, deck: SteamDeckCompatibility, proton: Option<ProtonDbResult>)
    ensures var m := Map(appId, deck, proton);
      m.categories == DeckCategories(deck) + TierCategories(TierOf(proton))
      && m.tags == DeckTags(deck) + TierTags(TierOf(proton))
      && m.features == DeckFeatures(deck) + TierFeatures(TierOf(proton))
      && m.protonDbUrl == (if TierOf(proton) != ProtonDbTier.Unknown then proton.value.url else None)
  {
    if deck != SteamDeckCompatibility.Unknown {
      DeckTagIsLowerName(deck);
    }
    var tier := TierOf(proton);
    if tier != ProtonDbTier.Unknown {
      var dc, dt, df := DeckCategories(deck), DeckTags(deck), DeckFeatures(deck);
      var c1, c2 := "ProtonDB", "ProtonDB - " + TierName(tier);
      var tag, feature := "protondb:" + Lower(TierName(tier)), "Protondb:" + TierName(tier);
      assert c2[0] == 'P' && tag[0] == 'p' && feature[0] == 'P';
      assert c1 != c2 by { assert |c1| < |c2|; }
      forall x | x in dc ensures x != c1 && x != c2 {
        assert x[0] == 'S';
        FirstCharDiffers(x, c1);
        FirstCharDiffers(x, c2);
      }
      forall x | x in dt ensures x != tag {
        assert x[0] == 's';
        FirstCharDiffers(x, tag);
      }
      forall x | x in df ensures x != feature {
        assert x[0] == 'S';
        FirstCharDiffers(x, feature);
      }
    }
  }

  /** Nothing is listed twice, and the counts follow the known signals: two categories and one tag for each. */
  lemma MapCounts(appId: int, deck: SteamDeckCompatibility, proton: Option<ProtonDbResult>)
    ensures var m := Map(appId, deck, proton);
      var d := if deck != SteamDeckCompatibility.Unknown then 1 else 0;
      var t := if TierOf(proton) != ProtonDbTier.Unknown then 1 else 0;
      |m.categories| == 2 * d + 2 * t && |m.tags| == d + t && |m.features| == d + t
      && NoDuplicates(m.categories) && NoDuplicates(m.tags) && NoDuplicates(m.features)
  {
    MapSpec(appId, deck, proton);
    var m := Map(appId, deck, proton);
    var c, t, f := m.categories, m.tags, m.features;
    forall i, j | 0 <= i < j < |c| ensures c[i] != c[j] {
      if c[i][0] != c[j][0] {
        FirstCharDiffers(c[i], c[j]);
      } else {
        assert |c[i]| < |c[j]|;
      }
    }
    forall i, j | 0 <= i < j < |t| ensures t[i] != t[j] {
      FirstCharDiffers(t[i], t[j]);
    }
    forall i, j | 0 <= i < j < |f| ensures f[i] != f[j] {
      FirstCharDiffers(f[i], f[j]);
    }
  }

  /** Neither signal known: nothing to apply and no link. */
  lemma MapNothingKnown(appId: int, proton: Option<ProtonDbResult>)
    requires TierOf(proton) == ProtonDbTier.Unknown
    ensures Map(appId, SteamDeckCompatibility.Unknown, proton) == MappingResult([], [], [], None)
  {
    MapSpec(appId, SteamDeckCompatibility.Unknown, proton);
  }
}
