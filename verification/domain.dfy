/** The plugin's value types: the two compatibility signals and the records built from them. */
module Domain {
  import opened Common

  /** Steam Deck compatibility category reported by the Steam store. */
  datatype SteamDeckCompatibility = Unknown | Verified | Playable | Unsupported

  /** ProtonDB community tier; `Unknown` is "no usable answer". */
  datatype ProtonDbTier = Unknown | Platinum | Gold | Silver | Bronze | Plausible | Borked

  /** `SteamDeckCompatibility.ToString()`: the enum member's name. */
  function DeckName(d: SteamDeckCompatibility): string {
    match d
    case Unknown => "Unknown"
    case Verified => "Verified"
    case Playable => "Playable"
    case Unsupported => "Unsupported"
  }

  /** `ProtonDbTier.ToString()`: the enum member's name. */
  function TierName(t: ProtonDbTier): string {
    match t
    case Unknown => "Unknown"
    case Platinum => "Platinum"
    case Gold => "Gold"
    case Silver => "Silver"
    case Bronze => "Bronze"
    case Plausible => "Plausible"
    case Borked => "Borked"
  }

  /** A ProtonDB summary: the tier and the profile URL, which may be null. */
  datatype ProtonDbResult = ProtonDbResult(tier: ProtonDbTier, url: Option<string>)

  /** What one game maps to: category, tag and feature names and the ProtonDB link, if any. */
  datatype MappingResult = MappingResult(
    categories: seq<string>,
    tags: seq<string>,
    features: seq<string>,
    protonDbUrl: Option<string>)

  /** Both signals for one game; a null ProtonDB result is `None`. */
  datatype FetchResult = FetchResult(deck: SteamDeckCompatibility, proton: Option<ProtonDbResult>)
}
