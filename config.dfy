/** The configuration constants of `config.js` that the modelled code reads. */
module Config {

  /** `crawler.maxPages`: result pages searched per task. */
  const MaxPages: nat := 10

  /** Entries per result page (`listSize=72` in the search URL). */
  const PageSize: nat := 72

  /** `proxy.maxRetries`; no code in the modelled files reads it. */
  const MaxRetries: nat := 3

  /** `proxy.rotateOnSuccess`. */
  const RotateOnSuccess: bool := true

  /** `resourceFiltering.enabled`. */
  const FilteringEnabled: bool := true

  /** `resourceFiltering.blockedDomains`. */
  const BlockedDomains: seq<string> :=
    ["image*.coupangcdn.com", "thumbnail*.coupangcdn.com", "static.coupangcdn.com", "mercury.coupang.com"]

  /** `resourceFiltering.blockedResourceTypes`. */
  const BlockedResourceTypes: seq<string> := ["image", "font", "media"]

  /** `resourceFiltering.blockedExtensions`. */
  const BlockedExtensions: seq<string> :=
    [".jpg", ".jpeg", ".png", ".gif", ".webp", ".svg", ".woff", ".woff2", ".ttf", ".otf", ".mp4", ".mp3", ".avi"]
}
