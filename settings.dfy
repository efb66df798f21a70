/** The settings record: fixed defaults and the shallow merge that fills in stored keys. */
module Settings {
  import opened Wrappers
  import opened Types

  /** The defaults: follow the system theme, sort by expiry date ascending, Indian rupees. */
  const DEFAULT_SETTINGS: AppSettings := AppSettings(System, ByExpiryDate, Asc, "INR")

  /** The partial record with no keys. */
  const NO_KEYS: PartialSettings := PartialSettings(None, None, None, None)

  /** `{ ...base, ...p }`: each key present in `p` replaces the value of `base`, and
      each key missing from `p` keeps the value of `base`. */
  function Overlay(base: AppSettings, p: PartialSettings): (r: AppSettings)
    ensures p.theme.Some? ==> r.theme == p.theme.value
    ensures p.theme.None? ==> r.theme == base.theme
    ensures p.sortBy.Some? ==> r.sortBy == p.sortBy.value
    ensures p.sortBy.None? ==> r.sortBy == base.sortBy
    ensures p.sortDirection.Some? ==> r.sortDirection == p.sortDirection.value
    ensures p.sortDirection.None? ==> r.sortDirection == base.sortDirection
    ensures p.currency.Some? ==> r.currency == p.currency.value
    ensures p.currency.None? ==> r.currency == base.currency
  {
    AppSettings(Pick(base.theme, p.theme), Pick(base.sortBy, p.sortBy),
                Pick(base.sortDirection, p.sortDirection), Pick(base.currency, p.currency))
  }

  /** A complete record seen as a partial one with every key present. */
  function AllKeys(s: AppSettings): PartialSettings {
    PartialSettings(Some(s.theme), Some(s.sortBy), Some(s.sortDirection), Some(s.currency))
  }

  /** `{ ...p, ...q }` for two partial records. */
  function Combine(p: PartialSettings, q: PartialSettings): PartialSettings {
    PartialSettings(if q.theme.Some? then q.theme else p.theme,
                    if q.sortBy.Some? then q.sortBy else p.sortBy,
                    if q.sortDirection.Some? then q.sortDirection else p.sortDirection,
                    if q.currency.Some? then q.currency else p.currency)
  }

  /** What `getSettings` returns for the content of the settings slot: the defaults
      when nothing is stored, otherwise the stored keys over the defaults. */
  function Effective(slot: Option<PartialSettings>): (r: AppSettings)
    ensures r.theme == (if slot.Some? && slot.value.theme.Some? then slot.value.theme.value else System)
    ensures r.sortBy ==
              (if slot.Some? && slot.value.sortBy.Some? then slot.value.sortBy.value else ByExpiryDate)
    ensures r.sortDirection ==
              (if slot.Some? && slot.value.sortDirection.Some? then slot.value.sortDirection.value else Asc)
    ensures r.currency ==
              (if slot.Some? && slot.value.currency.Some? then slot.value.currency.value else "INR")
  {
    if slot.None? then DEFAULT_SETTINGS else Overlay(DEFAULT_SETTINGS, slot.value)
  }

  /** Nothing stored and an empty stored record both read as exactly the defaults. */
  lemma EffectiveDefaults()
    ensures Effective(None) == DEFAULT_SETTINGS
    ensures Effective(Some(NO_KEYS)) == DEFAULT_SETTINGS
  {
  }

  /** A partial record with no keys changes nothing. */
  lemma OverlayNoKeys(base: AppSettings)
    ensures Overlay(base, NO_KEYS) == base
  {
  }

  /** A stored complete record is read back as itself whatever the defaults are. */
  lemma OverlayAllKeys(base: AppSettings, s: AppSettings)
    ensures Overlay(base, AllKeys(s)) == s
    ensures Effective(Some(AllKeys(s))) == s
  {
  }

  /** Merging the same keys twice changes nothing more, and two merges in a row are one
      merge of the combined keys. */
  lemma OverlayComposition(base: AppSettings, p: PartialSettings, q: PartialSettings)
    ensures Overlay(Overlay(base, p), p) == Overlay(base, p)
    ensures Overlay(Overlay(base, p), q) == Overlay(base, Combine(p, q))
  {
  }
}
