/** The `playbookConfig` of a plan and the venue keys read from it (venue-factory.service.ts). */
module Playbook {
  import opened Prelude

  datatype LegType = Dex | Bridge

  /** The bridge fields of a configuration record: its bridge key when that is a string, and whether the
      record has every field that a transfer needs. */
  datatype BridgeFields = BridgeFields(key: Option<string>, complete: bool)

  const NO_BRIDGE := BridgeFields(None, false)

  /** An entry of `config.legs`: `null`, or an object of which these fields are read. */
  datatype LegEntry =
    | NullEntry
    | LegEntry(legIndex: int, legType: LegType, targetQuantity: real, venueKey: Option<string>, bridge: BridgeFields)

  /** An entry of the legacy `config.dexSwaps`. */
  datatype SwapEntry =
    | NullSwap
    | SwapEntry(swapVenueKey: Option<string>, swapBridge: BridgeFields)

  datatype Config = Config(
    schemaVersion: int,
    legs: Option<seq<LegEntry>>,
    dexSwaps: Option<seq<SwapEntry>>,
    venueKey: Option<string>,
    bridgeDefaults: Option<BridgeFields>,
    grossProfitUsd: Option<real>)

  const DEX_VENUE_KEYS: set<string> := {"uniswap-v2", "uniswap-v3", "sushiswap", "pancakeswap-v2", "biswap"}

  predicate IsLiveVenueKey(key: Option<string>)
  {
    key.Some? && key.value in DEX_VENUE_KEYS
  }

  /** Array access that yields nothing outside the bounds. */
  function At<T>(entries: Option<seq<T>>, i: int): Option<T>
  {
    if entries.Some? && 0 <= i < |entries.value| then Some(entries.value[i]) else None
  }

  function NonEmpty(key: Option<string>): Option<string>
  {
    if key.Some? && key.value == "" then None else key
  }

  /** `config.legs[i].venueKey` if present and non-empty. */
  function LegsKey(config: Config, i: int): Option<string>
  {
    var entry := At(config.legs, i);
    if entry.Some? && entry.value.LegEntry? then NonEmpty(entry.value.venueKey) else None
  }

  function SwapsKey(config: Config, i: int): Option<string>
  {
    var entry := At(config.dexSwaps, i);
    if entry.Some? && entry.value.SwapEntry? then NonEmpty(entry.value.swapVenueKey) else None
  }

  /** `extractVenueKey`: the leg entry first, the legacy entry next, the plan's own key last. */
  function ExtractVenueKey(config: Option<Config>, legIndex: int): (key: Option<string>)
    ensures key.Some? ==> key.value != ""
  {
    if config.None? then None
    else if LegsKey(config.value, legIndex).Some? then LegsKey(config.value, legIndex)
    else if SwapsKey(config.value, legIndex).Some? then SwapsKey(config.value, legIndex)
    else NonEmpty(config.value.venueKey)
  }

  predicate HasBridgeKey(fields: BridgeFields)
  {
    NonEmpty(fields.key).Some?
  }

  /** Whether `extractBridgeParams` finds parameters: in the leg entry, unless that is incomplete; else in the
      legacy entry, if it names a bridge; else in the plan's defaults. */
  predicate HasBridgeParams(config: Option<Config>, legIndex: int)
  {
    config.Some?
    && var leg, swap := At(config.value.legs, legIndex), At(config.value.dexSwaps, legIndex);
    if leg.Some? && leg.value.LegEntry? && (HasBridgeKey(leg.value.bridge) || leg.value.legType.Bridge?)
       && leg.value.bridge.complete
    then true
    else if swap.Some? && swap.value.SwapEntry? && HasBridgeKey(swap.value.swapBridge)
    then swap.value.swapBridge.complete
    else config.value.bridgeDefaults.Some? && config.value.bridgeDefaults.value.complete
  }

  /** The key the auto-driver looks at: `config.legs[legIndex]?.venueKey`, with no fallback. */
  function DriverVenueKey(config: Option<Config>, legIndex: int): Option<string>
  {
    if config.None? then None
    else
      var entry := At(config.value.legs, legIndex);
      if entry.Some? && entry.value.LegEntry? then entry.value.venueKey else None
  }

  /** A leg the auto-driver takes for live is live under `extractVenueKey`, with the same key. */
  lemma DriverKeyIsExtracted(config: Option<Config>, legIndex: int)
    requires IsLiveVenueKey(DriverVenueKey(config, legIndex))
    ensures ExtractVenueKey(config, legIndex) == DriverVenueKey(config, legIndex)
  {
  }
}
