/**
 * The plugin's configuration as the services read it through
 * Plugin.Instance?.Configuration, which may be absent (null).
 */
module Settings {
  import opened Wrappers
  import opened Entities

  /** The configuration fields the modelled services read or write. */
  datatype Configuration = Configuration(
    maxRecommendationCollections: int,
    autoCreateCollections: bool,
    useEmbyFallbackOnly: bool,
    lastSyncTime: Option<Timestamp>)

  /** `config?.UseEmbyFallbackOnly == true`: an absent configuration does not force the fallback. */
  predicate FallbackOnly(config: Option<Configuration>) {
    config.Some? && config.value.useEmbyFallbackOnly
  }

  /** `config?.AutoCreateCollections == true`. */
  predicate AutoCreate(config: Option<Configuration>) {
    config.Some? && config.value.autoCreateCollections
  }

  /** GetLastSyncTimeAsync: the stored time, or none without a configuration. */
  function StoredSyncTime(config: Option<Configuration>): Option<Timestamp> {
    if config.Some? then config.value.lastSyncTime else None
  }

  /** The configuration once its last sync time is set to `t`; an absent one stays absent. */
  function Stamped(config: Option<Configuration>, t: Timestamp): (r: Option<Configuration>)
    ensures r.Some? <==> config.Some?
    ensures StoredSyncTime(r) == if config.Some? then Some(t) else None
    ensures r.Some? ==> r.value.(lastSyncTime := config.value.lastSyncTime) == config.value
  {
    if config.Some? then Some(config.value.(lastSyncTime := Some(t))) else None
  }

  /** The plugin instance, holding its (possibly absent) configuration. */
  class Plugin {
    var configuration: Option<Configuration>

    constructor (configuration: Option<Configuration>)
      ensures this.configuration == configuration
    {
      this.configuration := configuration;
    }
  }
}
