/** The part of the YAML configuration the engine reads, and its defaults. */
module Config {
  import opened Wrappers

  /** Default seconds between two passes. */
  const DEFAULT_PERIODICITY: int := 120

  /** One entry of a plugin's `checks` list: its `type` and optional `name`. */
  datatype CheckEntry = CheckEntry(checkType: string, name: Option<string>)

  /** One item of the `plugins` mapping, in insertion order. */
  datatype PluginEntry = PluginEntry(name: string, checks: seq<CheckEntry>)

  /** The configuration; None stands for a key absent from the mapping. */
  datatype SaunaConfig = SaunaConfig(hostname: Option<string>, periodicity: Option<int>, plugins: seq<PluginEntry>)

  /**
   * The `hostname` property: the configured value when the key is present,
   * even an empty one, otherwise the host's fully qualified name `fqdn`.
   */
  function Hostname(config: SaunaConfig, fqdn: string): (h: string)
    ensures config.hostname.None? ==> h == fqdn
    ensures config.hostname.Some? ==> h == config.hostname.value
  {
    match config.hostname
    case Some(name) => name
    case None => fqdn
  }

  /**
   * The `periodicity` property: the configured value when the key is present,
   * even zero, otherwise 120 seconds.
   */
  function Periodicity(config: SaunaConfig): (p: int)
    ensures config.periodicity.None? ==> p == DEFAULT_PERIODICITY
    ensures config.periodicity.Some? ==> p == config.periodicity.value
  {
    match config.periodicity
    case Some(seconds) => seconds
    case None => DEFAULT_PERIODICITY
  }
}
