/** The configuration store (`loadConfig` / `saveConfig` in main.js). The
    JSON file on disk is an `Option<Config>`: `None` stands for a file that
    is missing or cannot be read or parsed. */
module ConfigStore {
  import opened Wrappers

  /** A stored configuration document. `position` is kept as written, with
      no validation; `idleMinutes` is `None` when the field is absent or
      null. */
  datatype Config = Config(position: string, idleMinutes: Option<nat>)

  /** What a failed read yields. */
  const DEFAULT_CONFIG: Config := Config("bottom-right", Some(2))

  /** Reading the configuration never fails: a readable document is
      returned as it is, anything else gives the default document. */
  function LoadConfig(file: Option<Config>): (c: Config)
    ensures file.Some? ==> c == file.value
    ensures file.None? ==> c.position == "bottom-right" && c.idleMinutes == Some(2)
  {
    file.GetOr(DEFAULT_CONFIG)
  }
}
