/**
 * Server configuration (config.rs): the defaults and the environment
 * variables that override them. Reading the YAML file is I/O and is not part
 * of this model; the process environment is a map from variable names to
 * values.
 */
module Config {

  import opened Json
  import opened Text

  datatype ServerConfig = ServerConfig(host: string, port: nat)
  datatype StorageConfig = StorageConfig(dataDir: string)
  datatype LoggingConfig = LoggingConfig(level: string)

  datatype Config = Config(
    server: ServerConfig,
    storage: StorageConfig,
    logging: LoggingConfig,
    esVersion: string)

  const U16Max: nat := 65535

  /** `Config::default()`. */
  function Default(): (c: Config)
    ensures c.server.host == "0.0.0.0" && c.server.port == 9200
    ensures c.storage.dataDir == "./data" && c.logging.level == "info"
    ensures c.esVersion == "6.4.0"
  {
    Config(ServerConfig("0.0.0.0", 9200), StorageConfig("./data"), LoggingConfig("info"), "6.4.0")
  }

  /**
   * `Config::with_env_overrides`: each variable that is set replaces its
   * field, in the order the source checks them. GUMMY_PORT counts only when
   * it parses as a u16; GUMMY_LOG_LEVEL is ignored whenever RUST_LOG is set.
   */
  method WithEnvOverrides(c: Config, env: map<string, string>) returns (r: Config)
    requires c.server.port <= U16Max
    ensures r.server.port <= U16Max
    ensures r == Overridden(c, env)
  {
    r := c;
    if "GUMMY_HOST" in env {
      r := r.(server := r.server.(host := env["GUMMY_HOST"]));
    }
    if "GUMMY_PORT" in env {
      var parsed := ParseUnsigned(env["GUMMY_PORT"], U16Max);
      if parsed.Some? {
        r := r.(server := r.server.(port := parsed.value));
      }
    }
    if "GUMMY_DATA_DIR" in env {
      r := r.(storage := StorageConfig(env["GUMMY_DATA_DIR"]));
    }
    if "RUST_LOG" in env {
      // tracing reads RUST_LOG itself; the configured level stays as it is
    } else if "GUMMY_LOG_LEVEL" in env {
      r := r.(logging := LoggingConfig(env["GUMMY_LOG_LEVEL"]));
    }
    if "GUMMY_ES_VERSION" in env {
      r := r.(esVersion := env["GUMMY_ES_VERSION"]);
    }
  }

  /** The configuration after the overrides, field by field. */
  function Overridden(c: Config, env: map<string, string>): (r: Config)
  {
    var port := if "GUMMY_PORT" in env then ParseUnsigned(env["GUMMY_PORT"], U16Max) else None;
    Config(
      ServerConfig(if "GUMMY_HOST" in env then env["GUMMY_HOST"] else c.server.host,
                   if port.Some? then port.value else c.server.port),
      StorageConfig(if "GUMMY_DATA_DIR" in env then env["GUMMY_DATA_DIR"] else c.storage.dataDir),
      LoggingConfig(if "RUST_LOG" !in env && "GUMMY_LOG_LEVEL" in env then env["GUMMY_LOG_LEVEL"] else c.logging.level),
      if "GUMMY_ES_VERSION" in env then env["GUMMY_ES_VERSION"] else c.esVersion)
  }

  /** With no variable set the overrides change nothing. */
  lemma NoOverrides(c: Config)
    ensures Overridden(c, map[]) == c
  {
  }

  /** Applying the overrides a second time changes nothing more. */
  lemma OverridesIdempotent(c: Config, env: map<string, string>)
    ensures Overridden(Overridden(c, env), env) == Overridden(c, env)
  {
  }

  /** A port that does not parse as a u16 leaves the port as it was. */
  lemma BadPortIgnored(c: Config, env: map<string, string>)
    requires "GUMMY_PORT" in env && ParseUnsigned(env["GUMMY_PORT"], U16Max).None?
    ensures Overridden(c, env).server.port == c.server.port
  {
  }

  /** GUMMY_LOG_LEVEL takes effect exactly when RUST_LOG is unset. */
  lemma LogLevelYieldsToRustLog(c: Config, env: map<string, string>)
    requires "GUMMY_LOG_LEVEL" in env
    ensures Overridden(c, env).logging.level == if "RUST_LOG" in env then c.logging.level else env["GUMMY_LOG_LEVEL"]
  {
  }
}
