/** The service's configuration: typed settings read from the process
    environment with defaults, a range check on the port and on the
    environment name, and one lazily created shared instance. The environment
    (as filled by `dotenv`) is a parameter. */
module Configuration {
  import opened Wrappers
  import opened JsText

  type Env = map<string, string>

  /** Why loading or validating fails (each is a thrown `Error`). */
  datatype ConfigError =
    | Missing(key: string)
    | NotANumber(key: string, value: string)
    | InvalidPort(port: int)
    | InvalidNodeEnv(nodeEnv: string)

  // ---------------------------------------------------------------------------
  // Typed lookups
  // ---------------------------------------------------------------------------

  /** `getEnvString`: the set value as it is (even empty), else the default,
      else an error naming the key. */
  function GetEnvString(env: Env, key: string, default: Option<string>): (r: Result<string, ConfigError>)
    ensures key in env ==> r == Ok(env[key])
    ensures key !in env && default.Some? ==> r == Ok(default.value)
    ensures r.Err? <==> key !in env && default.None?
    ensures r.Err? ==> r.error == Missing(key)
  {
    if key !in env then
      if default.Some? then Ok(default.value) else Err(Missing(key))
    else Ok(env[key])
  }

  /** `getEnvNumber`: `parseInt(value, 10)` of a set value, an error when that
      is `NaN`; an unset key falls back to the default or is an error. */
  function GetEnvNumber(env: Env, key: string, default: Option<int>): (r: Result<int, ConfigError>)
    ensures key in env ==> (r.Ok? <==> ParseInt(env[key]).Some?)
    ensures key in env && r.Ok? ==> r.value == ParseInt(env[key]).value
    ensures key in env && r.Err? ==> r.error == NotANumber(key, env[key])
    ensures key !in env ==> (r.Ok? <==> default.Some?)
    ensures key !in env && r.Ok? ==> r.value == default.value
    ensures key !in env && r.Err? ==> r.error == Missing(key)
  {
    if key !in env then
      if default.Some? then Ok(default.value) else Err(Missing(key))
    else
      match ParseInt(env[key])
      case None => Err(NotANumber(key, env[key]))
      case Some(n) => Ok(n)
  }

  /** `getEnvBoolean`: a set value means `true` exactly when it lower-cases
      to `"true"`. */
  function GetEnvBoolean(env: Env, key: string, default: Option<bool>): (r: Result<bool, ConfigError>)
    ensures key in env ==> r.Ok? && (r.value <==> ToLower(env[key]) == "true")
    ensures key !in env ==> (r.Ok? <==> default.Some?) && (r.Ok? ==> r.value == default.value)
    ensures r.Err? ==> r.error == Missing(key)
  {
    if key !in env then
      if default.Some? then Ok(default.value) else Err(Missing(key))
    else Ok(ToLower(env[key]) == "true")
  }

  /** `getEnvArray`: a set value is split at every comma and each item
      trimmed. */
  function GetEnvArray(env: Env, key: string, default: Option<seq<string>>): (r: Result<seq<string>, ConfigError>)
    ensures key !in env ==> (r.Ok? <==> default.Some?) && (r.Ok? ==> r.value == default.value)
    ensures key in env ==> r.Ok?
    ensures r.Err? ==> r.error == Missing(key)
  {
    if key !in env then
      if default.Some? then Ok(default.value) else Err(Missing(key))
    else
      var parts := Split(env[key], ',');
      Ok(seq(|parts|, k requires 0 <= k < |parts| => Trim(parts[k])))
  }

  /** One item per comma plus one, each the trimmed piece between commas. */
  lemma GetEnvArrayItems(env: Env, key: string, default: Option<seq<string>>)
    requires key in env
    ensures var items := GetEnvArray(env, key, default).value;
      && |items| == CountChar(env[key], ',') + 1
      && forall k :: 0 <= k < |items| ==>
           items[k] == Trim(Split(env[key], ',')[k]) && ',' !in items[k]
  {
    var s := env[key];
    SplitCount(s, ',');
    SplitPiecesFree(s, ',');
    var items := GetEnvArray(env, key, default).value;
    forall k | 0 <= k < |items|
      ensures ',' !in items[k]
    {
      var piece := Split(s, ',')[k];
      var i := TrimOffset(piece);
      forall c | c in items[k]
        ensures c != ','
      {
        assert c in piece;
      }
    }
  }

  // ---------------------------------------------------------------------------
  // The loaded configuration
  // ---------------------------------------------------------------------------

  datatype ServerConfig = ServerConfig(port: int, host: string, nodeEnv: string)
  datatype DatabaseConfig = DatabaseConfig(uri: string, name: string)
  datatype DeribitAccount = DeribitAccount(baseUrl: string, clientId: string, clientSecret: string)
  datatype DeribitConfig = DeribitConfig(main: DeribitAccount, sub: DeribitAccount)
  datatype CoinGeckoConfig = CoinGeckoConfig(baseUrl: string, apiKey: string)
  datatype ContractAddresses = ContractAddresses(loan: string, aToken: string, vdtToken: string, lendingPool: string)
  datatype RpcConfig = RpcConfig(mainnetUrl: string, url: string, chainId: int, contractAddresses: ContractAddresses)
  datatype ProtocolConfig = ProtocolConfig(maxInterestRate: int, flashLoanFee: string, protocolLoanInitFee: string)
  datatype AppConfig = AppConfig(
    server: ServerConfig,
    database: DatabaseConfig,
    deribit: DeribitConfig,
    coingecko: CoinGeckoConfig,
    rpc: RpcConfig,
    protocol: ProtocolConfig)

  /** Every key of `keys` is set. */
  predicate AllSet(env: Env, keys: seq<string>) {
    forall k :: k in keys ==> k in env
  }

  /** The first key of `keys` that is not set, if any. */
  function FirstUnset(env: Env, keys: seq<string>): (r: Option<string>)
    ensures r.None? <==> AllSet(env, keys)
    ensures r.Some? ==> r.value in keys && r.value !in env
    decreases |keys|
  {
    if |keys| == 0 then None
    else if keys[0] !in env then Some(keys[0])
    else
      assert forall k :: k in keys ==> k == keys[0] || k in keys[1..];
      FirstUnset(env, keys[1..])
  }

  /** For two keys: the first one unset, if any. */
  lemma FirstUnsetPair(env: Env, a: string, b: string)
    ensures AllSet(env, [a, b]) <==> a in env && b in env
    ensures FirstUnset(env, [a, b]) == if a !in env then Some(a) else if b !in env then Some(b) else None
  {
    assert [a, b][1..] == [b];
    assert [b][1..] == [];
  }

  /** A numeric setting that is either unset or readable by `parseInt`. */
  predicate NumberReadable(env: Env, key: string) {
    key in env ==> ParseInt(env[key]).Some?
  }

  /** The value of a numeric setting, or its default when unset. */
  function NumberOr(env: Env, key: string, default: int): int
    requires NumberReadable(env, key)
  {
    if key in env then ParseInt(env[key]).value else default
  }

  /** The value of a string setting, or its default when unset. */
  function StringOr(env: Env, key: string, default: string): string
  {
    if key in env then env[key] else default
  }

  /** `serverConfig`: every key has a default; only an unreadable `PORT`
      fails. Unset keys give port 3000 on `0.0.0.0` in `development`. */
  function LoadServer(env: Env): (r: Result<ServerConfig, ConfigError>)
    ensures r.Ok? <==> NumberReadable(env, "PORT")
    ensures r.Ok? ==> r.value == ServerConfig(
      NumberOr(env, "PORT", 3000), StringOr(env, "HOST", "0.0.0.0"), StringOr(env, "NODE_ENV", "development"))
    ensures r.Err? ==> r.error == NotANumber("PORT", env["PORT"])
  {
    var port :- GetEnvNumber(env, "PORT", Some(3000));
    var host := GetEnvString(env, "HOST", Some("0.0.0.0")).value;
    var nodeEnv := GetEnvString(env, "NODE_ENV", Some("development")).value;
    Ok(ServerConfig(port, host, nodeEnv))
  }

  const DatabaseKeys: seq<string> := ["DATABASE_URI", "DATABASE_NAME"]

  /** `databaseConfig`: both keys are required. */
  function LoadDatabase(env: Env): (r: Result<DatabaseConfig, ConfigError>)
    ensures r.Ok? <==> AllSet(env, DatabaseKeys)
    ensures r.Ok? ==> r.value == DatabaseConfig(env["DATABASE_URI"], env["DATABASE_NAME"])
    ensures r.Err? ==> r.error == Missing(FirstUnset(env, DatabaseKeys).value)
  {
    FirstUnsetPair(env, "DATABASE_URI", "DATABASE_NAME");
    var uri :- GetEnvString(env, "DATABASE_URI", None);
    var name :- GetEnvString(env, "DATABASE_NAME", None);
    Ok(DatabaseConfig(uri, name))
  }

  const DeribitKeys: seq<string> := [
    "DERIBIT_MAIN_BASE_URL", "DERIBIT_MAIN_CLIENT_ID", "DERIBIT_MAIN_CLIENT_SECRET",
    "DERIBIT_SUB_BASE_URL", "DERIBIT_SUB_CLIENT_ID", "DERIBIT_SUB_CLIENT_SECRET"]

  /** `deribitConfig`: the six credentials of the main and sub accounts are
      required. */
  function LoadDeribit(env: Env): (r: Result<DeribitConfig, ConfigError>)
    ensures r.Ok? <==> AllSet(env, DeribitKeys)
    ensures r.Err? ==> r.error == Missing(FirstUnset(env, DeribitKeys).value)
    ensures r.Ok? ==> r.value.main == DeribitAccount(
      env["DERIBIT_MAIN_BASE_URL"], env["DERIBIT_MAIN_CLIENT_ID"], env["DERIBIT_MAIN_CLIENT_SECRET"])
    ensures r.Ok? ==> r.value.sub == DeribitAccount(
      env["DERIBIT_SUB_BASE_URL"], env["DERIBIT_SUB_CLIENT_ID"], env["DERIBIT_SUB_CLIENT_SECRET"])
  {
    var mainBaseUrl :- GetEnvString(env, "DERIBIT_MAIN_BASE_URL", None);
    var mainClientId :- GetEnvString(env, "DERIBIT_MAIN_CLIENT_ID", None);
    var mainClientSecret :- GetEnvString(env, "DERIBIT_MAIN_CLIENT_SECRET", None);
    var subBaseUrl :- GetEnvString(env, "DERIBIT_SUB_BASE_URL", None);
    var subClientId :- GetEnvString(env, "DERIBIT_SUB_CLIENT_ID", None);
    var subClientSecret :- GetEnvString(env, "DERIBIT_SUB_CLIENT_SECRET", None);
    Ok(DeribitConfig(
      DeribitAccount(mainBaseUrl, mainClientId, mainClientSecret),
      DeribitAccount(subBaseUrl, subClientId, subClientSecret)))
  }

  /** `coingeckoConfig`: both keys default to the empty string, so this
      section never fails. */
  function LoadCoinGecko(env: Env): (r: Result<CoinGeckoConfig, ConfigError>)
    ensures r == Ok(CoinGeckoConfig(StringOr(env, "COINGECKO_URL", ""), StringOr(env, "COINGECKO_APIKEY", "")))
  {
    var baseUrl := GetEnvString(env, "COINGECKO_URL", Some("")).value;
    var apiKey := GetEnvString(env, "COINGECKO_APIKEY", Some("")).value;
    Ok(CoinGeckoConfig(baseUrl, apiKey))
  }

  const RpcUrlKeys: seq<string> := ["RPC_URL_MAINNET", "RPC_URL"]
  const AddressKeys: seq<string> := ["ADDR_LOAN", "ADDR_A_TOKEN", "ADDR_VDT_TOKEN", "ADDR_LENDING_POOL"]

  /** `contractAddresses`: the four addresses are required. */
  function LoadContractAddresses(env: Env): (r: Result<ContractAddresses, ConfigError>)
    ensures r.Ok? <==> AllSet(env, AddressKeys)
    ensures r.Ok? ==> r.value == ContractAddresses(
      env["ADDR_LOAN"], env["ADDR_A_TOKEN"], env["ADDR_VDT_TOKEN"], env["ADDR_LENDING_POOL"])
    ensures r.Err? ==> r.error == Missing(FirstUnset(env, AddressKeys).value)
  {
    var loan :- GetEnvString(env, "ADDR_LOAN", None);
    var aToken :- GetEnvString(env, "ADDR_A_TOKEN", None);
    var vdtToken :- GetEnvString(env, "ADDR_VDT_TOKEN", None);
    var lendingPool :- GetEnvString(env, "ADDR_LENDING_POOL", None);
    Ok(ContractAddresses(loan, aToken, vdtToken, lendingPool))
  }

  /** `rpcConfig`: the two URLs, a readable `CHAIN_ID` and the four contract
      addresses are required, read in that order. */
  function LoadRpc(env: Env): (r: Result<RpcConfig, ConfigError>)
    ensures var chainId := GetEnvNumber(env, "CHAIN_ID", None);
      && (r.Ok? <==> AllSet(env, RpcUrlKeys) && chainId.Ok? && AllSet(env, AddressKeys))
      && (r.Ok? ==> r.value == RpcConfig(env["RPC_URL_MAINNET"], env["RPC_URL"], chainId.value,
                                         LoadContractAddresses(env).value))
      && (r.Err? ==>
            if !AllSet(env, RpcUrlKeys) then r.error == Missing(FirstUnset(env, RpcUrlKeys).value)
            else if chainId.Err? then r.error == chainId.error
            else r.error == LoadContractAddresses(env).error)
  {
    FirstUnsetPair(env, "RPC_URL_MAINNET", "RPC_URL");
    var mainnetUrl :- GetEnvString(env, "RPC_URL_MAINNET", None);
    var url :- GetEnvString(env, "RPC_URL", None);
    var chainId :- GetEnvNumber(env, "CHAIN_ID", None);
    var contractAddresses :- LoadContractAddresses(env);
    Ok(RpcConfig(mainnetUrl, url, chainId, contractAddresses))
  }

  const FeeKeys: seq<string> := ["FLASH_LOAN_FEE", "PROTOCOL_LOAN_INIT_FEE"]

  /** `protocolConfig`: a readable `MAX_INTEREST_RATE` and both fees are
      required. */
  function LoadProtocol(env: Env): (r: Result<ProtocolConfig, ConfigError>)
    ensures var rate := GetEnvNumber(env, "MAX_INTEREST_RATE", None);
      && (r.Ok? <==> rate.Ok? && AllSet(env, FeeKeys))
      && (r.Ok? ==> r.value == ProtocolConfig(rate.value, env["FLASH_LOAN_FEE"], env["PROTOCOL_LOAN_INIT_FEE"]))
      && (r.Err? ==> r.error == if rate.Err? then rate.error else Missing(FirstUnset(env, FeeKeys).value))
  {
    FirstUnsetPair(env, "FLASH_LOAN_FEE", "PROTOCOL_LOAN_INIT_FEE");
    var maxInterestRate :- GetEnvNumber(env, "MAX_INTEREST_RATE", None);
    var flashLoanFee :- GetEnvString(env, "FLASH_LOAN_FEE", None);
    var protocolLoanInitFee :- GetEnvString(env, "PROTOCOL_LOAN_INIT_FEE", None);
    Ok(ProtocolConfig(maxInterestRate, flashLoanFee, protocolLoanInitFee))
  }

  /** `loadConfig`: the six sections in the order the source builds them; the
      first failing read is the error. */
  function LoadConfig(env: Env): Result<AppConfig, ConfigError>
  {
    var server :- LoadServer(env);
    var database :- LoadDatabase(env);
    var deribit :- LoadDeribit(env);
    var coingecko :- LoadCoinGecko(env);
    var rpc :- LoadRpc(env);
    var protocol :- LoadProtocol(env);
    Ok(AppConfig(server, database, deribit, coingecko, rpc, protocol))
  }

  /** Every key `loadConfig` reads without a default. */
  const RequiredKeys: seq<string> :=
    DatabaseKeys + DeribitKeys + RpcUrlKeys + ["CHAIN_ID"] + AddressKeys + ["MAX_INTEREST_RATE"] + FeeKeys

  /** The reads that can fail: a required key that is unset, or a numeric
      key set to text `parseInt` cannot read. */
  predicate IsReadFailure(env: Env, e: ConfigError) {
    match e
    case Missing(key) => key in RequiredKeys && key !in env
    case NotANumber(key, value) =>
      key in ["PORT", "CHAIN_ID", "MAX_INTEREST_RATE"] && key in env && env[key] == value
      && ParseInt(value).None?
    case _ => false
  }

  /** Loading succeeds exactly when every required key is set and every
      numeric key that is set parses; a failure names a key whose read
      fails. */
  lemma LoadConfigSucceedsIff(env: Env)
    ensures LoadConfig(env).Ok? <==>
      AllSet(env, RequiredKeys)
      && NumberReadable(env, "PORT") && NumberReadable(env, "CHAIN_ID") && NumberReadable(env, "MAX_INTEREST_RATE")
    ensures LoadConfig(env).Err? ==> IsReadFailure(env, LoadConfig(env).error)
  {
    RequiredKeysSections(env);
    if LoadServer(env).Err? {
    } else if LoadDatabase(env).Err? {
    } else if LoadDeribit(env).Err? {
    } else if LoadRpc(env).Err? {
      if AllSet(env, RpcUrlKeys) && "CHAIN_ID" in env && NumberReadable(env, "CHAIN_ID") {
        assert LoadRpc(env).error == LoadContractAddresses(env).error;
      }
    } else {
    }
  }

  /** `RequiredKeys` is the union of the sections' required keys. */
  lemma RequiredKeysSections(env: Env)
    ensures AllSet(env, RequiredKeys) <==>
      AllSet(env, DatabaseKeys) && AllSet(env, DeribitKeys) && AllSet(env, RpcUrlKeys) && "CHAIN_ID" in env
      && AllSet(env, AddressKeys) && "MAX_INTEREST_RATE" in env && AllSet(env, FeeKeys)
    ensures forall k ::
      (k in DatabaseKeys || k in DeribitKeys || k in RpcUrlKeys || k in AddressKeys
       || k in FeeKeys || k == "CHAIN_ID" || k == "MAX_INTEREST_RATE") ==> k in RequiredKeys
  {
  }

  /** Unset server keys take their defaults: port 3000 on `0.0.0.0` in
      `development`. */
  lemma LoadConfigServerDefaults(env: Env)
    requires LoadConfig(env).Ok?
    requires "PORT" !in env && "HOST" !in env && "NODE_ENV" !in env
    ensures LoadConfig(env).value.server == ServerConfig(3000, "0.0.0.0", "development")
  {
  }

  // ---------------------------------------------------------------------------
  // Validation
  // ---------------------------------------------------------------------------

  const ValidNodeEnvs: seq<string> := ["development", "production", "test"]

  /** `validate`: the port first, then the environment name. */
  function Validate(c: AppConfig): (r: Option<ConfigError>)
    ensures r.None? <==> 1 <= c.server.port <= 65535 && c.server.nodeEnv in ValidNodeEnvs
    ensures (c.server.port < 1 || c.server.port > 65535) ==> r == Some(InvalidPort(c.server.port))
    ensures 1 <= c.server.port <= 65535 && c.server.nodeEnv !in ValidNodeEnvs ==>
              r == Some(InvalidNodeEnv(c.server.nodeEnv))
  {
    if c.server.port < 1 || c.server.port > 65535 then Some(InvalidPort(c.server.port))
    else if c.server.nodeEnv !in ValidNodeEnvs then Some(InvalidNodeEnv(c.server.nodeEnv))
    else None
  }

  /** The defaults pass validation. */
  lemma DefaultServerValid(c: AppConfig)
    requires c.server == ServerConfig(3000, "0.0.0.0", "development")
    ensures Validate(c).None?
  {
  }

  // ---------------------------------------------------------------------------
  // The shared instance
  // ---------------------------------------------------------------------------

  /** A loaded configuration object. */
  class Config {
    const config: AppConfig

    /** The private constructor: load, failing on a bad environment. */
    constructor (loaded: AppConfig)
      ensures config == loaded
    {
      config := loaded;
    }
  }

  /** The class-level `instance` slot behind `getInstance`. */
  class ConfigRegistry {
    var instance: Config?

    constructor ()
      ensures instance == null
    {
      instance := null;
    }

    /** `getInstance`: the first successful call loads the environment and
        keeps the object; every later call returns that same object without
        reading the environment again. A failed load leaves the slot empty. */
    method GetInstance(env: Env) returns (r: Result<Config, ConfigError>)
      modifies this
      ensures old(instance) != null ==> r == Ok(old(instance)) && instance == old(instance)
      ensures old(instance) == null && LoadConfig(env).Err? ==>
                r == Err(LoadConfig(env).error) && instance == null
      ensures old(instance) == null && LoadConfig(env).Ok? ==>
                r.Ok? && fresh(r.value) && r.value.config == LoadConfig(env).value && instance == r.value
    {
      if instance == null {
        var loaded := LoadConfig(env);
        if loaded.Err? {
          return Err(loaded.error);
        }
        instance := new Config(loaded.value);
      }
      return Ok(instance);
    }
  }
}
