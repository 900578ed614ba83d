/**
 * The database configuration read from the environment, and the checks and
 * derived values of the client constructor: the required settings, the
 * Cloud SQL instance connection name, the connection string and the pool
 * limits. Dialling, pool creation and ping are steps that may fail, given
 * as a parameter.
 */
module DbConfig {
  import opened Wrappers
  import opened Text

  datatype Config = Config(
    projectId: string,
    region: string,
    instanceId: string,
    databaseName: string,
    user: string,
    password: string,
    maxOpenConns: int,
    maxIdleConns: int,
    connMaxLifetime: int)

  /** The error each connection step reports, if it fails. */
  datatype ConnectFaults = ConnectFaults(dialer: Option<string>, parseDsn: Option<string>, pool: Option<string>, ping: Option<string>)

  /** What a constructed client is configured with. */
  datatype Client = Client(instanceConnectionName: string, dsn: string, maxConns: int, minConns: int, maxConnLifetimeMinutes: int)

  /** The process environment; a variable that is not set reads as "". */
  type Env = map<string, string>

  const ProjectVar: string := "GOOGLE_CLOUD_PROJECT"
  const RegionVar: string := "GOOGLE_CLOUD_REGION"
  const InstanceVar: string := "GOOGLE_CLOUD_SQL_INSTANCE"
  const DatabaseNameVar: string := "DATABASE_NAME"
  const UserVar: string := "DATABASE_USER"
  const PasswordVar: string := "DATABASE_PASSWORD"

  const RequiredMessage: string := "GOOGLE_CLOUD_PROJECT and GOOGLE_CLOUD_SQL_INSTANCE environment variables are required"

  /** os.Getenv. */
  function Getenv(env: Env, key: string): string {
    if key in env then env[key] else ""
  }

  /** getEnvOrDefault: the variable's value when it is not empty, else the default. */
  function GetEnvOrDefault(env: Env, key: string, default: string): (r: string)
    ensures Getenv(env, key) != "" ==> r == Getenv(env, key)
    ensures Getenv(env, key) == "" ==> r == default
  {
    var value := Getenv(env, key);
    if value != "" then value else default
  }

  /** A variable set to the empty string reads as if it were not set. */
  lemma EmptyCountsAsUnset(env: Env, key: string, default: string)
    ensures GetEnvOrDefault(env[key := ""], key, default) == GetEnvOrDefault(env - {key}, key, default) == default
  {
  }

  /** NewConfig: each setting from its variable or its default; the pool limits are fixed. */
  function NewConfig(env: Env): (r: Config)
    ensures r.projectId == Getenv(env, ProjectVar) && r.instanceId == Getenv(env, InstanceVar)
    ensures r.password == Getenv(env, PasswordVar)
    ensures r.region == GetEnvOrDefault(env, RegionVar, "us-central1")
    ensures r.databaseName == GetEnvOrDefault(env, DatabaseNameVar, "sticker_db")
    ensures r.user == GetEnvOrDefault(env, UserVar, "postgres")
    ensures r.maxOpenConns == 25 && r.maxIdleConns == 5 && r.connMaxLifetime == 30
  {
    Config(
      GetEnvOrDefault(env, ProjectVar, ""),
      GetEnvOrDefault(env, RegionVar, "us-central1"),
      GetEnvOrDefault(env, InstanceVar, ""),
      GetEnvOrDefault(env, DatabaseNameVar, "sticker_db"),
      GetEnvOrDefault(env, UserVar, "postgres"),
      GetEnvOrDefault(env, PasswordVar, ""),
      25, 5, 30)
  }

  /** With nothing set, every setting is its default. */
  lemma EmptyEnvironmentDefaults()
    ensures NewConfig(map[]) == Config("", "us-central1", "", "sticker_db", "postgres", "", 25, 5, 30)
  {
  }

  predicate NotColon(c: char) {
    c != ':'
  }

  /** The Cloud SQL instance connection name `project:region:instance`. */
  function ConnectionName(project: string, region: string, instance: string): string {
    project + ":" + region + ":" + instance
  }

  /** Project and region free of colons are read back from the connection name, so it names one instance. */
  lemma ConnectionNameSplits(project: string, region: string, instance: string)
    requires All(project, NotColon) && All(region, NotColon)
    ensures var s := ConnectionName(project, region, instance);
            var k := Span(s, NotColon);
            && s[..k] == project
            && s[k + 1..][..Span(s[k + 1..], NotColon)] == region
            && s[k + 1..][Span(s[k + 1..], NotColon) + 1..] == instance
  {
    var rest := region + ":" + instance;
    var s := ConnectionName(project, region, instance);
    assert s == project + (":" + rest);
    SpanExact(project, ":" + rest, NotColon);
    assert s[..|project|] == project && s[|project| + 1..] == rest;
    assert rest == region + (":" + instance);
    SpanExact(region, ":" + instance, NotColon);
    assert rest[..|region|] == region && rest[|region| + 1..] == instance;
  }

  lemma ConnectionNameInjective(p1: string, r1: string, i1: string, p2: string, r2: string, i2: string)
    requires All(p1, NotColon) && All(r1, NotColon) && All(p2, NotColon) && All(r2, NotColon)
    requires ConnectionName(p1, r1, i1) == ConnectionName(p2, r2, i2)
    ensures p1 == p2 && r1 == r2 && i1 == i2
  {
    ConnectionNameSplits(p1, r1, i1);
    ConnectionNameSplits(p2, r2, i2);
  }

  /** The connection string of the pool. */
  function Dsn(c: Config): string {
    "user=" + c.user + " password=" + c.password + " dbname=" + c.databaseName + " sslmode=disable"
  }

  /** Go's conversion of an `int` to `int32`: the low 32 bits, read as two's complement. */
  function Int32(x: int): (r: int)
    ensures -0x8000_0000 <= r < 0x8000_0000
    ensures (r - x) % 0x1_0000_0000 == 0
    ensures -0x8000_0000 <= x < 0x8000_0000 ==> r == x
  {
    (x + 0x8000_0000) % 0x1_0000_0000 - 0x8000_0000
  }

  /** NewClient: the required settings are checked before anything is dialled; then each connection step may fail. */
  function NewClient(c: Config, faults: ConnectFaults): (r: Result<Client, string>)
    ensures c.projectId == "" || c.instanceId == "" ==> r == Err(RequiredMessage)
    ensures r.Ok? <==>
              && c.projectId != "" && c.instanceId != ""
              && faults.dialer.None? && faults.parseDsn.None? && faults.pool.None? && faults.ping.None?
    ensures r.Ok? ==> r.value.instanceConnectionName == ConnectionName(c.projectId, c.region, c.instanceId)
    ensures r.Ok? ==> r.value.maxConns == Int32(c.maxOpenConns) && r.value.minConns == Int32(c.maxIdleConns)
    ensures r.Ok? ==> r.value.maxConnLifetimeMinutes == c.connMaxLifetime && r.value.dsn == Dsn(c)
  {
    if c.projectId == "" || c.instanceId == "" then Err(RequiredMessage)
    else if faults.dialer.Some? then Err("failed to create Cloud SQL dialer: " + faults.dialer.value)
    else if faults.parseDsn.Some? then Err("failed to parse connection string: " + faults.parseDsn.value)
    else if faults.pool.Some? then Err("failed to create connection pool: " + faults.pool.value)
    else if faults.ping.Some? then Err("failed to ping database: " + faults.ping.value)
    else Ok(Client(ConnectionName(c.projectId, c.region, c.instanceId), Dsn(c),
                   Int32(c.maxOpenConns), Int32(c.maxIdleConns), c.connMaxLifetime))
  }

  /** Without a project or an instance in the environment, no client is made, whatever the network would do. */
  lemma MissingSettingsFail(env: Env, faults: ConnectFaults)
    requires Getenv(env, ProjectVar) == "" || Getenv(env, InstanceVar) == ""
    ensures NewClient(NewConfig(env), faults) == Err(RequiredMessage)
  {
  }

  /** A client made from the environment gets the pool limits 25 and 5 and a 30-minute lifetime. */
  lemma PoolLimits(env: Env, faults: ConnectFaults)
    requires NewClient(NewConfig(env), faults).Ok?
    ensures var cl := NewClient(NewConfig(env), faults).value;
            cl.maxConns == 25 && cl.minConns == 5 && cl.maxConnLifetimeMinutes == 30
  {
  }
}
