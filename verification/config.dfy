/** `deploy_kit/config.py`: the deployment configuration read from the process
    environment, the boolean toggle parser, and the `.env` file loading order.
    The environment is a map from variable names to values. */
module Config {
  import opened Wrappers
  import opened Text
  import Order
  import Split

  type Env = map<string, string>

  /** Python's `os.getenv(name)`. */
  function GetEnv(env: Env, name: string): (r: Option<string>)
    ensures r.Some? <==> name in env
    ensures r.Some? ==> r.value == env[name]
  {
    if name in env then Some(env[name]) else None
  }

  // ---------------------------------------------------------------------
  // .env files
  // ---------------------------------------------------------------------

  const EnvFilesDefaultOrder: seq<string> := [".env", ".env.infra", ".env.secrets"]

  /** A parsed `.env` file: each key maps to its value, or to `None` for a key
      written without "=". */
  type EnvFile = map<string, Option<string>>

  /** The value a file assigns to `k`, if it assigns one. */
  function Assigned(file: EnvFile, k: string): Option<string> {
    if k in file then file[k] else None
  }

  /** `load_dotenv(path, override=True)`: every key the file gives a value
      overwrites the environment; keys without a value are left alone. */
  function LoadDotenv(env: Env, file: EnvFile): (r: Env)
    ensures forall k :: k in r <==> k in env || Assigned(file, k).Some?
    ensures forall k :: k in r ==> r[k] == (if Assigned(file, k).Some? then Assigned(file, k).value else env[k])
  {
    env + map k | k in file && file[k].Some? :: file[k].value
  }

  /** The file names `load_env_files` walks: the given list, or the default
      order when it is absent or empty. */
  function FileOrder(files: Option<seq<string>>): (order: seq<string>)
    ensures files.Some? && files.value != [] ==> order == files.value
    ensures files.None? || files.value == [] ==> order == EnvFilesDefaultOrder
  {
    if files.Some? && files.value != [] then files.value else EnvFilesDefaultOrder
  }

  /** Loading each name of `order` in turn, skipping names with no file in `fs`. */
  function LoadInOrder(env: Env, order: seq<string>, fs: map<string, EnvFile>): Env
    decreases |order|
  {
    if order == [] then env
    else
      var next := if order[0] in fs then LoadDotenv(env, fs[order[0]]) else env;
      LoadInOrder(next, order[1..], fs)
  }

  /** `load_env_files(base_dir, files)` with the directory's files given as
      parsed contents; a name absent from `fs` is a missing file. */
  function LoadEnvFiles(env: Env, files: Option<seq<string>>, fs: map<string, EnvFile>): (r: Env)
    ensures forall k :: GetEnv(r, k) == Winner(env, FileOrder(files), fs, k)
  {
    LaterFilesWinAll(env, FileOrder(files), fs);
    LoadInOrder(env, FileOrder(files), fs)
  }

  /** Reference meaning of the loading order: the value of `k` comes from the
      LAST existing file in `order` that assigns it, else from the environment. */
  function Winner(env: Env, order: seq<string>, fs: map<string, EnvFile>, k: string): Option<string>
    decreases |order|
  {
    if order == [] then GetEnv(env, k)
    else
      var last := order[|order| - 1];
      if last in fs && Assigned(fs[last], k).Some? then Assigned(fs[last], k)
      else Winner(env, order[..|order| - 1], fs, k)
  }

  lemma {:induction false} LoadInOrderSnoc(env: Env, order: seq<string>, x: string, fs: map<string, EnvFile>)
    ensures LoadInOrder(env, order + [x], fs)
         == (var e := LoadInOrder(env, order, fs); if x in fs then LoadDotenv(e, fs[x]) else e)
    decreases |order|
  {
    if order != [] {
      var next := if order[0] in fs then LoadDotenv(env, fs[order[0]]) else env;
      assert (order + [x])[1..] == order[1..] + [x];
      LoadInOrderSnoc(next, order[1..], x, fs);
    }
  }

  /** Later files win: after loading, every variable holds the value of the last
      existing file that assigns it, or its original value when none does. */
  lemma {:induction false} LaterFilesWin(env: Env, order: seq<string>, fs: map<string, EnvFile>, k: string)
    ensures GetEnv(LoadInOrder(env, order, fs), k) == Winner(env, order, fs, k)
    decreases |order|
  {
    if order != [] {
      var init := order[..|order| - 1];
      var last := order[|order| - 1];
      assert order == init + [last];
      LoadInOrderSnoc(env, init, last, fs);
      LaterFilesWin(env, init, fs, k);
    }
  }

  lemma LaterFilesWinAll(env: Env, order: seq<string>, fs: map<string, EnvFile>)
    ensures forall k :: GetEnv(LoadInOrder(env, order, fs), k) == Winner(env, order, fs, k)
  {
    forall k ensures GetEnv(LoadInOrder(env, order, fs), k) == Winner(env, order, fs, k) {
      LaterFilesWin(env, order, fs, k);
    }
  }

  // ---------------------------------------------------------------------
  // Toggles
  // ---------------------------------------------------------------------

  const TrueWords: set<string> := {"1", "true", "yes", "y"}

  /** `_get_bool(name, default)`: no stripping, and "on" is not a true word. */
  function GetBool(env: Env, name: string, default: bool): (b: bool)
    ensures name !in env ==> b == default
    ensures name in env ==> (b <==> Lower(env[name]) in TrueWords)
  {
    match GetEnv(env, name)
    case None => default
    case Some(raw) => Lower(raw) in TrueWords
  }

  // ---------------------------------------------------------------------
  // DeployConfig
  // ---------------------------------------------------------------------

  datatype DeployConfig = DeployConfig(
    gcpProjectId: string,
    gcpRegion: string,
    deploySaEmail: string,
    artifactRegistryRepo: string,
    backendImageName: Option<string>,
    frontendImageName: Option<string>,
    enableBigquery: bool,
    enableCloudSql: bool,
    enableGcs: bool,
    enableFirebase: bool,
    enableSecretManager: bool,
    deployBackend: bool,
    deployFrontend: bool,
    deployEtlJob: bool,
    configureSecrets: bool,
    bigqueryProjectId: Option<string>,
    bigqueryDatasetId: Option<string>,
    cloudSqlInstanceName: Option<string>,
    cloudSqlDbName: Option<string>,
    cloudSqlUser: Option<string>,
    gcsBucketName: Option<string>,
    gcsPrefix: Option<string>,
    firebaseProjectId: Option<string>,
    firebaseHostingSite: Option<string>,
    secretPrefix: string)

  /** The dataclass constructor with only the four required fields given. */
  function DefaultConfig(project: string, region: string, saEmail: string, repo: string): DeployConfig {
    DeployConfig(project, region, saEmail, repo, None, None,
                 false, false, false, false, true,
                 true, true, false, true,
                 None, None, None, None, None, None, None, None, None, "")
  }

  const RequiredVars: seq<string> :=
    ["GCP_PROJECT_ID", "GCP_REGION", "DEPLOY_SERVICE_ACCOUNT_EMAIL", "ARTIFACT_REGISTRY_REPO"]

  /** A required variable that is unset or empty counts as missing. */
  predicate IsMissing(env: Env, name: string) {
    name !in env || env[name] == ""
  }

  /** The `missing` list `from_env` accumulates, in the order it asks. */
  function MissingVars(env: Env, names: seq<string>): (ms: seq<string>)
    ensures forall n :: n in ms <==> n in names && IsMissing(env, n)
  {
    if names == [] then []
    else (if IsMissing(env, names[0]) then [names[0]] else []) + MissingVars(env, names[1..])
  }

  /** The `ValueError` `from_env` raises: the missing names, sorted and deduplicated. */
  datatype ConfigError = MissingRequired(names: seq<string>)

  function ErrorMessage(e: ConfigError): string {
    "필수 환경변수가 누락되었습니다: " + Split.Join(e.names, ", ")
  }

  /** `req(name)`: the value, or "" when unset or empty. */
  function Req(env: Env, name: string): string {
    if IsMissing(env, name) then "" else env[name]
  }

  /** The dataclass `from_env` builds before the missing-variable check. */
  function ReadConfig(env: Env): (c: DeployConfig)
    ensures c.gcpProjectId == Req(env, "GCP_PROJECT_ID") && c.gcpRegion == Req(env, "GCP_REGION")
    ensures c.deploySaEmail == Req(env, "DEPLOY_SERVICE_ACCOUNT_EMAIL")
    ensures c.artifactRegistryRepo == Req(env, "ARTIFACT_REGISTRY_REPO")
    ensures c.backendImageName == GetEnv(env, "BACKEND_IMAGE_NAME")
    ensures c.frontendImageName == GetEnv(env, "FRONTEND_IMAGE_NAME")
    ensures c.enableBigquery == GetBool(env, "ENABLE_BIGQUERY", false)
    ensures c.enableCloudSql == GetBool(env, "ENABLE_CLOUD_SQL", false)
    ensures c.enableGcs == GetBool(env, "ENABLE_GCS", false)
    ensures c.enableFirebase == GetBool(env, "ENABLE_FIREBASE", false)
    ensures c.enableSecretManager == GetBool(env, "ENABLE_SECRET_MANAGER", true)
    ensures c.deployBackend == GetBool(env, "DEPLOY_BACKEND", true)
    ensures c.deployFrontend == GetBool(env, "DEPLOY_FRONTEND", true)
    ensures c.deployEtlJob == GetBool(env, "DEPLOY_ETL_JOB", false)
    ensures c.configureSecrets == GetBool(env, "CONFIGURE_SECRETS", true)
    ensures c.bigqueryProjectId == GetEnv(env, "BIGQUERY_PROJECT_ID")
    ensures c.bigqueryDatasetId == GetEnv(env, "BIGQUERY_DATASET_ID")
    ensures c.cloudSqlInstanceName == GetEnv(env, "CLOUD_SQL_INSTANCE_NAME")
    ensures c.cloudSqlDbName == GetEnv(env, "CLOUD_SQL_DB_NAME")
    ensures c.cloudSqlUser == GetEnv(env, "CLOUD_SQL_USER")
    ensures c.gcsBucketName == GetEnv(env, "GCS_BUCKET_NAME")
    ensures c.gcsPrefix == GetEnv(env, "GCS_PREFIX")
    ensures c.firebaseProjectId == GetEnv(env, "FIREBASE_PROJECT_ID")
    ensures c.firebaseHostingSite == GetEnv(env, "FIREBASE_HOSTING_SITE")
    ensures c.secretPrefix == (if "SECRET_PREFIX" in env then env["SECRET_PREFIX"] else "")
  {
    DeployConfig(
      Req(env, "GCP_PROJECT_ID"),
      Req(env, "GCP_REGION"),
      Req(env, "DEPLOY_SERVICE_ACCOUNT_EMAIL"),
      Req(env, "ARTIFACT_REGISTRY_REPO"),
      GetEnv(env, "BACKEND_IMAGE_NAME"),
      GetEnv(env, "FRONTEND_IMAGE_NAME"),
      GetBool(env, "ENABLE_BIGQUERY", false),
      GetBool(env, "ENABLE_CLOUD_SQL", false),
      GetBool(env, "ENABLE_GCS", false),
      GetBool(env, "ENABLE_FIREBASE", false),
      GetBool(env, "ENABLE_SECRET_MANAGER", true),
      GetBool(env, "DEPLOY_BACKEND", true),
      GetBool(env, "DEPLOY_FRONTEND", true),
      GetBool(env, "DEPLOY_ETL_JOB", false),
      GetBool(env, "CONFIGURE_SECRETS", true),
      GetEnv(env, "BIGQUERY_PROJECT_ID"),
      GetEnv(env, "BIGQUERY_DATASET_ID"),
      GetEnv(env, "CLOUD_SQL_INSTANCE_NAME"),
      GetEnv(env, "CLOUD_SQL_DB_NAME"),
      GetEnv(env, "CLOUD_SQL_USER"),
      GetEnv(env, "GCS_BUCKET_NAME"),
      GetEnv(env, "GCS_PREFIX"),
      GetEnv(env, "FIREBASE_PROJECT_ID"),
      GetEnv(env, "FIREBASE_HOSTING_SITE"),
      GetEnv(env, "SECRET_PREFIX").GetOr(""))
  }

  /** The BigQuery default: an enabled BigQuery without a (non-empty) project
      uses the GCP project. */
  function BigqueryDefault(cfg: DeployConfig): (c: DeployConfig)
    ensures c == cfg.(bigqueryProjectId := c.bigqueryProjectId)
  {
    if cfg.enableBigquery && (cfg.bigqueryProjectId.None? || cfg.bigqueryProjectId.value == "") then
      cfg.(bigqueryProjectId := Some(cfg.gcpProjectId))
    else
      cfg
  }

  /** `DeployConfig.from_env()` over the environment `env`. */
  function FromEnv(env: Env): (r: Result<DeployConfig, ConfigError>)
    ensures r.Failure? <==> exists n :: n in RequiredVars && IsMissing(env, n)
    ensures r.Failure? ==> Order.StrictlySorted(r.error.names)
    ensures r.Failure? ==> forall n :: n in r.error.names <==> n in RequiredVars && IsMissing(env, n)
    ensures r.Success? ==> var c := r.value;
      && c.gcpProjectId == Req(env, "GCP_PROJECT_ID") && c.gcpRegion == Req(env, "GCP_REGION")
      && c.deploySaEmail == Req(env, "DEPLOY_SERVICE_ACCOUNT_EMAIL")
      && c.artifactRegistryRepo == Req(env, "ARTIFACT_REGISTRY_REPO")
  {
    var missing := MissingVars(env, RequiredVars);
    if missing != [] then
      assert missing[0] in missing;
      Failure(MissingRequired(Order.SortedUnique(missing)))
    else
      Success(BigqueryDefault(ReadConfig(env)))
  }

  /** The BigQuery project falls back to the GCP project exactly when BigQuery
      is enabled and no (non-empty) BigQuery project is given. */
  lemma BigqueryFallback(env: Env)
    requires FromEnv(env).Success?
    ensures var c := FromEnv(env).value;
      && ((c.enableBigquery && IsMissing(env, "BIGQUERY_PROJECT_ID")) ==>
            c.bigqueryProjectId == Some(env["GCP_PROJECT_ID"]))
      && (!(c.enableBigquery && IsMissing(env, "BIGQUERY_PROJECT_ID")) ==>
            c.bigqueryProjectId == GetEnv(env, "BIGQUERY_PROJECT_ID"))
  {
  }

  /** None of the variables `from_env` reads besides the four required ones is set. */
  predicate OptionalUnset(env: Env) {
    && "BACKEND_IMAGE_NAME" !in env && "FRONTEND_IMAGE_NAME" !in env
    && "ENABLE_BIGQUERY" !in env && "ENABLE_CLOUD_SQL" !in env && "ENABLE_GCS" !in env
    && "ENABLE_FIREBASE" !in env && "ENABLE_SECRET_MANAGER" !in env
    && "DEPLOY_BACKEND" !in env && "DEPLOY_FRONTEND" !in env && "DEPLOY_ETL_JOB" !in env
    && "CONFIGURE_SECRETS" !in env && "BIGQUERY_PROJECT_ID" !in env
    && "BIGQUERY_DATASET_ID" !in env && "CLOUD_SQL_INSTANCE_NAME" !in env
    && "CLOUD_SQL_DB_NAME" !in env && "CLOUD_SQL_USER" !in env
    && "GCS_BUCKET_NAME" !in env && "GCS_PREFIX" !in env
    && "FIREBASE_PROJECT_ID" !in env && "FIREBASE_HOSTING_SITE" !in env
    && "SECRET_PREFIX" !in env
  }

  /** Each variable left unset gives its field the dataclass default, whatever
      the other variables hold; only the BigQuery project may instead fall
      back to the GCP project. */
  lemma UnsetFieldsDefault(env: Env)
    requires FromEnv(env).Success?
    ensures var c := FromEnv(env).value;
      var d := DefaultConfig(c.gcpProjectId, c.gcpRegion, c.deploySaEmail, c.artifactRegistryRepo);
      && ("BACKEND_IMAGE_NAME" !in env ==> c.backendImageName == d.backendImageName)
      && ("FRONTEND_IMAGE_NAME" !in env ==> c.frontendImageName == d.frontendImageName)
      && ("ENABLE_BIGQUERY" !in env ==> c.enableBigquery == d.enableBigquery)
      && ("ENABLE_CLOUD_SQL" !in env ==> c.enableCloudSql == d.enableCloudSql)
      && ("ENABLE_GCS" !in env ==> c.enableGcs == d.enableGcs)
      && ("ENABLE_FIREBASE" !in env ==> c.enableFirebase == d.enableFirebase)
      && ("ENABLE_SECRET_MANAGER" !in env ==> c.enableSecretManager == d.enableSecretManager)
      && ("DEPLOY_BACKEND" !in env ==> c.deployBackend == d.deployBackend)
      && ("DEPLOY_FRONTEND" !in env ==> c.deployFrontend == d.deployFrontend)
      && ("DEPLOY_ETL_JOB" !in env ==> c.deployEtlJob == d.deployEtlJob)
      && ("CONFIGURE_SECRETS" !in env ==> c.configureSecrets == d.configureSecrets)
      && ("BIGQUERY_PROJECT_ID" !in env && !c.enableBigquery ==> c.bigqueryProjectId == d.bigqueryProjectId)
      && ("BIGQUERY_DATASET_ID" !in env ==> c.bigqueryDatasetId == d.bigqueryDatasetId)
      && ("CLOUD_SQL_INSTANCE_NAME" !in env ==> c.cloudSqlInstanceName == d.cloudSqlInstanceName)
      && ("CLOUD_SQL_DB_NAME" !in env ==> c.cloudSqlDbName == d.cloudSqlDbName)
      && ("CLOUD_SQL_USER" !in env ==> c.cloudSqlUser == d.cloudSqlUser)
      && ("GCS_BUCKET_NAME" !in env ==> c.gcsBucketName == d.gcsBucketName)
      && ("GCS_PREFIX" !in env ==> c.gcsPrefix == d.gcsPrefix)
      && ("FIREBASE_PROJECT_ID" !in env ==> c.firebaseProjectId == d.firebaseProjectId)
      && ("FIREBASE_HOSTING_SITE" !in env ==> c.firebaseHostingSite == d.firebaseHostingSite)
      && ("SECRET_PREFIX" !in env ==> c.secretPrefix == d.secretPrefix)
  {
  }

  /** With every toggle and optional variable unset, `from_env` yields exactly
      the dataclass defaults: the toggles on by default are the secret manager,
      backend, frontend and secret configuration, and the prefix is "". */
  lemma FromEnvDefaults(env: Env)
    requires forall n :: n in RequiredVars ==> !IsMissing(env, n)
    requires OptionalUnset(env)
    ensures FromEnv(env) == Success(DefaultConfig(Req(env, "GCP_PROJECT_ID"), Req(env, "GCP_REGION"),
                                                  Req(env, "DEPLOY_SERVICE_ACCOUNT_EMAIL"),
                                                  Req(env, "ARTIFACT_REGISTRY_REPO")))
  {
    assert FromEnv(env).Success?;
  }
}
