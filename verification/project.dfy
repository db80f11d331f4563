/** `deploy_kit/gcp_project.py`: the APIs `ensure_project_and_apis` requires. */
module Project {
  import Order
  import Config

  const BaseApis: seq<string> := ["run.googleapis.com", "artifactregistry.googleapis.com", "secretmanager.googleapis.com"]
  const BigqueryApis: seq<string> := ["bigquery.googleapis.com"]
  const SqlApis: seq<string> := ["sqladmin.googleapis.com"]
  const GcsApis: seq<string> := ["storage.googleapis.com"]
  const FirebaseApis: seq<string> := ["firebase.googleapis.com", "firebaserules.googleapis.com"]

  /** The list accumulated from the base APIs and the enabled toggles. */
  function AccumulatedApis(cfg: Config.DeployConfig): seq<string> {
    BaseApis
    + (if cfg.enableBigquery then BigqueryApis else [])
    + (if cfg.enableCloudSql then SqlApis else [])
    + (if cfg.enableGcs then GcsApis else [])
    + (if cfg.enableFirebase then FirebaseApis else [])
  }

  /** `sorted(set(apis))`. */
  function RequiredApis(cfg: Config.DeployConfig): (r: seq<string>)
    ensures Order.StrictlySorted(r)
    ensures forall a :: a in r <==> a in AccumulatedApis(cfg)
  {
    Order.SortedUnique(AccumulatedApis(cfg))
  }

  /** Membership in the accumulated list, toggle by toggle. */
  lemma AccumulatedMembers(cfg: Config.DeployConfig, a: string)
    ensures a in AccumulatedApis(cfg) <==>
      a in BaseApis
      || (cfg.enableBigquery && a in BigqueryApis)
      || (cfg.enableCloudSql && a in SqlApis)
      || (cfg.enableGcs && a in GcsApis)
      || (cfg.enableFirebase && a in FirebaseApis)
  {
  }

  /** The base APIs are always required. */
  lemma BaseAlwaysRequired(cfg: Config.DeployConfig)
    ensures forall a :: a in BaseApis ==> a in RequiredApis(cfg)
  {
    forall a | a in BaseApis ensures a in RequiredApis(cfg) {
      AccumulatedMembers(cfg, a);
    }
  }

  /** Each optional API is required exactly when its toggle is set. */
  lemma OptionalByToggle(cfg: Config.DeployConfig)
    ensures "bigquery.googleapis.com" in RequiredApis(cfg) <==> cfg.enableBigquery
    ensures "sqladmin.googleapis.com" in RequiredApis(cfg) <==> cfg.enableCloudSql
    ensures "storage.googleapis.com" in RequiredApis(cfg) <==> cfg.enableGcs
    ensures "firebase.googleapis.com" in RequiredApis(cfg) <==> cfg.enableFirebase
    ensures "firebaserules.googleapis.com" in RequiredApis(cfg) <==> cfg.enableFirebase
  {
    AccumulatedMembers(cfg, "bigquery.googleapis.com");
    AccumulatedMembers(cfg, "sqladmin.googleapis.com");
    AccumulatedMembers(cfg, "storage.googleapis.com");
    AccumulatedMembers(cfg, "firebase.googleapis.com");
    AccumulatedMembers(cfg, "firebaserules.googleapis.com");
  }

  /** Nothing outside the five lists is ever required. */
  lemma OnlyKnownApis(cfg: Config.DeployConfig, a: string)
    requires a in RequiredApis(cfg)
    ensures a in BaseApis || a in BigqueryApis || a in SqlApis || a in GcsApis || a in FirebaseApis
  {
    AccumulatedMembers(cfg, a);
  }
}
