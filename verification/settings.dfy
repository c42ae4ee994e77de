/** The console's persisted configuration: per-environment credentials with
    their cluster addresses, the list of known environments, and the
    environment and cluster a command targets by default. */
module Settings {

  /** Credentials of one environment and its clusters (cluster id to base URL). */
  datatype EnvSettings = EnvSettings(username: string, password: string, clusters: map<string, string>)

  /** A fresh environment: user "admin", no password, one cluster "cn" on localhost. */
  const DefaultEnv := EnvSettings("admin", "", map["cn" := "http://localhost:8080"])

  /** The whole configuration as a value. */
  datatype SettingsData = SettingsData(
    envList: set<string>,
    defaultEnv: string,
    defaultCluster: string,
    credentials: map<string, EnvSettings>)

  /** The configuration used when no settings file exists. Its credentials are
      keyed by "cn", which is a cluster id, not the default environment "test". */
  const DefaultSettings := SettingsData({"test"}, "test", "cn", map["cn" := DefaultEnv])

  /** Every cluster id configured in some environment. */
  function ClustersOf(credentials: map<string, EnvSettings>): set<string> {
    set e, c | e in credentials && c in credentials[e].clusters :: c
  }

  lemma ClustersOfMember(credentials: map<string, EnvSettings>, c: string)
    ensures c in ClustersOf(credentials) <==> exists e :: e in credentials && c in credentials[e].clusters
  {
  }

  /** No environment, no cluster. */
  lemma ClustersOfEmpty()
    ensures ClustersOf(map[]) == {}
  {
  }

  /** The default environment of the default configuration has no credentials,
      so every command that reads them fails on a fresh installation. */
  lemma DefaultEnvHasNoCredentials()
    ensures DefaultSettings.defaultEnv in DefaultSettings.envList
    ensures DefaultSettings.defaultEnv !in DefaultSettings.credentials
    ensures DefaultSettings.credentials.Keys == {"cn"}
    ensures ClustersOf(DefaultSettings.credentials) == {"cn"}
  {
    assert "cn" in DefaultSettings.credentials["cn"].clusters;
  }

  class Settings {
    var envList: set<string>
    var defaultEnv: string
    var defaultCluster: string
    var credentials: map<string, EnvSettings>

    /** The configuration this object holds. */
    function Data(): SettingsData
      reads this
    {
      SettingsData(envList, defaultEnv, defaultCluster, credentials)
    }

    /** Settings built from a parsed file, or from the defaults. */
    constructor FromData(d: SettingsData)
      ensures Data() == d
    {
      envList := d.envList;
      defaultEnv := d.defaultEnv;
      defaultCluster := d.defaultCluster;
      credentials := d.credentials;
    }

    /** Collects the cluster ids of all environments into one set, visiting
        each environment and each of its clusters once. Changes nothing. */
    method ClusterList() returns (clusters: set<string>)
      ensures forall c :: c in clusters <==> exists e :: e in credentials && c in credentials[e].clusters
      ensures credentials == map[] ==> clusters == {}
      ensures clusters == ClustersOf(credentials)
    {
      clusters := {};
      var envs := credentials.Keys;
      while envs != {}
        invariant envs <= credentials.Keys
        invariant forall c :: c in clusters <==>
          exists e :: e in credentials && e !in envs && c in credentials[e].clusters
        decreases |envs|
      {
        var env :| env in envs;
        var names := credentials[env].clusters.Keys;
        while names != {}
          invariant names <= credentials[env].clusters.Keys
          invariant forall c :: c in clusters <==>
            (exists e :: e in credentials && e !in envs && c in credentials[e].clusters)
            || (c in credentials[env].clusters && c !in names)
          decreases |names|
        {
          var c :| c in names;
          clusters := clusters + {c};
          names := names - {c};
        }
        envs := envs - {env};
      }
      forall c | c in ClustersOf(credentials) ensures c in clusters {
        ClustersOfMember(credentials, c);
      }
    }
  }
}
