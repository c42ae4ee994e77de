/** The command context: the settings (loaded lazily), the choice of target
    clusters, and a pool that keeps one client per environment and cluster
    for the rest of the process. */
module Context {
  import opened Base
  import opened Settings
  import opened Client

  /** The clusters a command names: every configured one in all-mode, else the
      explicit list when it is non-empty, else the default cluster alone. */
  function Requested(allMode: bool, clusters: seq<string>, defaultCluster: string, configured: set<string>): set<string> {
    if allMode then configured
    else if |clusters| > 0 then set i | 0 <= i < |clusters| :: clusters[i]
    else {defaultCluster}
  }

  /** The clusters a command runs on: the requested ones that are configured. */
  function Selected(allMode: bool, clusters: seq<string>, defaultCluster: string, configured: set<string>): (r: set<string>)
    ensures r <= configured
    ensures allMode ==> r == configured
    ensures !allMode && |clusters| > 0 ==> forall c :: c in r <==> c in configured && c in clusters
    ensures !allMode && |clusters| == 0 ==> r == configured * {defaultCluster}
  {
    configured * Requested(allMode, clusters, defaultCluster, configured)
  }

  /** Without all-mode and without a list, an unconfigured default cluster selects nothing. */
  lemma UnconfiguredDefaultSelectsNothing(clusters: seq<string>, defaultCluster: string, configured: set<string>)
    requires |clusters| == 0 && defaultCluster !in configured
    ensures Selected(false, clusters, defaultCluster, configured) == {}
  {
  }

  /** The pool key of a cluster of an environment: "env:cluster". */
  function PoolKey(env: string, cluster: string): string {
    env + ":" + cluster
  }

  /** Within one environment, distinct clusters have distinct pool keys. */
  lemma PoolKeyInjective(env: string, c1: string, c2: string)
    ensures PoolKey(env, c1) == PoolKey(env, c2) <==> c1 == c2
  {
    if PoolKey(env, c1) == PoolKey(env, c2) {
      assert c1 == PoolKey(env, c1)[|env| + 1..];
      assert c2 == PoolKey(env, c2)[|env| + 1..];
    }
  }

  /** Across environments the key is ambiguous: an environment id holding ':'
      shares keys with another environment. */
  lemma PoolKeyCollision()
    ensures PoolKey("a:b", "c") == PoolKey("a", "b:c")
  {
  }

  /** Every entry of old is still in pool with the same client. */
  ghost predicate Grows(old_: map<string, AdminClient>, pool: map<string, AdminClient>) {
    forall k :: k in old_ ==> k in pool && pool[k] == old_[k]
  }

  /** client is as the pool makes it for a cluster of an environment: on
      that cluster's URL, with the environment's user name and password, no
      cookies and nothing sent yet. */
  predicate NewClient(client: AdminClient, credential: EnvSettings, cluster: string)
    reads client
  {
    && cluster in credential.clusters
    && client.baseUrl == credential.clusters[cluster]
    && client.username == credential.username && client.password == credential.password
    && client.jar == map[] && client.sent == []
  }

  class XxlContext {
    /** The settings file's content, None when the file does not exist. */
    const stored: Option<SettingsData>
    var settings: Settings?
    var clientPool: map<string, AdminClient>

    constructor (stored: Option<SettingsData>)
      ensures this.stored == stored && settings == null && clientPool == map[]
      ensures Separate(clientPool)
    {
      this.stored := stored;
      settings := null;
      clientPool := map[];
    }

    /** Loads the settings unless they are already loaded: the file's content,
        or the defaults when there is no file. */
    method Load()
      modifies this`settings
      ensures old(settings) != null ==> settings == old(settings)
      ensures old(settings) == null ==>
        settings != null && fresh(settings) && settings.Data() == stored.GetOr(DefaultSettings)
    {
      if settings != null {
        return;
      }
      settings := new Settings.FromData(stored.GetOr(DefaultSettings));
    }

    /** The pooled client of a cluster of an environment: the cached one on a
        hit; on a miss a new client on that cluster's URL with the
        environment's credentials, which is stored and returned. */
    method GetClientForCluster(env: string, cluster: string) returns (client: AdminClient)
      requires settings != null
      requires PoolKey(env, cluster) in clientPool
        || (env in settings.credentials && cluster in settings.credentials[env].clusters)
      requires Separate(clientPool)
      modifies this`clientPool
      ensures PoolKey(env, cluster) in old(clientPool) ==>
        client == old(clientPool)[PoolKey(env, cluster)] && clientPool == old(clientPool)
      ensures PoolKey(env, cluster) !in old(clientPool) ==>
        fresh(client) && clientPool == old(clientPool)[PoolKey(env, cluster) := client]
        && NewClient(client, settings.credentials[env], cluster)
      ensures PoolKey(env, cluster) in clientPool && clientPool[PoolKey(env, cluster)] == client
      ensures Grows(old(clientPool), clientPool)
      ensures Separate(clientPool)
    {
      var key := PoolKey(env, cluster);
      if key in clientPool {
        return clientPool[key];
      }
      var credential := settings.credentials[env];
      var c := new AdminClient(credential.clusters[cluster], credential.username, credential.password);
      SeparateStore(clientPool, key, c);
      clientPool := clientPool[key := c];
      client := clientPool[key];
    }

    /** Walks the configured clusters of env and takes the pooled client of
        each one in chosen. */
    method PoolClients(env: string, chosen: set<string>) returns (result: map<string, AdminClient>)
      requires settings != null && env in settings.credentials
      requires chosen <= settings.credentials[env].clusters.Keys
      requires Separate(clientPool)
      modifies this`clientPool
      ensures result.Keys == chosen
      ensures Separate(clientPool) && Separate(result)
      ensures forall c :: c in result ==> PoolKey(env, c) in clientPool && clientPool[PoolKey(env, c)] == result[c]
      ensures forall c :: c in result && PoolKey(env, c) !in old(clientPool) ==>
        fresh(result[c]) && NewClient(result[c], settings.credentials[env], c)
      ensures forall k :: k in clientPool && k !in old(clientPool) ==> exists c :: c in result && k == PoolKey(env, c)
      ensures Grows(old(clientPool), clientPool)
    {
      var credential := settings.credentials[env];
      result := map[];
      var todo := credential.clusters.Keys;
      while todo != {}
        invariant todo <= credential.clusters.Keys
        invariant result.Keys == chosen - todo
        invariant forall c :: c in result ==> PoolKey(env, c) in clientPool && clientPool[PoolKey(env, c)] == result[c]
        invariant forall c :: c in result && PoolKey(env, c) !in old(clientPool) ==>
          fresh(result[c]) && NewClient(result[c], credential, c)
        invariant forall k :: k in clientPool && k !in old(clientPool) ==> exists c :: c in result && k == PoolKey(env, c)
        invariant Grows(old(clientPool), clientPool)
        invariant Separate(clientPool) && Separate(result)
        decreases |todo|
      {
        var cluster :| cluster in todo;
        if cluster in chosen {
          ghost var before := clientPool;
          forall c | PoolKey(env, c) == PoolKey(env, cluster) ensures c == cluster {
            PoolKeyInjective(env, c, cluster);
          }
          assert PoolKey(env, cluster) in before ==> PoolKey(env, cluster) in old(clientPool);
          var client := GetClientForCluster(env, cluster);
          forall c | c in result ensures PoolKey(env, c) in clientPool && clientPool[PoolKey(env, c)] == result[c] {
            assert PoolKey(env, c) in before;
          }
          forall c | c in result && c != cluster ensures result[c] != client {
            PoolKeyInjective(env, c, cluster);
            assert Apart(clientPool, PoolKey(env, c), PoolKey(env, cluster));
          }
          SeparateStore(result, cluster, client);
          result := result[cluster := client];
          forall k | k in clientPool && k !in old(clientPool) ensures exists c :: c in result && k == PoolKey(env, c) {
            if k !in before {
              assert k == PoolKey(env, cluster);
            }
          }
        }
        todo := todo - {cluster};
      }
    }

    /** The clients of the selected clusters of the default environment,
        loading the settings first if needed. None when the default
        environment has no credentials (a KeyError in the source). */
    method GetClients(allMode: bool, clusters: seq<string>) returns (clients: Option<map<string, AdminClient>>)
      requires Separate(clientPool)
      modifies this
      ensures settings != null
      ensures old(settings) != null ==> settings == old(settings)
      ensures old(settings) == null ==> fresh(settings) && settings.Data() == stored.GetOr(DefaultSettings)
      ensures clients.None? <==> settings.defaultEnv !in settings.credentials
      ensures clients.None? ==> clientPool == old(clientPool)
      ensures clients.Some? ==>
        var env := settings.defaultEnv;
        && clients.value.Keys == Selected(allMode, clusters, settings.defaultCluster, settings.credentials[env].clusters.Keys)
        && (forall c :: c in clients.value ==>
              PoolKey(env, c) in clientPool && clientPool[PoolKey(env, c)] == clients.value[c])
        && (forall c :: c in clients.value && PoolKey(env, c) !in old(clientPool) ==>
              fresh(clients.value[c]) && NewClient(clients.value[c], settings.credentials[env], c))
        && (forall k :: k in clientPool && k !in old(clientPool) ==>
              exists c :: c in clients.value && k == PoolKey(env, c))
      ensures Grows(old(clientPool), clientPool)
      ensures Separate(clientPool)
      ensures clients.Some? ==> Separate(clients.value)
    {
      if settings == null {
        Load();
      }
      var env := settings.defaultEnv;
      if env !in settings.credentials {
        return None;
      }
      var chosen := Selected(allMode, clusters, settings.defaultCluster, settings.credentials[env].clusters.Keys);
      var result := PoolClients(env, chosen);
      clients := Some(result);
    }
  }
}
