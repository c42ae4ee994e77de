/** The second command set, behind the `xxl` shell: it builds fresh clients
    on every command, configures environments with `configure_env`, labels
    job outcomes only OK or FAILED, and lists groups or jobs only after at
    least one client has logged in. Its `goto`, `add_cluster` and resolver
    are the ones of the Commands module. */
module Xxl {
  import opened Base
  import opened Settings
  import opened Client
  import opened Context
  import Commands

  // ---------------------------------------------------------------------
  // Clients

  /** The clients of the selected clusters of the default environment, each
      one new, on that cluster's URL with the environment's credentials.
      None when the default environment has no credentials (a KeyError in
      the source). Nothing is cached and the settings are not changed. */
  method XxlClients(s: Settings, allMode: bool, clusters: seq<string>) returns (clients: Option<map<string, AdminClient>>)
    ensures clients.None? <==> s.defaultEnv !in s.credentials
    ensures clients.Some? ==> var credential := s.credentials[s.defaultEnv];
      && clients.value.Keys == Selected(allMode, clusters, s.defaultCluster, credential.clusters.Keys)
      && (forall c :: c in clients.value ==>
            && fresh(clients.value[c])
            && clients.value[c].baseUrl == credential.clusters[c]
            && clients.value[c].username == credential.username
            && clients.value[c].password == credential.password
            && clients.value[c].jar == map[] && clients.value[c].sent == [])
      && Separate(clients.value)
  {
    if s.defaultEnv !in s.credentials {
      return None;
    }
    var credential := s.credentials[s.defaultEnv];
    var runtime := Requested(allMode, clusters, s.defaultCluster, credential.clusters.Keys);
    var result: map<string, AdminClient> := map[];
    var todo := credential.clusters.Keys;
    while todo != {}
      invariant todo <= credential.clusters.Keys
      invariant result.Keys == (credential.clusters.Keys - todo) * runtime
      invariant forall c :: c in result ==>
        && fresh(result[c])
        && result[c].baseUrl == credential.clusters[c]
        && result[c].username == credential.username
        && result[c].password == credential.password
        && result[c].jar == map[] && result[c].sent == []
      invariant Separate(result)
      decreases |todo|
    {
      var cluster :| cluster in todo;
      if cluster in runtime {
        var client := new AdminClient(credential.clusters[cluster], credential.username, credential.password);
        SeparateStore(result, cluster, client);
        result := result[cluster := client];
      }
      todo := todo - {cluster};
    }
    clients := Some(result);
  }

  // ---------------------------------------------------------------------
  // configure_env

  /** How `configure_env` ends. */
  datatype EnvConfig =
    | Configured(data: SettingsData)
    | NotLowerCase    // the id is refused: it has capitals
    | NoCredentials   // the id is listed without credentials: a KeyError

  /** The entry configure_env starts from: a fresh environment when env is
      not yet listed, else the existing one. */
  function ConfigureBase(d: SettingsData, env: string): EnvSettings
    requires env !in d.envList || env in d.credentials
  {
    if env !in d.envList then DefaultEnv else d.credentials[env]
  }

  /** The configuration after `configure_env`: an id with capitals is refused;
      otherwise the environment is listed and its user name and password are
      overwritten, even with empty strings. Its clusters are kept, or are the
      default cluster for a new environment. */
  function AfterConfigureEnv(d: SettingsData, env: string, username: string, password: string): (r: EnvConfig)
    ensures r == NotLowerCase <==> Lower(env) != env
    ensures r == NoCredentials <==> Lower(env) == env && env in d.envList && env !in d.credentials
    ensures r.Configured? ==>
      && r.data.envList == d.envList + {env}
      && r.data.defaultEnv == d.defaultEnv && r.data.defaultCluster == d.defaultCluster
      && r.data.credentials.Keys == d.credentials.Keys + {env}
      && (forall o :: o in d.credentials && o != env ==> r.data.credentials[o] == d.credentials[o])
      && r.data.credentials[env] == EnvSettings(username, password, ConfigureBase(d, env).clusters)
  {
    if Lower(env) != env then NotLowerCase
    else
      var creds := if env !in d.envList then d.credentials[env := DefaultEnv] else d.credentials;
      if env !in creds then NoCredentials
      else Configured(d.(envList := d.envList + {env},
                         credentials := creds[env := creds[env].(username := username, password := password)]))
  }

  /** On a fresh installation configure_env of the default environment
      fails: "test" is listed but has no credentials. */
  lemma ConfigureOnDefaultsFails(username: string, password: string)
    ensures AfterConfigureEnv(DefaultSettings, "test", username, password) == NoCredentials
  {
  }

  /** Unlike env-set, configure_env with an empty password clears the stored
      one: for a listed lower-case environment with a password, env-set
      without arguments keeps it and configure_env empties it. */
  lemma ConfigureClearsWhereEnvSetKeeps(d: SettingsData, env: string, username: string)
    requires env != "" && Lower(env) == env && env in d.envList && env in d.credentials
    requires d.credentials[env].password != ""
    ensures Commands.AfterEnvSet(d, env, username, "").Some?
    ensures Commands.AfterEnvSet(d, env, username, "").value.credentials[env].password == d.credentials[env].password
    ensures AfterConfigureEnv(d, env, username, "").Configured?
    ensures AfterConfigureEnv(d, env, username, "").data.credentials[env].password == ""
  {
    assert Commands.EnvSetTarget(d, env) == env;
  }

  /** `configure_env`: updates s in place; s is unchanged unless the outcome
      is Configured. */
  method ConfigureEnv(s: Settings, env: string, username: string, password: string) returns (outcome: EnvConfig)
    modifies s
    ensures outcome == AfterConfigureEnv(old(s.Data()), env, username, password)
    ensures s.Data() == if outcome.Configured? then outcome.data else old(s.Data())
  {
    if Lower(env) != env {
      return NotLowerCase;
    }
    if env !in s.envList {
      s.credentials := s.credentials[env := DefaultEnv];
    }
    s.envList := s.envList + {env};
    if env !in s.credentials {
      return NoCredentials;
    }
    s.credentials := s.credentials[env := s.credentials[env].(username := username, password := password)];
    outcome := Configured(s.Data());
  }

  // ---------------------------------------------------------------------
  // Job commands

  /** The label of one cluster: OK when the call returned true, else FAILED;
      there is no SKIPPED here. */
  function Label(ok: bool): (o: Commands.Outcome)
    ensures o != Commands.Skipped
    ensures o == Commands.Ok <==> ok
  {
    if ok then Commands.Ok else Commands.Failed
  }

  /** A cluster without a resolved job is FAILED here and SKIPPED in the
      Commands version; with a resolved job both label alike. */
  lemma UnresolvedFailsHere(matchId: int, reply: Reply)
    ensures matchId <= 0 ==>
      Label(MutationOk(matchId, reply)) == Commands.Failed
      && Commands.Classify(MutationOk(matchId, reply), matchId) == Commands.Skipped
    ensures matchId > 0 ==> Label(MutationOk(matchId, reply)) == Commands.Classify(MutationOk(matchId, reply), matchId)
  {
  }

  /** The shared body of run, disable and enable: resolve, send, label. */
  method ActOnJobs(op: Commands.Operation, clients: map<string, AdminClient>, order: seq<string>,
                   found: map<string, seq<Job>>, executor: string, answers: seq<string>, replies: map<string, Reply>)
    returns (matched: map<string, Commands.Match>, report: map<string, Commands.Outcome>)
    requires Commands.Enumerates(order, clients) && Separate(clients)
    requires clients.Keys <= found.Keys && clients.Keys <= replies.Keys
    requires Commands.AmbiguousCount(order, found) <= |answers|
    modifies clients.Values
    ensures Commands.ResolvedBy(matched, order, found, executor, answers)
    ensures matched.Keys == clients.Keys && report.Keys == clients.Keys
    ensures forall c :: c in report ==> report[c] == Label(MutationOk(matched[c].Id(), replies[c]))
    ensures forall c :: c in clients ==> clients[c].sent == old(clients[c].sent) + Commands.Issued(op, matched[c].Id())
  {
    var prompts;
    matched, prompts := Commands.ResolveJobs(order, found, executor, answers);
    Commands.EnumeratedKeys(order, clients, matched.Keys);
    var results := Commands.Dispatch(op, clients, order, Commands.Ids(matched), replies);
    report := map c | c in results :: Label(results[c]);
  }

  /** `job run`: triggers the resolved job on each cluster. */
  method RunJob(clients: map<string, AdminClient>, order: seq<string>, found: map<string, seq<Job>>,
                executor: string, answers: seq<string>, param: string, address: Option<string>,
                replies: map<string, Reply>)
    returns (matched: map<string, Commands.Match>, report: map<string, Commands.Outcome>)
    requires Commands.Enumerates(order, clients) && Separate(clients)
    requires clients.Keys <= found.Keys && clients.Keys <= replies.Keys
    requires Commands.AmbiguousCount(order, found) <= |answers|
    modifies clients.Values
    ensures Commands.ResolvedBy(matched, order, found, executor, answers)
    ensures matched.Keys == clients.Keys && report.Keys == clients.Keys
    ensures forall c :: c in report ==> report[c] == Label(MutationOk(matched[c].Id(), replies[c]))
    ensures forall c :: c in clients ==>
      clients[c].sent == old(clients[c].sent) + Commands.Issued(Commands.Trigger(Some(param), address), matched[c].Id())
  {
    matched, report := ActOnJobs(Commands.Trigger(Some(param), address), clients, order, found, executor, answers, replies);
  }

  /** `job disable`: stops the resolved job on each cluster. */
  method DisableJob(clients: map<string, AdminClient>, order: seq<string>, found: map<string, seq<Job>>,
                    executor: string, answers: seq<string>, replies: map<string, Reply>)
    returns (matched: map<string, Commands.Match>, report: map<string, Commands.Outcome>)
    requires Commands.Enumerates(order, clients) && Separate(clients)
    requires clients.Keys <= found.Keys && clients.Keys <= replies.Keys
    requires Commands.AmbiguousCount(order, found) <= |answers|
    modifies clients.Values
    ensures Commands.ResolvedBy(matched, order, found, executor, answers)
    ensures matched.Keys == clients.Keys && report.Keys == clients.Keys
    ensures forall c :: c in report ==> report[c] == Label(MutationOk(matched[c].Id(), replies[c]))
    ensures forall c :: c in clients ==> clients[c].sent == old(clients[c].sent) + Commands.Issued(Commands.Stop, matched[c].Id())
  {
    matched, report := ActOnJobs(Commands.Stop, clients, order, found, executor, answers, replies);
  }

  /** `job enable`: starts the resolved job on each cluster. */
  method EnableJob(clients: map<string, AdminClient>, order: seq<string>, found: map<string, seq<Job>>,
                   executor: string, answers: seq<string>, replies: map<string, Reply>)
    returns (matched: map<string, Commands.Match>, report: map<string, Commands.Outcome>)
    requires Commands.Enumerates(order, clients) && Separate(clients)
    requires clients.Keys <= found.Keys && clients.Keys <= replies.Keys
    requires Commands.AmbiguousCount(order, found) <= |answers|
    modifies clients.Values
    ensures Commands.ResolvedBy(matched, order, found, executor, answers)
    ensures matched.Keys == clients.Keys && report.Keys == clients.Keys
    ensures forall c :: c in report ==> report[c] == Label(MutationOk(matched[c].Id(), replies[c]))
    ensures forall c :: c in clients ==> clients[c].sent == old(clients[c].sent) + Commands.Issued(Commands.Start, matched[c].Id())
  {
    matched, report := ActOnJobs(Commands.Start, clients, order, found, executor, answers, replies);
  }

  // ---------------------------------------------------------------------
  // Listings behind the login gate

  /** Logs in the client of cluster c; no other client changes. */
  method LoginOne(clients: map<string, AdminClient>, c: string, input: LoginInput) returns (ok: bool)
    requires c in clients && Separate(clients)
    modifies clients[c]
    ensures ok <==> LoginSucceeds(old(clients[c].jar), clients[c].username, clients[c].password, input)
    ensures clients[c].jar == JarAfterLogin(old(clients[c].jar), clients[c].username, clients[c].password, input)
    ensures clients[c].sent == old(clients[c].sent) + LoginPosts(old(clients[c].jar), clients[c].username, clients[c].password, input)
    ensures forall d :: d in clients && d != c ==> clients[d].jar == old(clients[d].jar) && clients[d].sent == old(clients[d].sent)
  {
    var cookieFile;
    ok, cookieFile := clients[c].Login(input);
    forall d | d in clients && d != c ensures clients[d].jar == old(clients[d].jar) && clients[d].sent == old(clients[d].sent) {
      assert Apart(clients, d, c);
    }
  }

  /** Every client of clients whose key is in done has logged in once
      since jars and logs were taken, and every other client is as it was. */
  ghost predicate LoggedIn(clients: map<string, AdminClient>, inputs: map<string, LoginInput>,
                           jars: map<string, Jar>, logs: map<string, seq<Request>>, done: set<string>)
    requires clients.Keys <= inputs.Keys && clients.Keys <= jars.Keys && clients.Keys <= logs.Keys
    reads clients.Values
  {
    forall c :: c in clients ==>
      if c in done then
        && clients[c].jar == JarAfterLogin(jars[c], clients[c].username, clients[c].password, inputs[c])
        && clients[c].sent == logs[c] + LoginPosts(jars[c], clients[c].username, clients[c].password, inputs[c])
      else clients[c].jar == jars[c] && clients[c].sent == logs[c]
  }

  /** Some client among the first i of order logs in successfully from the
      jar it had in jars. */
  ghost predicate SomeLoginBefore(clients: map<string, AdminClient>, order: seq<string>, inputs: map<string, LoginInput>,
                                  jars: map<string, Jar>, i: nat)
    requires i <= |order| && clients.Keys <= inputs.Keys && clients.Keys <= jars.Keys
    requires forall j :: 0 <= j < |order| ==> order[j] in clients
  {
    exists j :: 0 <= j < i &&
      LoginSucceeds(jars[order[j]], clients[order[j]].username, clients[order[j]].password, inputs[order[j]])
  }

  /** AnyLogin's step for the i-th client of order. */
  method LoginNext(clients: map<string, AdminClient>, order: seq<string>, inputs: map<string, LoginInput>, i: nat,
                   ghost jars: map<string, Jar>, ghost logs: map<string, seq<Request>>, ghost done: set<string>,
                   anyOk: bool)
    returns (anyOk': bool, ghost done': set<string>)
    requires Commands.Enumerates(order, clients) && Separate(clients) && i < |order|
    requires clients.Keys <= inputs.Keys && clients.Keys <= jars.Keys && clients.Keys <= logs.Keys
    requires anyOk == SomeLoginBefore(clients, order, inputs, jars, i)
    requires forall j :: 0 <= j < i ==> order[j] in done
    requires forall j :: i <= j < |order| ==> order[j] !in done
    requires LoggedIn(clients, inputs, jars, logs, done)
    modifies clients.Values
    ensures anyOk' == SomeLoginBefore(clients, order, inputs, jars, i + 1)
    ensures forall j :: 0 <= j < i + 1 ==> order[j] in done'
    ensures forall j :: i + 1 <= j < |order| ==> order[j] !in done'
    ensures LoggedIn(clients, inputs, jars, logs, done')
  {
    var c := order[i];
    assert c !in done && clients[c].jar == jars[c];
    SomeLoginStep(clients, order, inputs, jars, i);
    var ok := LoginOne(clients, c, inputs[c]);
    anyOk' := anyOk || ok;
    done' := done + {c};
    forall j | i + 1 <= j < |order| ensures order[j] !in done' {
      assert order[j] != c;
    }
  }

  /** One more client succeeds in logging in when the earlier ones did or
      this one does. */
  lemma SomeLoginStep(clients: map<string, AdminClient>, order: seq<string>, inputs: map<string, LoginInput>,
                      jars: map<string, Jar>, i: nat)
    requires i < |order| && clients.Keys <= inputs.Keys && clients.Keys <= jars.Keys
    requires forall j :: 0 <= j < |order| ==> order[j] in clients
    ensures SomeLoginBefore(clients, order, inputs, jars, i + 1) <==>
      SomeLoginBefore(clients, order, inputs, jars, i)
      || LoginSucceeds(jars[order[i]], clients[order[i]].username, clients[order[i]].password, inputs[order[i]])
  {
    if SomeLoginBefore(clients, order, inputs, jars, i + 1) && !SomeLoginBefore(clients, order, inputs, jars, i) {
      var j :| 0 <= j < i + 1 &&
        LoginSucceeds(jars[order[j]], clients[order[j]].username, clients[order[j]].password, inputs[order[j]]);
      assert j == i;
    }
  }

  /** Logs in every client (all of them, as the source gathers every login)
      and tells whether at least one login succeeded. */
  method AnyLogin(clients: map<string, AdminClient>, order: seq<string>, inputs: map<string, LoginInput>)
    returns (anyOk: bool)
    requires Commands.Enumerates(order, clients) && Separate(clients)
    requires clients.Keys <= inputs.Keys
    modifies clients.Values
    ensures anyOk <==> exists c :: c in clients && LoginSucceeds(old(clients[c].jar), clients[c].username, clients[c].password, inputs[c])
    ensures forall c :: c in clients ==>
      && clients[c].jar == JarAfterLogin(old(clients[c].jar), clients[c].username, clients[c].password, inputs[c])
      && clients[c].sent == old(clients[c].sent) + LoginPosts(old(clients[c].jar), clients[c].username, clients[c].password, inputs[c])
  {
    ghost var jars := map c | c in clients :: clients[c].jar;
    ghost var logs := map c | c in clients :: clients[c].sent;
    ghost var done: set<string> := {};
    anyOk := false;
    for i := 0 to |order|
      invariant anyOk == SomeLoginBefore(clients, order, inputs, jars, i)
      invariant forall j :: 0 <= j < i ==> order[j] in done
      invariant forall j :: i <= j < |order| ==> order[j] !in done
      invariant LoggedIn(clients, inputs, jars, logs, done)
    {
      anyOk, done := LoginNext(clients, order, inputs, i, jars, logs, done, anyOk);
    }
    if anyOk {
      ghost var j :| 0 <= j < |order| &&
        LoginSucceeds(jars[order[j]], clients[order[j]].username, clients[order[j]].password, inputs[order[j]]);
      assert order[j] in clients;
    } else {
      forall c | c in clients
        ensures !LoginSucceeds(jars[c], clients[c].username, clients[c].password, inputs[c])
      {
        var j :| 0 <= j < |order| && order[j] == c;
      }
    }
    forall c | c in clients ensures c in done {
      var j :| 0 <= j < |order| && order[j] == c;
    }
  }

  /** Every client of clients whose key is in done has sent post once since
      jars and logs were taken, and every other client is as it was; no jar
      changes. */
  ghost predicate Posted(clients: map<string, AdminClient>, jars: map<string, Jar>,
                         logs: map<string, seq<Request>>, post: Request, done: set<string>)
    requires clients.Keys <= jars.Keys && clients.Keys <= logs.Keys
    reads clients.Values
  {
    forall c :: c in clients ==>
      clients[c].jar == jars[c] && clients[c].sent == logs[c] + (if c in done then [post] else [])
  }

  /** The group listing every client posts for name. */
  function GroupListPost(name: string): Request {
    Post(GroupListPath, GroupForm(name, "", 0, 30))
  }

  /** The job listing every client posts for name in group. */
  function JobListPost(name: string, group: int): Request {
    Post(JobListPath, JobForm(name, "", group, -1, "", 0, 30))
  }

  /** Lists the groups matching name on every client, one after another:
      each client posts one group listing and keeps its cookies. */
  method GroupsOf(clients: map<string, AdminClient>, order: seq<string>, name: string,
                  replies: map<string, ListReply<Group>>)
    returns (groups: map<string, seq<Group>>)
    requires Commands.Enumerates(order, clients) && Separate(clients) && clients.Keys <= replies.Keys
    modifies clients.Values
    ensures groups.Keys == clients.Keys
    ensures forall c :: c in groups ==> groups[c] == if replies[c].status == 200 then replies[c].data else []
    ensures forall c :: c in clients ==>
      clients[c].jar == old(clients[c].jar) && clients[c].sent == old(clients[c].sent) + [GroupListPost(name)]
  {
    ghost var jars := map c | c in clients :: clients[c].jar;
    ghost var logs := map c | c in clients :: clients[c].sent;
    groups := map[];
    for i := 0 to |order|
      invariant groups.Keys <= clients.Keys
      invariant forall j :: 0 <= j < i ==> order[j] in groups
      invariant forall j :: i <= j < |order| ==> order[j] !in groups
      invariant forall c :: c in groups ==> groups[c] == if replies[c].status == 200 then replies[c].data else []
      invariant Posted(clients, jars, logs, GroupListPost(name), groups.Keys)
    {
      groups := GroupsNext(clients, order, i, name, replies, groups, jars, logs);
    }
    Commands.EnumeratedKeys(order, clients, groups.Keys);
  }

  /** One step of GroupsOf: lists the groups on the i-th client and records
      them; no other client changes. */
  method GroupsNext(clients: map<string, AdminClient>, order: seq<string>, i: nat, name: string,
                    replies: map<string, ListReply<Group>>, groups: map<string, seq<Group>>,
                    ghost jars: map<string, Jar>, ghost logs: map<string, seq<Request>>)
    returns (groups': map<string, seq<Group>>)
    requires Commands.Enumerates(order, clients) && Separate(clients) && i < |order|
    requires clients.Keys <= replies.Keys && clients.Keys <= jars.Keys && clients.Keys <= logs.Keys
    requires groups.Keys <= clients.Keys
    requires forall c :: c in groups ==> groups[c] == if replies[c].status == 200 then replies[c].data else []
    requires forall j :: 0 <= j < i ==> order[j] in groups
    requires forall j :: i <= j < |order| ==> order[j] !in groups
    requires Posted(clients, jars, logs, GroupListPost(name), groups.Keys)
    modifies clients.Values
    ensures groups'.Keys <= clients.Keys
    ensures forall c :: c in groups' ==> groups'[c] == if replies[c].status == 200 then replies[c].data else []
    ensures forall j :: 0 <= j < i + 1 ==> order[j] in groups'
    ensures forall j :: i + 1 <= j < |order| ==> order[j] !in groups'
    ensures Posted(clients, jars, logs, GroupListPost(name), groups'.Keys)
  {
    var c := order[i];
    assert c !in groups;
    var listed := clients[c].ListGroup(name, "", 0, 30, replies[c]);
    forall d | d in clients && d != c ensures clients[d].jar == old(clients[d].jar) && clients[d].sent == old(clients[d].sent) {
      assert Apart(clients, d, c);
    }
    groups' := groups[c := listed];
    forall j | i + 1 <= j < |order| ensures order[j] !in groups' {
      assert order[j] != c;
    }
  }

  /** Lists the jobs matching name in group on every client, one after
      another: each client posts one job listing and keeps its cookies. */
  method JobsOf(clients: map<string, AdminClient>, order: seq<string>, name: string, group: int,
                replies: map<string, ListReply<Job>>)
    returns (jobs: map<string, seq<Job>>)
    requires Commands.Enumerates(order, clients) && Separate(clients) && clients.Keys <= replies.Keys
    modifies clients.Values
    ensures jobs.Keys == clients.Keys
    ensures forall c :: c in jobs ==> jobs[c] == if replies[c].status == 200 then replies[c].data else []
    ensures forall c :: c in clients ==>
      clients[c].jar == old(clients[c].jar) && clients[c].sent == old(clients[c].sent) + [JobListPost(name, group)]
  {
    ghost var jars := map c | c in clients :: clients[c].jar;
    ghost var logs := map c | c in clients :: clients[c].sent;
    jobs := map[];
    for i := 0 to |order|
      invariant jobs.Keys <= clients.Keys
      invariant forall j :: 0 <= j < i ==> order[j] in jobs
      invariant forall j :: i <= j < |order| ==> order[j] !in jobs
      invariant forall c :: c in jobs ==> jobs[c] == if replies[c].status == 200 then replies[c].data else []
      invariant Posted(clients, jars, logs, JobListPost(name, group), jobs.Keys)
    {
      jobs := JobsNext(clients, order, i, name, group, replies, jobs, jars, logs);
    }
    Commands.EnumeratedKeys(order, clients, jobs.Keys);
  }

  /** One step of JobsOf: lists the jobs on the i-th client and records
      them; no other client changes. */
  method JobsNext(clients: map<string, AdminClient>, order: seq<string>, i: nat, name: string, group: int,
                  replies: map<string, ListReply<Job>>, jobs: map<string, seq<Job>>,
                  ghost jars: map<string, Jar>, ghost logs: map<string, seq<Request>>)
    returns (jobs': map<string, seq<Job>>)
    requires Commands.Enumerates(order, clients) && Separate(clients) && i < |order|
    requires clients.Keys <= replies.Keys && clients.Keys <= jars.Keys && clients.Keys <= logs.Keys
    requires jobs.Keys <= clients.Keys
    requires forall c :: c in jobs ==> jobs[c] == if replies[c].status == 200 then replies[c].data else []
    requires forall j :: 0 <= j < i ==> order[j] in jobs
    requires forall j :: i <= j < |order| ==> order[j] !in jobs
    requires Posted(clients, jars, logs, JobListPost(name, group), jobs.Keys)
    modifies clients.Values
    ensures jobs'.Keys <= clients.Keys
    ensures forall c :: c in jobs' ==> jobs'[c] == if replies[c].status == 200 then replies[c].data else []
    ensures forall j :: 0 <= j < i + 1 ==> order[j] in jobs'
    ensures forall j :: i + 1 <= j < |order| ==> order[j] !in jobs'
    ensures Posted(clients, jars, logs, JobListPost(name, group), jobs'.Keys)
  {
    var c := order[i];
    assert c !in jobs;
    var listed := clients[c].ListJob(name, "", group, -1, "", 0, 30, replies[c]);
    forall d | d in clients && d != c ensures clients[d].jar == old(clients[d].jar) && clients[d].sent == old(clients[d].sent) {
      assert Apart(clients, d, c);
    }
    jobs' := jobs[c := listed];
    forall j | i + 1 <= j < |order| ensures order[j] !in jobs' {
      assert order[j] != c;
    }
  }

  /** `group list`: when at least one login succeeds, lists the groups whose
      app name matches name on every cluster (the reply's data on status 200,
      otherwise none); when none does, lists nothing. */
  method ListGroups(clients: map<string, AdminClient>, order: seq<string>, name: string,
                    inputs: map<string, LoginInput>, replies: map<string, ListReply<Group>>)
    returns (proceeded: bool, groups: map<string, seq<Group>>)
    requires Commands.Enumerates(order, clients) && Separate(clients)
    requires clients.Keys <= inputs.Keys && clients.Keys <= replies.Keys
    modifies clients.Values
    ensures proceeded <==>
      exists c :: c in clients && LoginSucceeds(old(clients[c].jar), clients[c].username, clients[c].password, inputs[c])
    ensures !proceeded ==> groups == map[]
    ensures proceeded ==> groups.Keys == clients.Keys
    ensures forall c :: c in groups ==> groups[c] == if replies[c].status == 200 then replies[c].data else []
    ensures forall c :: c in clients ==>
      && clients[c].jar == JarAfterLogin(old(clients[c].jar), clients[c].username, clients[c].password, inputs[c])
      && clients[c].sent == old(clients[c].sent) + LoginPosts(old(clients[c].jar), clients[c].username, clients[c].password, inputs[c])
        + (if proceeded then [GroupListPost(name)] else [])
  {
    groups := map[];
    proceeded := AnyLogin(clients, order, inputs);
    if proceeded {
      groups := GroupsOf(clients, order, name, replies);
    }
  }

  /** `job list`: when at least one login succeeds, lists the jobs whose
      handler matches name in the given group on every cluster; when none
      does, lists nothing. */
  method ListJobs(clients: map<string, AdminClient>, order: seq<string>, name: string, group: int,
                  inputs: map<string, LoginInput>, replies: map<string, ListReply<Job>>)
    returns (proceeded: bool, jobs: map<string, seq<Job>>)
    requires Commands.Enumerates(order, clients) && Separate(clients)
    requires clients.Keys <= inputs.Keys && clients.Keys <= replies.Keys
    modifies clients.Values
    ensures proceeded <==>
      exists c :: c in clients && LoginSucceeds(old(clients[c].jar), clients[c].username, clients[c].password, inputs[c])
    ensures !proceeded ==> jobs == map[]
    ensures proceeded ==> jobs.Keys == clients.Keys
    ensures forall c :: c in jobs ==> jobs[c] == if replies[c].status == 200 then replies[c].data else []
    ensures forall c :: c in clients ==>
      && clients[c].jar == JarAfterLogin(old(clients[c].jar), clients[c].username, clients[c].password, inputs[c])
      && clients[c].sent == old(clients[c].sent) + LoginPosts(old(clients[c].jar), clients[c].username, clients[c].password, inputs[c])
        + (if proceeded then [JobListPost(name, group)] else [])
  {
    jobs := map[];
    proceeded := AnyLogin(clients, order, inputs);
    if proceeded {
      jobs := JobsOf(clients, order, name, group, replies);
    }
  }
}
