/** The console's commands: the settings transitions (goto, env-set,
    add-cluster, remove-cluster), the job resolver that picks one job per
    cluster, and the job commands that act on the resolved jobs and label
    each cluster OK, FAILED or SKIPPED. */
module Commands {
  import opened Base
  import opened Settings
  import opened Client

  // ---------------------------------------------------------------------
  // goto

  /** The default environment names a known environment and the default
      cluster a configured cluster. */
  predicate TargetsKnown(d: SettingsData) {
    d.defaultEnv in d.envList && d.defaultCluster in ClustersOf(d.credentials)
  }

  /** The configuration after `goto name cluster`, and whether the command
      found what it was asked for (false is the "does not exist" message).
      A known environment becomes the default environment; a second argument
      (or, failing an environment, the name itself) that is a configured
      cluster becomes the default cluster. */
  function AfterGoto(d: SettingsData, name: string, cluster: string): (r: (SettingsData, bool))
    ensures r.0.envList == d.envList && r.0.credentials == d.credentials
    ensures r.0.defaultEnv == if name in d.envList then name else d.defaultEnv
    ensures r.1 <==>
      if name in d.envList then cluster == "" || cluster in ClustersOf(d.credentials)
      else name in ClustersOf(d.credentials) || cluster in ClustersOf(d.credentials)
    ensures r.0.defaultCluster == d.defaultCluster || (r.1 && r.0.defaultCluster in ClustersOf(d.credentials))
    ensures !r.1 ==> r.0.defaultCluster == d.defaultCluster
    ensures name !in d.envList && name in ClustersOf(d.credentials) ==> r.0.defaultCluster == name
    ensures r.1 && cluster != "" && (name in d.envList || name !in ClustersOf(d.credentials)) ==>
      r.0.defaultCluster == cluster
    ensures name in d.envList && cluster == "" ==> r.0.defaultCluster == d.defaultCluster
    ensures TargetsKnown(d) ==> TargetsKnown(r.0)
  {
    var known := ClustersOf(d.credentials);
    if name in d.envList then
      var d1 := d.(defaultEnv := name);
      if |cluster| == 0 then (d1, true)
      else if cluster in known then (d1.(defaultCluster := cluster), true)
      else (d1, false)
    else if name in known then (d.(defaultCluster := name), true)
    else if cluster in known then (d.(defaultCluster := cluster), true)
    else (d, false)
  }

  /** Switching to a known environment without a cluster changes only the
      default environment. */
  lemma GotoEnvironmentOnly(d: SettingsData, name: string)
    requires name in d.envList
    ensures AfterGoto(d, name, "") == (d.(defaultEnv := name), true)
  {
  }

  /** A name that is no environment but a configured cluster changes only the
      default cluster, whatever the second argument is. */
  lemma GotoClusterOnly(d: SettingsData, name: string, cluster: string)
    requires name !in d.envList && name in ClustersOf(d.credentials)
    ensures AfterGoto(d, name, cluster) == (d.(defaultCluster := name), true)
  {
  }

  /** `goto`: assigns the default environment and cluster of s in place. */
  method Goto(s: Settings, name: string, cluster: string) returns (found: bool)
    modifies s
    ensures (s.Data(), found) == AfterGoto(old(s.Data()), name, cluster)
  {
    if name in s.envList {
      s.defaultEnv := name;
      if |cluster| == 0 {
        return true;
      }
    } else {
      var known := s.ClusterList();
      if name in known {
        s.defaultCluster := name;
        return true;
      }
    }
    var known := s.ClusterList();
    if cluster in known {
      s.defaultCluster := cluster;
      found := true;
    } else {
      found := false;
    }
  }

  // ---------------------------------------------------------------------
  // env-set

  /** The environment env-set works on: the given one, or the default
      environment when none is given, lower-cased. */
  function EnvSetTarget(d: SettingsData, env: string): string {
    Lower(if |env| == 0 then d.defaultEnv else env)
  }

  /** The entry env-set starts from: a fresh environment when e is not yet
      listed (replacing any stale entry), else the existing one. */
  function EnvSetBase(d: SettingsData, e: string): EnvSettings
    requires e !in d.envList || e in d.credentials
  {
    if e !in d.envList then DefaultEnv else d.credentials[e]
  }

  /** The configuration after env-set, or None when the environment is listed
      but has no credentials and a user or password is given (a KeyError in
      the source, raised before anything has changed). */
  function AfterEnvSet(d: SettingsData, env: string, username: string, password: string): (r: Option<SettingsData>)
    ensures var e := EnvSetTarget(d, env);
      r.None? <==> (username != "" || password != "") && e in d.envList && e !in d.credentials
    ensures r.Some? ==> var e := EnvSetTarget(d, env);
      && r.value.envList == d.envList + {e}
      && r.value.defaultEnv == d.defaultEnv && r.value.defaultCluster == d.defaultCluster
      && (forall o :: o != e ==> (o in r.value.credentials <==> o in d.credentials))
      && (forall o :: o != e && o in d.credentials ==> r.value.credentials[o] == d.credentials[o])
      && (e in r.value.credentials <==> e !in d.envList || e in d.credentials)
    ensures r.Some? ==> var e := EnvSetTarget(d, env);
      e in r.value.credentials ==>
        && r.value.credentials[e].clusters == EnvSetBase(d, e).clusters
        && r.value.credentials[e].username == (if username != "" then username else EnvSetBase(d, e).username)
        && r.value.credentials[e].password == (if password != "" then password else EnvSetBase(d, e).password)
  {
    var e := EnvSetTarget(d, env);
    var creds := if e !in d.envList then d.credentials[e := DefaultEnv] else d.credentials;
    if (|username| > 0 || |password| > 0) && e !in creds then None
    else
      var withUser := if |username| > 0 then creds[e := creds[e].(username := username)] else creds;
      var withPassword := if |password| > 0 then withUser[e := withUser[e].(password := password)] else withUser;
      Some(d.(envList := d.envList + {e}, credentials := withPassword))
  }

  /** env-set without user or password on a listed environment changes nothing. */
  lemma EnvSetWithoutCredentialsIsNoOp(d: SettingsData, env: string)
    requires EnvSetTarget(d, env) in d.envList
    ensures AfterEnvSet(d, env, "", "") == Some(d)
  {
    var e := EnvSetTarget(d, env);
    assert d.envList + {e} == d.envList;
  }

  /** On a fresh installation env-set with a user fails: the default
      environment "test" is listed but has no credentials. */
  lemma EnvSetOnDefaultsFails(username: string)
    requires username != ""
    ensures AfterEnvSet(DefaultSettings, "", username, "") == None
  {
    DefaultEnvHasNoCredentials();
    assert Lower("test") == "test";
  }

  /** `env-set`: creates or updates an environment of s in place. ok is false
      when the source raises, and then s is unchanged. */
  method EnvSet(s: Settings, env: string, username: string, password: string) returns (ok: bool)
    modifies s
    ensures ok <==> AfterEnvSet(old(s.Data()), env, username, password).Some?
    ensures s.Data() == AfterEnvSet(old(s.Data()), env, username, password).GetOr(old(s.Data()))
  {
    var e := env;
    if |e| == 0 {
      e := s.defaultEnv;
    }
    e := Lower(e);
    if e !in s.envList {
      s.credentials := s.credentials[e := DefaultEnv];
    }
    s.envList := s.envList + {e};
    if |username| > 0 {
      if e !in s.credentials {
        return false;
      }
      s.credentials := s.credentials[e := s.credentials[e].(username := username)];
    }
    if |password| > 0 {
      if e !in s.credentials {
        return false;
      }
      s.credentials := s.credentials[e := s.credentials[e].(password := password)];
    }
    ok := true;
  }

  // ---------------------------------------------------------------------
  // add-cluster and remove-cluster

  /** The configuration after add-cluster: cluster points at host in the
      default environment (insert or overwrite). None when the default
      environment has no credentials (a KeyError in the source). */
  function AfterAddCluster(d: SettingsData, cluster: string, host: string): (r: Option<SettingsData>)
    ensures r.None? <==> d.defaultEnv !in d.credentials
    ensures r.Some? ==>
      && r.value.envList == d.envList && r.value.defaultEnv == d.defaultEnv
      && r.value.defaultCluster == d.defaultCluster
      && r.value.credentials.Keys == d.credentials.Keys
      && (forall o :: o in d.credentials && o != d.defaultEnv ==> r.value.credentials[o] == d.credentials[o])
    ensures r.Some? ==> var env := d.defaultEnv;
      && r.value.credentials[env].username == d.credentials[env].username
      && r.value.credentials[env].password == d.credentials[env].password
      && r.value.credentials[env].clusters.Keys == d.credentials[env].clusters.Keys + {cluster}
      && r.value.credentials[env].clusters[cluster] == host
      && (forall c :: c in d.credentials[env].clusters && c != cluster ==>
            r.value.credentials[env].clusters[c] == d.credentials[env].clusters[c])
    ensures r.Some? ==> cluster in ClustersOf(r.value.credentials)
  {
    var env := d.defaultEnv;
    if env !in d.credentials then None
    else
      var e := d.credentials[env];
      var r := d.(credentials := d.credentials[env := e.(clusters := e.clusters[cluster := host])]);
      assert cluster in r.credentials[env].clusters;
      Some(r)
  }

  /** The configuration after remove-cluster: cluster is gone from the
      default environment; removing an absent cluster changes nothing. None
      when the default environment has no credentials. */
  function AfterRemoveCluster(d: SettingsData, cluster: string): (r: Option<SettingsData>)
    ensures r.None? <==> d.defaultEnv !in d.credentials
    ensures r.Some? ==>
      && r.value.envList == d.envList && r.value.defaultEnv == d.defaultEnv
      && r.value.defaultCluster == d.defaultCluster
      && r.value.credentials.Keys == d.credentials.Keys
      && (forall o :: o in d.credentials && o != d.defaultEnv ==> r.value.credentials[o] == d.credentials[o])
    ensures r.Some? ==> var env := d.defaultEnv;
      && r.value.credentials[env].username == d.credentials[env].username
      && r.value.credentials[env].password == d.credentials[env].password
      && r.value.credentials[env].clusters.Keys == d.credentials[env].clusters.Keys - {cluster}
      && (forall c :: c in r.value.credentials[env].clusters ==>
            r.value.credentials[env].clusters[c] == d.credentials[env].clusters[c])
    ensures r.Some? && cluster !in d.credentials[d.defaultEnv].clusters ==> r == Some(d)
  {
    var env := d.defaultEnv;
    if env !in d.credentials then None
    else if cluster in d.credentials[env].clusters then
      var e := d.credentials[env];
      Some(d.(credentials := d.credentials[env := e.(clusters := e.clusters - {cluster})]))
    else Some(d)
  }

  /** On a fresh installation remove-cluster fails whatever the cluster:
      the default environment "test" has no credentials. */
  lemma RemoveClusterOnDefaultsFails(cluster: string)
    ensures AfterRemoveCluster(DefaultSettings, cluster) == None
  {
  }

  /** Removing a cluster that was just added restores a configuration that
      did not have it. */
  lemma {:induction false} AddThenRemoveRestores(d: SettingsData, cluster: string, host: string)
    requires d.defaultEnv in d.credentials && cluster !in d.credentials[d.defaultEnv].clusters
    ensures AfterAddCluster(d, cluster, host).Some?
    ensures AfterRemoveCluster(AfterAddCluster(d, cluster, host).value, cluster) == Some(d)
  {
    var env := d.defaultEnv;
    var e := d.credentials[env];
    var added := AfterAddCluster(d, cluster, host).value;
    var removed := AfterRemoveCluster(added, cluster).value;
    assert removed.credentials[env].clusters == e.clusters;
    assert removed.credentials[env] == e;
    assert removed.credentials == d.credentials;
  }

  /** `add-cluster`: upserts into the default environment of s in place. */
  method AddCluster(s: Settings, cluster: string, host: string) returns (ok: bool)
    modifies s
    ensures ok <==> AfterAddCluster(old(s.Data()), cluster, host).Some?
    ensures s.Data() == AfterAddCluster(old(s.Data()), cluster, host).GetOr(old(s.Data()))
  {
    var env := s.defaultEnv;
    if env !in s.credentials {
      return false;
    }
    var e := s.credentials[env];
    s.credentials := s.credentials[env := e.(clusters := e.clusters[cluster := host])];
    ok := true;
  }

  /** `remove-cluster`: deletes from the default environment of s in place
      when the cluster is there. */
  method RemoveCluster(s: Settings, cluster: string) returns (ok: bool)
    modifies s
    ensures ok <==> AfterRemoveCluster(old(s.Data()), cluster).Some?
    ensures s.Data() == AfterRemoveCluster(old(s.Data()), cluster).GetOr(old(s.Data()))
  {
    var env := s.defaultEnv;
    if env !in s.credentials {
      return false;
    }
    if cluster in s.credentials[env].clusters {
      var e := s.credentials[env];
      s.credentials := s.credentials[env := e.(clusters := e.clusters - {cluster})];
    }
    ok := true;
  }

  // ---------------------------------------------------------------------
  // The job resolver

  /** What the resolver settles on for one cluster: a job, or the sentinel
      with id -1 whose handler is the query followed by "??". */
  datatype Match = Found(job: Job) | Unresolved(handler: string) {
    function Id(): int {
      if Found? then job.id else -1
    }
  }

  /** Every element of order is a key of m. */
  predicate Covers<V>(order: seq<string>, m: map<string, V>) {
    forall i :: 0 <= i < |order| ==> order[i] in m
  }

  /** The job chosen from one cluster's search result: the only job, the
      sentinel for none, and for several the job at the typed index when the
      answer is a digit string below the number of jobs, else the sentinel. */
  function MatchJob(jobs: seq<Job>, executor: string, answer: string): (m: Match)
    ensures m.Found? ==> m.job in jobs
    ensures m.Unresolved? ==> m.handler == executor + "??" && m.Id() == -1
    ensures |jobs| == 1 ==> m == Found(jobs[0])
    ensures |jobs| == 0 ==> m == Unresolved(executor + "??")
  {
    if |jobs| == 1 then Found(jobs[0])
    else if |jobs| == 0 then Unresolved(executor + "??")
    else
      var idx := if IsNumeric(answer) then DigitsValue(answer) else -1;
      if 0 <= idx < |jobs| then Found(jobs[idx]) else Unresolved(executor + "??")
  }

  /** Typing the decimal index of a job among several selects that job. */
  lemma TypedIndexSelects(jobs: seq<Job>, executor: string, i: nat)
    requires |jobs| >= 2 && i < |jobs|
    ensures MatchJob(jobs, executor, Decimal(i)) == Found(jobs[i])
  {
    DecimalRoundTrip(i);
  }

  /** Any digit string whose value is an index in range selects that job,
      leading zeros included, as int() reads them. */
  lemma DigitStringSelects(jobs: seq<Job>, executor: string, answer: string)
    requires |jobs| >= 2 && IsNumeric(answer) && DigitsValue(answer) < |jobs|
    ensures MatchJob(jobs, executor, answer) == Found(jobs[DigitsValue(answer)])
  {
  }

  /** Among several jobs, an answer that is not a digit string or is out of
      range yields the sentinel, never an error. */
  lemma BadAnswerUnresolved(jobs: seq<Job>, executor: string, answer: string)
    requires |jobs| >= 2
    requires !IsNumeric(answer) || DigitsValue(answer) >= |jobs|
    ensures MatchJob(jobs, executor, answer) == Unresolved(executor + "??")
  {
  }

  /** The number of the first i clusters of order whose search found two or
      more jobs: the prompts the resolver issues before the i-th cluster. */
  function PromptsBefore(order: seq<string>, found: map<string, seq<Job>>, i: nat): nat
    requires Covers(order, found) && i <= |order|
  {
    if i == 0 then 0
    else PromptsBefore(order, found, i - 1) + (if |found[order[i - 1]]| >= 2 then 1 else 0)
  }

  /** The number of prompts the resolver issues for all of order. */
  function AmbiguousCount(order: seq<string>, found: map<string, seq<Job>>): nat
    requires Covers(order, found)
  {
    PromptsBefore(order, found, |order|)
  }

  /** The clusters among the first i of order whose search is ambiguous. */
  function AmbiguousBefore(order: seq<string>, found: map<string, seq<Job>>, i: nat): set<string>
    requires Covers(order, found) && i <= |order|
  {
    set j | 0 <= j < i && |found[order[j]]| >= 2 :: order[j]
  }

  /** The clusters of order whose search is ambiguous. */
  function AmbiguousClusters(order: seq<string>, found: map<string, seq<Job>>): set<string>
    requires Covers(order, found)
  {
    AmbiguousBefore(order, found, |order|)
  }

  /** One prompt per ambiguous cluster: with distinct clusters the prompt
      count is the number of ambiguous clusters. */
  lemma OnePromptPerAmbiguousCluster(order: seq<string>, found: map<string, seq<Job>>)
    requires Covers(order, found) && Distinct(order)
    ensures AmbiguousCount(order, found) == |AmbiguousClusters(order, found)|
  {
    PromptsCountAmbiguous(order, found, |order|);
  }

  /** Before the i-th cluster the resolver has prompted once per ambiguous
      cluster among the first i. */
  lemma {:induction false} PromptsCountAmbiguous(order: seq<string>, found: map<string, seq<Job>>, i: nat)
    requires Covers(order, found) && Distinct(order) && i <= |order|
    ensures PromptsBefore(order, found, i) == |AmbiguousBefore(order, found, i)|
  {
    if i > 0 {
      PromptsCountAmbiguous(order, found, i - 1);
      AmbiguousBeforeGrows(order, found, i - 1);
    }
  }

  /** Each ambiguous cluster adds one to the ambiguous clusters before it. */
  lemma AmbiguousBeforeGrows(order: seq<string>, found: map<string, seq<Job>>, i: nat)
    requires Covers(order, found) && Distinct(order) && i < |order|
    ensures |AmbiguousBefore(order, found, i + 1)|
      == |AmbiguousBefore(order, found, i)| + (if |found[order[i]]| >= 2 then 1 else 0)
  {
    AmbiguousBeforeStep(order, found, i);
    FreshCluster(order, found, i);
  }

  /** With distinct clusters, the i-th is not among the ambiguous clusters
      before it. */
  lemma FreshCluster(order: seq<string>, found: map<string, seq<Job>>, i: nat)
    requires Covers(order, found) && Distinct(order) && i < |order|
    ensures order[i] !in AmbiguousBefore(order, found, i)
  {
  }

  /** The ambiguous clusters among the first i + 1 are those among the first
      i, plus the i-th when it is ambiguous. */
  lemma AmbiguousBeforeStep(order: seq<string>, found: map<string, seq<Job>>, i: nat)
    requires Covers(order, found) && i < |order|
    ensures AmbiguousBefore(order, found, i + 1)
      == AmbiguousBefore(order, found, i) + (if |found[order[i]]| >= 2 then {order[i]} else {})
  {
    var before := AmbiguousBefore(order, found, i);
    var after := AmbiguousBefore(order, found, i + 1);
    var last: set<string> := if |found[order[i]]| >= 2 then {order[i]} else {};
    forall c | c in after ensures c in before + last {
      var j :| 0 <= j < i + 1 && |found[order[j]]| >= 2 && order[j] == c;
    }
  }

  /** The prompts before the i-th cluster are no more than the prompts for
      the whole of order. */
  lemma {:induction false} PromptsBeforeBounded(order: seq<string>, found: map<string, seq<Job>>, i: nat)
    requires Covers(order, found) && i <= |order|
    ensures PromptsBefore(order, found, i) <= AmbiguousCount(order, found)
    decreases |order| - i
  {
    if i < |order| {
      PromptsBeforeBounded(order, found, i + 1);
    }
  }

  /** The k-th typed answer, or "" past the last one (only reached by
      clusters that are not prompted). */
  function AnswerAt(answers: seq<string>, k: nat): string {
    if k < |answers| then answers[k] else ""
  }

  /** matched is what the resolver makes of the clusters of order: one entry
      per cluster, the i-th cluster matched with the answer typed at the
      prompt that follows the prompts of the clusters before it. */
  predicate ResolvedBy(matched: map<string, Match>, order: seq<string>, found: map<string, seq<Job>>,
                       executor: string, answers: seq<string>)
    requires Covers(order, found)
  {
    && (forall c :: c in matched ==> c in order)
    && Covers(order, matched)
    && forall i :: 0 <= i < |order| ==>
      matched[order[i]] == MatchJob(found[order[i]], executor, AnswerAt(answers, PromptsBefore(order, found, i)))
  }

  /** One cluster's step of the resolver: with several jobs it reads the
      next typed answer (answers[prompts]) and moves on to the one after. */
  method MatchOne(jobs: seq<Job>, executor: string, answers: seq<string>, prompts: nat)
    returns (m: Match, next: nat)
    requires |jobs| >= 2 ==> prompts < |answers|
    ensures m == MatchJob(jobs, executor, AnswerAt(answers, prompts))
    ensures next == prompts + (if |jobs| >= 2 then 1 else 0)
  {
    next := prompts;
    if |jobs| == 1 {
      m := Found(jobs[0]);
    } else if |jobs| == 0 {
      m := Unresolved(executor + "??");
    } else {
      var choice := answers[prompts];
      next := prompts + 1;
      var idx := if IsNumeric(choice) then DigitsValue(choice) else -1;
      if 0 <= idx < |jobs| {
        m := Found(jobs[idx]);
      } else {
        m := Unresolved(executor + "??");
      }
    }
  }

  /** The matches the resolver has made after the first i clusters of
      order: each cluster matched with the answer typed at the prompt that
      follows the prompts of the clusters before it. */
  function Resolution(order: seq<string>, found: map<string, seq<Job>>, executor: string, answers: seq<string>, i: nat)
    : map<string, Match>
    requires Covers(order, found) && i <= |order|
  {
    if i == 0 then map[]
    else
      Resolution(order, found, executor, answers, i - 1)[
        order[i - 1] := MatchJob(found[order[i - 1]], executor, AnswerAt(answers, PromptsBefore(order, found, i - 1)))]
  }

  /** The keys of the resolution after i clusters are the first i clusters. */
  lemma {:induction false} ResolutionKeys(order: seq<string>, found: map<string, seq<Job>>, executor: string,
                                          answers: seq<string>, i: nat)
    requires Covers(order, found) && i <= |order|
    ensures forall c :: c in Resolution(order, found, executor, answers, i) ==> c in order[..i]
    ensures forall j :: 0 <= j < i ==> order[j] in Resolution(order, found, executor, answers, i)
  {
    if i > 0 {
      ResolutionKeys(order, found, executor, answers, i - 1);
      assert order[..i] == order[..i - 1] + [order[i - 1]];
    }
  }

  /** With distinct clusters, the resolution after i clusters holds the
      j-th cluster's match for every j below i. */
  lemma {:induction false} ResolutionAt(order: seq<string>, found: map<string, seq<Job>>, executor: string,
                                        answers: seq<string>, i: nat, j: nat)
    requires Covers(order, found) && Distinct(order) && j < i <= |order|
    ensures order[j] in Resolution(order, found, executor, answers, i)
    ensures Resolution(order, found, executor, answers, i)[order[j]]
      == MatchJob(found[order[j]], executor, AnswerAt(answers, PromptsBefore(order, found, j)))
  {
    if j < i - 1 {
      ResolutionAt(order, found, executor, answers, i - 1, j);
      assert order[j] != order[i - 1];
    }
  }

  /** The resolution of all of order is what the resolver makes of it. */
  lemma ResolutionResolves(order: seq<string>, found: map<string, seq<Job>>, executor: string, answers: seq<string>)
    requires Covers(order, found) && Distinct(order)
    ensures ResolvedBy(Resolution(order, found, executor, answers, |order|), order, found, executor, answers)
  {
    var matched := Resolution(order, found, executor, answers, |order|);
    ResolutionKeys(order, found, executor, answers, |order|);
    assert order[..|order|] == order;
    forall i | 0 <= i < |order|
      ensures matched[order[i]] == MatchJob(found[order[i]], executor, AnswerAt(answers, PromptsBefore(order, found, i)))
    {
      ResolutionAt(order, found, executor, answers, |order|, i);
    }
  }

  /** The resolver: walks the clusters in order, prompting once for each
      cluster with several jobs and consuming the typed answers in turn, and
      maps every cluster to exactly one match. */
  method ResolveJobs(order: seq<string>, found: map<string, seq<Job>>, executor: string, answers: seq<string>)
    returns (matched: map<string, Match>, prompts: nat)
    requires Covers(order, found) && Distinct(order)
    requires AmbiguousCount(order, found) <= |answers|
    ensures ResolvedBy(matched, order, found, executor, answers)
    ensures prompts == AmbiguousCount(order, found)
  {
    matched := map[];
    prompts := 0;
    for i := 0 to |order|
      invariant prompts == PromptsBefore(order, found, i)
      invariant matched == Resolution(order, found, executor, answers, i)
    {
      var jobs := found[order[i]];
      if |jobs| >= 2 {
        PromptsBeforeBounded(order, found, i + 1);
      }
      var m;
      m, prompts := MatchOne(jobs, executor, answers, prompts);
      matched := matched[order[i] := m];
    }
    ResolutionResolves(order, found, executor, answers);
  }

  // ---------------------------------------------------------------------
  // The job commands

  /** The label a job command prints for one cluster. */
  datatype Outcome = Ok | Failed | Skipped

  /** OK when the operation returned true; otherwise FAILED when a job was
      resolved (id > 0) and SKIPPED when none was. */
  function Classify(ok: bool, matchId: int): (o: Outcome)
    ensures o == Ok <==> ok
    ensures o == Failed <==> !ok && matchId > 0
    ensures o == Skipped <==> !ok && matchId <= 0
  {
    if ok then Ok else if matchId > 0 then Failed else Skipped
  }

  /** For the result of a mutating call: OK exactly when the call succeeded,
      SKIPPED exactly when no job was resolved (no request was sent), and
      FAILED exactly when a job was resolved but the call did not succeed. */
  lemma OutcomeMeaning(matchId: int, reply: Reply)
    ensures Classify(MutationOk(matchId, reply), matchId) == Ok <==> MutationOk(matchId, reply)
    ensures Classify(MutationOk(matchId, reply), matchId) == Skipped <==> matchId <= 0
    ensures Classify(MutationOk(matchId, reply), matchId) == Failed
      <==> matchId > 0 && !(reply.status == 200 && reply.code == 200)
  {
  }

  /** The mutating operation a job command sends. */
  datatype Operation = Trigger(param: Option<string>, address: Option<string>) | Start | Stop

  /** The request an operation sends for a positive job id. */
  function RequestFor(op: Operation, jobId: int): Request {
    match op
    case Trigger(param, address) =>
      Post(TriggerPath, map["id" := Num(jobId), "executorParam" := OptText(param), "addressList" := OptText(address)])
    case Start => Post(StartPath, map["id" := Num(jobId)])
    case Stop => Post(StopPath, map["id" := Num(jobId)])
  }

  /** The requests an operation issues for a job id: none for id <= 0. */
  function Issued(op: Operation, jobId: int): seq<Request> {
    if jobId <= 0 then [] else [RequestFor(op, jobId)]
  }

  /** Sends op for one job id through one client. */
  method Send(op: Operation, client: AdminClient, jobId: int, reply: Reply) returns (ok: bool)
    modifies client`sent
    ensures ok == MutationOk(jobId, reply)
    ensures client.sent == old(client.sent) + Issued(op, jobId)
  {
    match op {
      case Trigger(param, address) =>
        ok := client.TriggerJob(jobId, param, address, reply);
      case Start =>
        ok := client.StartJob(jobId, reply);
      case Stop =>
        ok := client.StopJob(jobId, reply);
    }
  }

  /** Sends op through the client of cluster c; no other client changes. */
  method SendTo(op: Operation, clients: map<string, AdminClient>, c: string, jobId: int, reply: Reply)
    returns (ok: bool)
    requires c in clients && Separate(clients)
    modifies clients[c]
    ensures ok == MutationOk(jobId, reply)
    ensures clients[c].sent == old(clients[c].sent) + Issued(op, jobId)
    ensures forall d :: d in clients && d != c ==> clients[d].sent == old(clients[d].sent)
  {
    ok := Send(op, clients[c], jobId, reply);
    forall d | d in clients && d != c ensures clients[d].sent == old(clients[d].sent) {
      assert Apart(clients, d, c);
    }
  }

  /** The progress of Dispatch after the first i clusters of order: those
      have a result and one more request in their log, the others neither. */
  ghost predicate SentUpTo(op: Operation, clients: map<string, AdminClient>, order: seq<string>, i: nat,
                           ids: map<string, int>, replies: map<string, Reply>,
                           start: map<string, seq<Request>>, results: map<string, bool>)
    requires i <= |order| && clients.Keys <= ids.Keys && clients.Keys <= replies.Keys && clients.Keys <= start.Keys
    reads clients.Values
  {
    && results.Keys <= clients.Keys
    && (forall j :: 0 <= j < i ==> order[j] in results)
    && (forall j :: i <= j < |order| ==> order[j] !in results)
    && (forall c :: c in results ==> results[c] == MutationOk(ids[c], replies[c]))
    && forall c :: c in clients ==>
      clients[c].sent == start[c] + (if c in results then Issued(op, ids[c]) else [])
  }

  /** Dispatch's step for the i-th cluster of order. */
  method DispatchNext(op: Operation, clients: map<string, AdminClient>, order: seq<string>, i: nat,
                      ids: map<string, int>, replies: map<string, Reply>,
                      ghost start: map<string, seq<Request>>, results: map<string, bool>)
    returns (results': map<string, bool>)
    requires Enumerates(order, clients) && Separate(clients) && i < |order|
    requires clients.Keys <= ids.Keys && clients.Keys <= replies.Keys && clients.Keys <= start.Keys
    requires SentUpTo(op, clients, order, i, ids, replies, start, results)
    modifies clients.Values
    ensures SentUpTo(op, clients, order, i + 1, ids, replies, start, results')
  {
    var c := order[i];
    assert c !in results && clients[c].sent == start[c];
    var ok := SendTo(op, clients, c, ids[c], replies[c]);
    results' := results[c := ok];
    forall j | i < j < |order| ensures order[j] !in results' {
      assert order[j] != c;
    }
    forall d | d in clients ensures clients[d].sent == start[d] + (if d in results' then Issued(op, ids[d]) else []) {
      if d != c {
        assert d in results' <==> d in results;
      }
    }
  }

  /** Sends op for the given job id on every client (in the source the calls
      run concurrently; here one after another). */
  method Dispatch(op: Operation, clients: map<string, AdminClient>, order: seq<string>,
                  ids: map<string, int>, replies: map<string, Reply>)
    returns (results: map<string, bool>)
    requires Enumerates(order, clients) && Separate(clients)
    requires clients.Keys <= ids.Keys && clients.Keys <= replies.Keys
    modifies clients.Values
    ensures results.Keys == clients.Keys
    ensures forall c :: c in results ==> results[c] == MutationOk(ids[c], replies[c])
    ensures forall c :: c in clients ==> clients[c].sent == old(clients[c].sent) + Issued(op, ids[c])
  {
    ghost var start := map c | c in clients :: clients[c].sent;
    results := map[];
    for i := 0 to |order|
      invariant SentUpTo(op, clients, order, i, ids, replies, start, results)
    {
      results := DispatchNext(op, clients, order, i, ids, replies, start, results);
    }
  }

  /** The ids of the matched jobs. */
  function Ids(matched: map<string, Match>): (ids: map<string, int>)
    ensures ids.Keys == matched.Keys
    ensures forall c :: c in ids ==> ids[c] == matched[c].Id()
  {
    map c | c in matched :: matched[c].Id()
  }

  /** Lists the keys of clients, each once, in the client map's order. */
  predicate Enumerates(order: seq<string>, clients: map<string, AdminClient>) {
    Distinct(order) && (forall i :: 0 <= i < |order| ==> order[i] in clients)
    && forall c :: c in clients ==> c in order
  }

  /** A set of clusters inside clients that holds every cluster of order
      holds them all. */
  lemma EnumeratedKeys(order: seq<string>, clients: map<string, AdminClient>, keys: set<string>)
    requires Enumerates(order, clients) && keys <= clients.Keys
    requires forall j :: 0 <= j < |order| ==> order[j] in keys
    ensures keys == clients.Keys
  {
    forall c | c in clients ensures c in keys {
      var j :| 0 <= j < |order| && order[j] == c;
    }
  }

  /** The shared body of run, off and on: resolve a job per cluster, send op
      for it on that cluster's client, and label the outcome. */
  method ActOnJobs(op: Operation, clients: map<string, AdminClient>, order: seq<string>,
                   found: map<string, seq<Job>>, executor: string, answers: seq<string>, replies: map<string, Reply>)
    returns (matched: map<string, Match>, report: map<string, Outcome>)
    requires Enumerates(order, clients) && Separate(clients)
    requires clients.Keys <= found.Keys && clients.Keys <= replies.Keys
    requires AmbiguousCount(order, found) <= |answers|
    modifies clients.Values
    ensures matched.Keys == clients.Keys && report.Keys == clients.Keys
    ensures ResolvedBy(matched, order, found, executor, answers)
    ensures forall c :: c in report ==> report[c] == Classify(MutationOk(matched[c].Id(), replies[c]), matched[c].Id())
    ensures forall c :: c in clients ==> clients[c].sent == old(clients[c].sent) + Issued(op, matched[c].Id())
  {
    var prompts;
    matched, prompts := ResolveJobs(order, found, executor, answers);
    EnumeratedKeys(order, clients, matched.Keys);
    var results := Dispatch(op, clients, order, Ids(matched), replies);
    report := map c | c in results :: Classify(results[c], matched[c].Id());
  }

  /** `job run`: triggers the resolved job on each cluster. */
  method RunJob(clients: map<string, AdminClient>, order: seq<string>, found: map<string, seq<Job>>,
                executor: string, answers: seq<string>, param: string, address: Option<string>,
                replies: map<string, Reply>)
    returns (matched: map<string, Match>, report: map<string, Outcome>)
    requires Enumerates(order, clients) && Separate(clients)
    requires clients.Keys <= found.Keys && clients.Keys <= replies.Keys
    requires AmbiguousCount(order, found) <= |answers|
    modifies clients.Values
    ensures matched.Keys == clients.Keys && report.Keys == clients.Keys
    ensures ResolvedBy(matched, order, found, executor, answers)
    ensures forall c :: c in report ==> report[c] == Classify(MutationOk(matched[c].Id(), replies[c]), matched[c].Id())
    ensures forall c :: c in clients ==>
      clients[c].sent == old(clients[c].sent) + Issued(Trigger(Some(param), address), matched[c].Id())
  {
    matched, report := ActOnJobs(Trigger(Some(param), address), clients, order, found, executor, answers, replies);
  }

  /** `job off`: stops the resolved job on each cluster. */
  method DisableJob(clients: map<string, AdminClient>, order: seq<string>, found: map<string, seq<Job>>,
                    executor: string, answers: seq<string>, replies: map<string, Reply>)
    returns (matched: map<string, Match>, report: map<string, Outcome>)
    requires Enumerates(order, clients) && Separate(clients)
    requires clients.Keys <= found.Keys && clients.Keys <= replies.Keys
    requires AmbiguousCount(order, found) <= |answers|
    modifies clients.Values
    ensures matched.Keys == clients.Keys && report.Keys == clients.Keys
    ensures ResolvedBy(matched, order, found, executor, answers)
    ensures forall c :: c in report ==> report[c] == Classify(MutationOk(matched[c].Id(), replies[c]), matched[c].Id())
    ensures forall c :: c in clients ==> clients[c].sent == old(clients[c].sent) + Issued(Stop, matched[c].Id())
  {
    matched, report := ActOnJobs(Stop, clients, order, found, executor, answers, replies);
  }

  /** `job on`: starts the resolved job on each cluster. */
  method EnableJob(clients: map<string, AdminClient>, order: seq<string>, found: map<string, seq<Job>>,
                   executor: string, answers: seq<string>, replies: map<string, Reply>)
    returns (matched: map<string, Match>, report: map<string, Outcome>)
    requires Enumerates(order, clients) && Separate(clients)
    requires clients.Keys <= found.Keys && clients.Keys <= replies.Keys
    requires AmbiguousCount(order, found) <= |answers|
    modifies clients.Values
    ensures matched.Keys == clients.Keys && report.Keys == clients.Keys
    ensures ResolvedBy(matched, order, found, executor, answers)
    ensures forall c :: c in report ==> report[c] == Classify(MutationOk(matched[c].Id(), replies[c]), matched[c].Id())
    ensures forall c :: c in clients ==> clients[c].sent == old(clients[c].sent) + Issued(Start, matched[c].Id())
  {
    matched, report := ActOnJobs(Start, clients, order, found, executor, answers, replies);
  }

  // ---------------------------------------------------------------------
  // job update

  /** One update the command asks for. */
  datatype UpdateRequest = UpdateRequest(
    cluster: string, jobId: int, jobGroup: int, executor: string,
    title: string, cron: Option<string>, author: string)

  /** The option values as they stand when the loop reaches a cluster: the
      source reassigns them on every resolved cluster. */
  datatype Carried = Carried(cron: Option<string>, title: Option<string>, author: Option<string>)

  /** Python truthiness of an optional string: present and non-empty. */
  predicate Truthy(s: Option<string>) {
    s.Some? && s.value != ""
  }

  /** Python's `a or b` on optional strings. */
  function Or(a: Option<string>, b: Option<string>): Option<string> {
    if Truthy(a) then a else b
  }

  /** The update requests for the clusters of order, in order, starting from
      the carried option values. Clusters whose match has id <= 0 are
      skipped; on the others cron, title and author fall back to the job's
      own values, the prefix is prepended, and the results carry over to the
      next cluster. */
  function UpdatesFrom(order: seq<string>, matched: map<string, Match>, prefix: Option<string>, carried: Carried)
    : seq<UpdateRequest>
    requires Covers(order, matched)
    decreases |order|
  {
    if order == [] then []
    else
      var m := matched[order[0]];
      if m.Id() <= 0 then UpdatesFrom(order[1..], matched, prefix, carried)
      else
        var next := Advance(carried, prefix, m.job);
        [UpdateRequest(order[0], m.job.id, m.job.jobGroup, m.job.executorHandler, next.title.value, next.cron, next.author.value)]
          + UpdatesFrom(order[1..], matched, prefix, next)
  }

  /** The option values after a resolved cluster: an unset or empty cron
      falls back to the job's cron, then to its schedule; an unset or empty
      title to the job's description, with the prefix put in front; an unset
      or empty author to the job's author. */
  function Advance(carried: Carried, prefix: Option<string>, job: Job): Carried {
    var title := if Truthy(carried.title) then carried.title.value else job.jobDesc;
    Carried(
      Or(Or(carried.cron, job.jobCron), job.scheduleConf),
      Some(if Truthy(prefix) then prefix.value + title else title),
      Some(if Truthy(carried.author) then carried.author.value else job.author))
  }

  /** The clusters of order whose match has a positive id, in order. */
  function Resolved(order: seq<string>, matched: map<string, Match>): (r: seq<string>)
    requires Covers(order, matched)
    ensures forall c :: c in r <==> c in order && matched[c].Id() > 0
    decreases |order|
  {
    if order == [] then []
    else if matched[order[0]].Id() > 0 then [order[0]] + Resolved(order[1..], matched)
    else Resolved(order[1..], matched)
  }

  /** The update requests go, in order, exactly to the clusters with a
      positive match id. */
  lemma {:induction false} UpdatesGoToResolved(order: seq<string>, matched: map<string, Match>,
                                                prefix: Option<string>, carried: Carried)
    requires Covers(order, matched)
    ensures |UpdatesFrom(order, matched, prefix, carried)| == |Resolved(order, matched)|
    ensures forall k :: 0 <= k < |Resolved(order, matched)| ==>
      UpdatesFrom(order, matched, prefix, carried)[k].cluster == Resolved(order, matched)[k]
    decreases |order|
  {
    if order != [] {
      var m := matched[order[0]];
      var updates := UpdatesFrom(order, matched, prefix, carried);
      var resolved := Resolved(order, matched);
      if m.Id() <= 0 {
        UpdatesGoToResolved(order[1..], matched, prefix, carried);
        assert updates == UpdatesFrom(order[1..], matched, prefix, carried);
        assert resolved == Resolved(order[1..], matched);
      } else {
        var next := Advance(carried, prefix, m.job);
        UpdatesGoToResolved(order[1..], matched, prefix, next);
        var rest := UpdatesFrom(order[1..], matched, prefix, next);
        var tail := Resolved(order[1..], matched);
        assert updates[1..] == rest && updates[0].cluster == order[0];
        assert resolved == [order[0]] + tail;
        forall k | 0 <= k < |resolved| ensures updates[k].cluster == resolved[k] {
          if k > 0 {
            assert updates[k] == rest[k - 1];
            assert resolved[k] == tail[k - 1];
          }
        }
      }
    }
  }

  /** Each update request is for its cluster's matched job: a found job with
      a positive id, whose id, group and handler the request carries. */
  lemma {:induction false} UpdatesCarryMatchedJob(order: seq<string>, matched: map<string, Match>,
                                                   prefix: Option<string>, carried: Carried)
    requires Covers(order, matched)
    ensures forall u :: u in UpdatesFrom(order, matched, prefix, carried) ==>
      && u.cluster in order
      && matched[u.cluster].Found?
      && u.jobId == matched[u.cluster].job.id > 0
      && u.jobGroup == matched[u.cluster].job.jobGroup
      && u.executor == matched[u.cluster].job.executorHandler
    decreases |order|
  {
    if order != [] {
      var m := matched[order[0]];
      var next := if m.Id() <= 0 then carried else Advance(carried, prefix, m.job);
      UpdatesCarryMatchedJob(order[1..], matched, prefix, next);
    }
  }

  /** With the title left to the first job, the prefix given and two
      resolved clusters, the second title is the first job's description
      with the prefix twice: the values carry over from cluster to cluster. */
  lemma PrefixCarriesOver(a: Job, b: Job)
    requires a.id > 0 && b.id > 0
    ensures var u := UpdatesFrom(["x", "y"], map["x" := Found(a), "y" := Found(b)], Some("P-"),
                                 Carried(None, None, None));
      |u| == 2 && u[0].title == "P-" + a.jobDesc && u[1].title == "P-P-" + a.jobDesc
  {
    var matched := map["x" := Found(a), "y" := Found(b)];
    var order := ["x", "y"];
    assert order[1..] == ["y"];
    assert ["y"][1..] == [];
  }

  /** The loop of `job update` that builds the requests: it skips clusters
      whose match has id <= 0 and reassigns cron, title and author on every
      other cluster. */
  method PlanUpdates(order: seq<string>, matched: map<string, Match>, prefix: Option<string>, start: Carried)
    returns (requests: seq<UpdateRequest>)
    requires Covers(order, matched)
    ensures requests == UpdatesFrom(order, matched, prefix, start)
  {
    requests := [];
    var carried := start;
    for i := 0 to |order|
      invariant requests + UpdatesFrom(order[i..], matched, prefix, carried) == UpdatesFrom(order, matched, prefix, start)
    {
      var cluster := order[i];
      var m := matched[cluster];
      assert order[i..][1..] == order[i + 1..];
      if m.Id() <= 0 {
        assert UpdatesFrom(order[i..], matched, prefix, carried) == UpdatesFrom(order[i + 1..], matched, prefix, carried);
        continue;
      }
      var job := m.job;
      ghost var before := carried;
      carried := Advance(carried, prefix, job);
      var request := UpdateRequest(cluster, job.id, job.jobGroup, job.executorHandler,
                                   carried.title.value, carried.cron, carried.author.value);
      assert UpdatesFrom(order[i..], matched, prefix, before) == [request] + UpdatesFrom(order[i + 1..], matched, prefix, carried);
      requests := requests + [request];
    }
    assert order[|order|..] == [];
  }

  /** The clusters the requests go to, in order. */
  function Targets(requests: seq<UpdateRequest>): (cs: seq<string>)
    ensures |cs| == |requests|
    ensures forall k :: 0 <= k < |requests| ==> cs[k] == requests[k].cluster
  {
    seq(|requests|, k requires 0 <= k < |requests| => requests[k].cluster)
  }

  /** The result loop of `job update`: OK or FAILED for each request's
      cluster, never SKIPPED. */
  method LabelUpdates(requests: seq<UpdateRequest>, updated: map<string, bool>) returns (report: map<string, Outcome>)
    requires forall k :: 0 <= k < |requests| ==> requests[k].cluster in updated
    ensures forall c :: c in report <==> c in Targets(requests)
    ensures forall c :: c in report ==> report[c] == if updated[c] then Ok else Failed
  {
    report := map[];
    for k := 0 to |requests|
      invariant forall c :: c in report <==> c in Targets(requests)[..k]
      invariant forall c :: c in report ==> c in updated && report[c] == if updated[c] then Ok else Failed
    {
      var cluster := requests[k].cluster;
      report := report[cluster := if updated[cluster] then Ok else Failed];
      assert Targets(requests)[..k + 1] == Targets(requests)[..k] + [cluster];
    }
    assert Targets(requests)[..|requests|] == Targets(requests);
  }

  /** `job update`: resolves a job per cluster and asks for an update on each
      cluster with a positive id; updated gives each update's result. The
      other clusters get no request and no label. */
  method UpdateJob(order: seq<string>, found: map<string, seq<Job>>, executor: string, answers: seq<string>,
                   cron: Option<string>, title: Option<string>, prefix: Option<string>, author: Option<string>,
                   updated: map<string, bool>)
    returns (matched: map<string, Match>, requests: seq<UpdateRequest>, report: map<string, Outcome>)
    requires Covers(order, found) && Distinct(order)
    requires AmbiguousCount(order, found) <= |answers|
    requires Covers(order, updated)
    ensures ResolvedBy(matched, order, found, executor, answers)
    ensures Covers(order, matched)
    ensures requests == UpdatesFrom(order, matched, prefix, Carried(cron, title, author))
    ensures forall c :: c in report <==> c in order && matched[c].Id() > 0
    ensures forall c :: c in report ==> report[c] == if updated[c] then Ok else Failed
  {
    var prompts;
    matched, prompts := ResolveJobs(order, found, executor, answers);
    requests := PlanUpdates(order, matched, prefix, Carried(cron, title, author));
    UpdatesGoToResolved(order, matched, prefix, Carried(cron, title, author));
    UpdatesCarryMatchedJob(order, matched, prefix, Carried(cron, title, author));
    assert Targets(requests) == Resolved(order, matched);
    forall k | 0 <= k < |requests| ensures requests[k].cluster in updated {
      assert requests[k] in requests;
    }
    report := LabelUpdates(requests, updated);
  }

  /** How `job update` ends as the source is written: an AttributeError at a
      cluster, or a finished run with the labels it printed. */
  datatype UpdateRun = AttributeErrorAt(cluster: string) | Finished(report: map<string, Outcome>)

  /** `job update` as written: the loop reaches `client.update_job` at the
      first cluster with a resolved job, and the client defines no such
      method, so the command ends there before any update is sent or any
      label printed; with no resolved job no task is made and nothing is
      printed. */
  function UpdateAsWritten(order: seq<string>, matched: map<string, Match>): (r: UpdateRun)
    requires Covers(order, matched)
    ensures r.AttributeErrorAt? ==> r.cluster in order && matched[r.cluster].Id() > 0
    ensures r.Finished? ==> r.report == map[]
    decreases |order|
  {
    if order == [] then Finished(map[])
    else if matched[order[0]].Id() > 0 then AttributeErrorAt(order[0])
    else UpdateAsWritten(order[1..], matched)
  }

  /** As written, `job update` raises exactly when some cluster resolves a
      job, at the first such cluster; so it never prints an update label,
      where `UpdateJob` labels every resolved cluster. */
  lemma {:induction false} UpdateAsWrittenRaises(order: seq<string>, matched: map<string, Match>)
    requires Covers(order, matched)
    ensures UpdateAsWritten(order, matched).AttributeErrorAt? <==> Resolved(order, matched) != []
    ensures UpdateAsWritten(order, matched).AttributeErrorAt? ==>
      UpdateAsWritten(order, matched).cluster == Resolved(order, matched)[0]
    ensures UpdateAsWritten(order, matched).Finished? ==> UpdateAsWritten(order, matched).report == map[]
    decreases |order|
  {
    if order != [] && matched[order[0]].Id() <= 0 {
      UpdateAsWrittenRaises(order[1..], matched);
    }
  }
}
