# XXL-Job admin console — a Dafny model

The console drives one or more XXL-Job admin servers ("clusters") grouped
into environments. A settings record holds the environments, the default
environment and cluster, and per environment a user name, a password and
the URLs of its clusters. Commands pick target clusters and get an admin
client for each one. They then list executor groups or jobs, or resolve a
job by its handler name and trigger, start, stop or update it on every
cluster. The interactive shell keeps a most-recently-used list of command
words and shows the default environment and cluster in its prompt.

This project models the rules under that I/O:

- `Base`: the option type, ASCII lower-casing and decimal digit strings.
- `Settings`: the settings record, its defaults and `cluster_list`.
- `Completers`: the bounded most-recently-used word list.
- `Client`: the admin client. It covers the login decision, the request
  forms, the job-id guards and the success test. HTTP replies, typed
  credentials, the clock and the cookie file are parameters. The client
  keeps a log `sent` of the requests it posted.
- `Context`: lazy settings loading, cluster selection and the client pool
  keyed `env:cluster`.
- `Commands`: the commands of the main console. These are `goto`,
  `env-set`, `add-cluster`/`remove-cluster`, the job resolver, run/on/off
  with their OK/FAILED/SKIPPED labels, and `update`.
- `Xxl`: the second command set. It builds fresh clients on every call,
  has `configure_env` and OK/FAILED-only labels, and gates `list_group`
  and `list_job` on at least one login.
- `Core`: the shell prompt.
- `Utils`: `highlight` and `get_typer_commands`.

The settings are a `Settings` object. Each command that changes them is a
module-level method taking that object (`Commands.Goto`, `Commands.EnvSet`,
`Commands.AddCluster`, `Commands.RemoveCluster`, `Xxl.ConfigureEnv`). Each
is proved equal to a function on the settings value (`AfterGoto`,
`AfterEnvSet`, ...), and the lemmas state what that function means. Fan-out
over clusters is a loop over the cluster order. Each client is an object,
and distinct clusters hold distinct clients (`Client.Separate`), which
the pool is proved to keep.

## Model

| member | source | states |
|---|---|---|
| Base.DecimalRoundTrip | src/xxl_admin/commands.py:272-273 | the decimal spelling of every index passes `isnumeric` and `int` reads it back to the same index |
| Settings.ClustersOfMember | src/xxl_admin/settings.py:17-22 | a cluster id is in the union iff some environment has it as a cluster key; shared ids appear once |
| Settings.ClustersOfEmpty | src/xxl_admin/settings.py:18-22 | empty credentials give an empty cluster set |
| Settings.DefaultEnvHasNoCredentials | src/xxl_admin/settings.py:5-15 | on the defaults, the default environment "test" is listed but is not a key of the credentials, whose only key is "cn" with cluster "cn" |
| Settings.Settings.ClusterList | src/xxl_admin/settings.py:17-22 | the nested loop returns exactly the clusters of some environment, is empty for empty credentials and modifies nothing (the shell's settings class in core.py, lines 31-36, has the same union) |
| Completers.RemoveFirstAt | src/xxl_admin/completers.py:24-25 | `remove` takes out the first occurrence and keeps the others in order |
| Completers.TouchPresent | src/xxl_admin/completers.py:24-29 | a present word moves to the front, the others keep their order, the length is unchanged |
| Completers.TouchAbsentFull | src/xxl_admin/completers.py:26-29 | a new word in a full list drops the last word; the length stays the limit |
| Completers.TouchAbsentGrows | src/xxl_admin/completers.py:26-29 | a new word in a list not at the limit is put in front and nothing is dropped |
| Completers.TouchFrontIdempotent | src/xxl_admin/completers.py:24-29 | touching the first word leaves the list unchanged |
| Completers.TouchFacts | src/xxl_admin/completers.py:24-29 | after a touch the word is first, a duplicate-free list stays duplicate-free, a list within the limit stays within it |
| Completers.TouchedAllFacts | src/xxl_admin/completers.py:31-33 | after touching a batch the last word of the batch is first and the limit is kept |
| Completers.MostRecentlyUsedWords.Touch | src/xxl_admin/completers.py:19-29 | the in-place remove/pop/insert yields the touched list; the one raising case (pop on an empty list) is reported and changes nothing |
| Completers.MostRecentlyUsedWords.TouchWords | src/xxl_admin/completers.py:31-33 | touches the words left to right, stopping at the first touch that raises |
| Client.Unexpired | src/xxl_admin/client.py:27 | clearing expired cookies keeps exactly the unexpired ones |
| Client.StepOf | src/xxl_admin/client.py:24-43 | login resumes iff a cookie survives loading and expiry, refuses iff none survives and a credential is still empty after the typed fallback, else succeeds iff the status is 200 |
| Client.AcceptedThenResumed | src/xxl_admin/client.py:25-42 | after an accepted login that set an unexpired cookie, the next login at the same time reading the saved file resumes without a request |
| Client.GroupForm | src/xxl_admin/client.py:46-50 | the group-list form always has start and length, appname iff the name is non-empty, title iff the title is non-empty |
| Client.JobForm | src/xxl_admin/client.py:66-74 | the job-list form carries all seven keys with the given values |
| Client.AdminClient.constructor | src/xxl_admin/client.py:11-22 | a new client has the given URL and credentials, an empty jar and has sent nothing |
| Client.AdminClient.Login | src/xxl_admin/client.py:24-43 | returns true iff resumed or accepted; the new jar, request log and cookie file are given outright (`JarAfterLogin`, `LoginPosts`, `FileAfterLogin`): resume and refusal post nothing, a post happens otherwise, and only an accepted login saves the unexpired cookies to the file |
| Client.AdminClient.ListGroup | src/xxl_admin/client.py:45-54 | posts the group form and returns the reply's data on status 200, otherwise no groups |
| Client.AdminClient.ListJob | src/xxl_admin/client.py:56-78 | posts the job form and returns the reply's data on status 200, otherwise no jobs |
| Client.AdminClient.SearchJob | src/xxl_admin/client.py:80-85 | a result exists iff the login succeeds; it is then the listing of that handler with default filters; the jar and cookie file are the login's, and the log grows by the login's posts plus, only after a successful login, the job listing |
| Client.AdminClient.TriggerJob | src/xxl_admin/client.py:87-94 | returns true iff the id is positive, the status is 200 and the body code is 200; a non-positive id posts nothing |
| Client.AdminClient.StartJob | src/xxl_admin/client.py:96-103 | the same guard and success test for start |
| Client.AdminClient.StopJob | src/xxl_admin/client.py:105-112 | the same guard and success test for stop |
| Context.Selected | src/xxl_admin/context.py:49-60 | all-mode selects every configured cluster, else the configured ones of a non-empty list, else the default cluster when it is configured |
| Context.UnconfiguredDefaultSelectsNothing | src/xxl_admin/context.py:54-59 | without all-mode or a list, an unconfigured default cluster selects nothing |
| Context.PoolKeyInjective | src/xxl_admin/context.py:63 | within one environment, two clusters share a pool key iff they are equal |
| Context.PoolKeyCollision | src/xxl_admin/context.py:63 | an environment id containing ':' can share a key with another environment |
| Context.XxlContext.constructor | src/xxl_admin/context.py:20-21 | a new context has no settings and an empty pool |
| Context.XxlContext.Load | src/xxl_admin/context.py:26-32 | loading is a no-op once settings exist, otherwise it installs the stored settings or the defaults |
| Context.XxlContext.GetClientForCluster | src/xxl_admin/context.py:62-71 | a hit returns the cached client and changes nothing; a miss stores and returns a new client on that cluster's URL with the environment's credentials; the pool only grows and keeps distinct clients |
| Context.XxlContext.PoolClients | src/xxl_admin/context.py:56-60 | returns the pooled client of exactly the chosen clusters, all distinct; a client new to the pool is on its cluster's URL with the environment's user name and password, no cookies and no requests; new pool entries belong to those clusters |
| Context.XxlContext.GetClients | src/xxl_admin/context.py:42-60 | loads settings only if unset; the missing default environment is the KeyError outcome; the clients are those of the selected clusters, from the pool, which only grows; a client new to the pool starts with its cluster's URL, the environment's credentials, no cookies and no requests |
| Commands.AfterGoto | src/xxl_admin/commands.py:59-71 | a listed name becomes the default environment; a known cluster given as the only argument, or a known second argument, becomes the default cluster; an environment switch without a second argument keeps the cluster; an unknown target reports failure and keeps an environment switch already made |
| Commands.GotoEnvironmentOnly | src/xxl_admin/commands.py:59-62 | an environment with an empty second argument changes only the default environment |
| Commands.GotoClusterOnly | src/xxl_admin/commands.py:63-65 | a known cluster that is not an environment changes only the default cluster |
| Commands.Goto | src/xxl_admin/commands.py:49-71 | the in-place update is the transition of `AfterGoto` (the second command set's `goto` in xxl.py, lines 59-73, is the same transition) |
| Commands.AfterEnvSet | src/xxl_admin/commands.py:150-159 | the lower-cased id (or the default environment) is listed; a fresh entry only for an unlisted id; user name and password overwritten only when non-empty; giving either one for a listed id without credentials is the KeyError outcome |
| Commands.EnvSetWithoutCredentialsIsNoOp | src/xxl_admin/commands.py:153-159 | env-set of a listed, configured environment without user or password changes nothing |
| Commands.EnvSetOnDefaultsFails | src/xxl_admin/commands.py:150-157 | on the default settings, env-set of the current environment with a user name raises the KeyError |
| Commands.EnvSet | src/xxl_admin/commands.py:139-160 | the in-place update is the transition of `AfterEnvSet`; on the error outcome nothing changes |
| Commands.AfterAddCluster | src/xxl_admin/commands.py:117-118 | upserts the cluster into the default environment, other entries unchanged; KeyError outcome without that environment |
| Commands.AfterRemoveCluster | src/xxl_admin/commands.py:132-134 | deletes the cluster from the default environment when present, otherwise no change; the KeyError outcome, with no change, when the default environment has no credentials |
| Commands.RemoveClusterOnDefaultsFails | src/xxl_admin/commands.py:132-134 | on fresh settings remove-cluster is the KeyError outcome for any cluster, since the default environment "test" has no credentials |
| Commands.AddThenRemoveRestores | src/xxl_admin/commands.py:117-134 | adding a new cluster and removing it again restores the settings |
| Commands.AddCluster | src/xxl_admin/commands.py:107-119 | the in-place update is `AfterAddCluster` (the second command set's `add` in xxl.py, lines 116-120, is the same upsert) |
| Commands.RemoveCluster | src/xxl_admin/commands.py:123-135 | the in-place update is `AfterRemoveCluster` |
| Commands.MatchJob | src/xxl_admin/commands.py:262-279 | one job is chosen without a prompt, none gives the sentinel with id -1 and handler executor+"??", and a chosen job is one of the list |
| Commands.DigitStringSelects | src/xxl_admin/commands.py:272-277 | with several jobs, any digit string (leading zeros included) whose value is an index in range selects that job |
| Commands.TypedIndexSelects | src/xxl_admin/commands.py:272-277 | with several jobs, typing an index in range selects that job |
| Commands.BadAnswerUnresolved | src/xxl_admin/commands.py:272-279 | with several jobs, a non-numeric or out-of-range answer gives the sentinel |
| Commands.OnePromptPerAmbiguousCluster | src/xxl_admin/commands.py:261-270 | the number of prompts equals the number of clusters with two or more matches |
| Commands.PromptsCountAmbiguous | src/xxl_admin/commands.py:261-270 | before each cluster the resolver has prompted once per ambiguous cluster before it |
| Commands.ResolutionAt | src/xxl_admin/commands.py:261-279 | each cluster's entry is its match with the answer typed at its own turn, later clusters never overwriting it |
| Commands.ResolutionResolves | src/xxl_admin/commands.py:261-281 | the matches of all clusters cover exactly the clusters, each resolved at its turn |
| Commands.MatchOne | src/xxl_admin/commands.py:262-279 | one cluster is resolved with the next unused answer, which is consumed only when it prompts |
| Commands.ResolveJobs | src/xxl_admin/commands.py:249-281 | exactly one entry per cluster, each resolved by the answer of its turn in cluster order; one answer consumed per ambiguous cluster (the second command set's resolver in xxl.py, lines 235-267, has the same rules) |
| Commands.Classify | src/xxl_admin/commands.py:310-313 | OK iff the call returned true; otherwise FAILED for a positive id and SKIPPED for a non-positive id |
| Commands.OutcomeMeaning | src/xxl_admin/commands.py:459-462 | with the client's success test, SKIPPED is exactly an unresolved job and OK exactly an accepted call |
| Commands.Send | src/xxl_admin/commands.py:301-303 | one cluster's call returns the success test and posts the request only for a positive id |
| Commands.Dispatch | src/xxl_admin/commands.py:301-305 | every cluster gets one call with its id; each client posts only its own request |
| Commands.ActOnJobs | src/xxl_admin/commands.py:300-314 | resolve, send and label: every cluster labelled by `Classify` of its result |
| Commands.RunJob | src/xxl_admin/commands.py:286-314 | triggers the resolved job with the parameter and address on every cluster, labels as above |
| Commands.DisableJob | src/xxl_admin/commands.py:440-463 | stops the resolved job on every cluster, labels as above |
| Commands.EnableJob | src/xxl_admin/commands.py:468-491 | starts the resolved job on every cluster, labels as above |
| Commands.Resolved | src/xxl_admin/commands.py:413-416 | the clusters that get an update are exactly those with a positive matched id |
| Commands.UpdatesGoToResolved | src/xxl_admin/commands.py:413-426 | one update per resolved cluster, in cluster order; unresolved clusters are skipped |
| Commands.UpdatesCarryMatchedJob | src/xxl_admin/commands.py:417-423 | each update carries its matched job's id, group and handler |
| Commands.PrefixCarriesOver | src/xxl_admin/commands.py:420-423 | the title carries over between clusters and the prefix is applied again on each one |
| Commands.PlanUpdates | src/xxl_admin/commands.py:412-426 | the loop builds exactly the update requests of `UpdatesFrom` |
| Commands.LabelUpdates | src/xxl_admin/commands.py:429-435 | only clusters that got a task are reported, OK or FAILED |
| Commands.UpdateJob | src/xxl_admin/commands.py:394-435 | the evidently intended update (the corrected behaviour, see Findings): clusters without a resolved job get no task and no report; the others get OK or FAILED from their update's result |
| Commands.UpdateAsWritten | src/xxl_admin/commands.py:410-435 | the command as written ends with an AttributeError at a cluster with a resolved job, or finishes having printed no label |
| Commands.UpdateAsWrittenRaises | src/xxl_admin/commands.py:410-435 | as written, the command raises iff some cluster resolves a job, at the first such cluster, and otherwise prints nothing |
| Xxl.XxlClients | src/xxl_admin/xxl.py:31-47 | a new client for every selected configured cluster of the default environment on every call, no cache; KeyError outcome without that environment |
| Xxl.AfterConfigureEnv | src/xxl_admin/xxl.py:135-142 | an id with capitals is refused with no change; a listed id without credentials (the default "test" on fresh settings) is the KeyError outcome, with no change; otherwise the id is listed and its user name and password are overwritten, even with empty strings |
| Xxl.ConfigureOnDefaultsFails | src/xxl_admin/xxl.py:135-142 | on fresh settings configuring "test" is the KeyError outcome, whatever the user name and password |
| Xxl.ConfigureClearsWhereEnvSetKeeps | src/xxl_admin/xxl.py:141-142 | an empty password clears the stored one here, while env-set keeps it |
| Xxl.ConfigureEnv | src/xxl_admin/xxl.py:124-143 | the in-place update is `AfterConfigureEnv` |
| Xxl.Label | src/xxl_admin/xxl.py:298-301 | OK iff the call returned true, else FAILED; never SKIPPED |
| Xxl.UnresolvedFailsHere | src/xxl_admin/xxl.py:341-344 | an unresolved cluster is FAILED here and SKIPPED in the main console; resolved ones agree |
| Xxl.ActOnJobs | src/xxl_admin/xxl.py:286-302 | resolve, send and label with `Label` |
| Xxl.RunJob | src/xxl_admin/xxl.py:270-304 | triggers on every cluster, OK/FAILED labels |
| Xxl.DisableJob | src/xxl_admin/xxl.py:315-347 | stops on every cluster, OK/FAILED labels |
| Xxl.EnableJob | src/xxl_admin/xxl.py:350-382 | starts on every cluster, OK/FAILED labels |
| Xxl.AnyLogin | src/xxl_admin/xxl.py:160-161 | every client logs in once: each jar and request log is that client's login outcome; the result is true iff some login succeeded |
| Xxl.GroupsOf | src/xxl_admin/xxl.py:164-165 | every cluster gets a listing: the reply's groups on status 200, none otherwise; each client posts exactly one group listing for the name and keeps its cookies |
| Xxl.JobsOf | src/xxl_admin/xxl.py:207-208 | every cluster gets a listing: the reply's jobs on status 200, none otherwise; each client posts exactly one job listing for the name and group and keeps its cookies |
| Xxl.ListGroups | src/xxl_admin/xxl.py:159-165 | proceeds iff some login succeeds; then every cluster's groups are listed, otherwise nothing is; each client's cookies are those of its login, and its log grows by its login posts and then, only when the command proceeds, one group listing |
| Xxl.ListJobs | src/xxl_admin/xxl.py:202-208 | the same gate and the same per-client state for the job listing in the given group |
| Core.GetPrompt | src/xxl_admin/core.py:77-82 | the prompt reads back to the default environment and cluster whenever the environment id has no '\|'; it is `(XXL[` environment `\|` cluster `]) ` |
| Core.PromptRoundTrip | src/xxl_admin/core.py:82 | the prompt format reads back to its environment and cluster |
| Core.PromptAmbiguous | src/xxl_admin/core.py:82 | with a '\|' in the environment id two settings show the same prompt |
| Utils.MatchesSound | src/xxl_admin/utils.py:16-17 | the matches found are case-insensitive occurrences, in increasing order, not overlapping |
| Utils.NoMatchesIffAbsent | src/xxl_admin/utils.py:16-17 | nothing is found iff the substring does not occur case-insensitively |
| Utils.SubFromNoMatch | src/xxl_admin/utils.py:18 | substitution without a match returns the text |
| Utils.SubFromOneMatch | src/xxl_admin/utils.py:18 | substitution with a single match splices the replacement in at it |
| Utils.HighlightAbsent | src/xxl_admin/utils.py:16-18 | without an occurrence the output is the input |
| Utils.HighlightOneMatch | src/xxl_admin/utils.py:16-18 | with exactly one occurrence it is wrapped in the colour tags in its original casing, the rest unchanged |
| Utils.HighlightIgnoresCase | src/xxl_admin/utils.py:16 | an occurrence in another casing is found and keeps its casing |
| Utils.Highlight | src/xxl_admin/utils.py:13-19 | a missing or empty substring returns the input; otherwise one substitution per match of the original text (the shell's copy in core.py, lines 9-15, is the same function) |
| Utils.TyperCommands | src/xxl_admin/utils.py:22-29 | the keys are the group's command names; sub-groups are mapped by the same function, so this holds at every level |
| Utils.TyperCommandsNested | src/xxl_admin/utils.py:24-28 | each name maps to the entry of its last registration: None for a command, and for a group the recursively built listing of that group |

## Left out

- HTTP, the cookie jar's file format and `input`/`getpass` are not modelled. Replies, the clock, typed credentials and the cookie file's content are parameters.
- The cookie file's name uses Python's per-process salted `hash` of the base URL, so it is not stable across runs. The model has no file names, and the unused `md5` helper is not modelled.
- Concurrency (`create_task`, `gather`) is modelled as a sequential loop over the clusters in dictionary order. `gather` does not isolate a failing cluster, and the model claims no isolation.
- A failed login inside `search_job` returns None, and the resolver would then raise on `len`. The resolver is modelled over list results only.
- Rendering is not modelled: Rich tables, `print`, `print_json`, colour markup of the reports and `Prompt.ask`. A prompt answer is an input string.
- Settings file persistence (`load`/`save` with JSON and modification times) is not modelled. `XxlContext.stored` stands for the file's content. Typer wiring and the `coroutine_cmd` decorator are left out, and so is the `TyperCmd` shell apart from the prompt.
- `show_config`, `list_clusters`, `list_group`/`list_job` of the main console, `debug_job`, `add_job` and `show_job_log` are rendering or foreign calls (socket hostname, arrow time parsing) and are not modelled.
- Commands.UpdateJob: the source's loop evaluates `client.update_job(...)` at the first cluster with a resolved job, and the client defines no `update_job`, so the command raises AttributeError there: no update is sent and no OK/FAILED label is printed, and with no resolved job it prints nothing at all. `UpdateJob` models the evidently intended update instead, with each update's result as the `updated` parameter since no request format exists for it; the code as written is `UpdateAsWritten` (see Findings).
- The shell's `XxlSettings` in core.py has an extra field `name` ("xxl"), which the model does not carry. Its other defaults equal `Settings.DefaultSettings`.
- `XxlContext.__init__` in core.py and its `load`, which leaves settings unset when there is no file, belong to persistence and are not modelled.
- Environment entries are values in the model. The source's `XxlEnvSettings()` default objects share no state here.
- Base.IsNumeric: accepts ASCII digits only, where `str.isnumeric` also accepts other numerals. For an answer such as "²", `isnumeric()` is true and `int()` then raises ValueError, ending the command; the model gives the unresolved sentinel. For "٣" (Arabic-Indic three) or a full-width digit, `int()` reads the value and the source selects that index; the model gives the sentinel.
- Base.Lower: `str.lower` folds all of Unicode; the model folds ASCII only, and so does `Utils.MatchesAt` for `re.IGNORECASE`.
- Utils.Highlight: the replacement text is inserted literally. Python's `re.sub` would interpret backslashes in it, and the model does not. The case of several matches is modelled literally (`Rewritten`), but no property of it is proved: repeated substitution nests tags and can match inside the markup.
- Commands.ResolveJobs: requires at least one typed answer per ambiguous cluster; running out of input (EOF at the prompt) is not modelled.
- Commands.Dispatch: requires that no two clusters share a client object, which the pool (`Context.XxlContext.GetClients`) and `Xxl.XxlClients` are proved to guarantee.
- Xxl.AnyLogin: the cookie file each login saves is not threaded to the other clients.
- Commands.ActOnJobs: the search that precedes resolution (`search_job` on every client: a login, then a job listing) is not run here; its results are the `found` parameter, so the request logs this member states leave out those login and listing posts. `Client.AdminClient.SearchJob` states them for one client.
- Commands.RunJob: as for Commands.ActOnJobs, the search's login and listing posts are not in the stated request logs; the search results are the `found` parameter.
- Commands.DisableJob: as for Commands.ActOnJobs, the search's login and listing posts are not in the stated request logs; the search results are the `found` parameter.
- Commands.EnableJob: as for Commands.ActOnJobs, the search's login and listing posts are not in the stated request logs; the search results are the `found` parameter.
- Commands.UpdateJob: as for Commands.ActOnJobs, the search's login and listing posts are not modelled; the search results are the `found` parameter.
- Xxl.ActOnJobs: as for Commands.ActOnJobs, the search's login and listing posts are not in the stated request logs; the search results are the `found` parameter.
- Xxl.RunJob: as for Commands.ActOnJobs, the search's login and listing posts are not in the stated request logs; the search results are the `found` parameter.
- Xxl.DisableJob: as for Commands.ActOnJobs, the search's login and listing posts are not in the stated request logs; the search results are the `found` parameter.
- Xxl.EnableJob: as for Commands.ActOnJobs, the search's login and listing posts are not in the stated request logs; the search results are the `found` parameter.
- Context.XxlContext.constructor: the source's constructor reads the settings file's modification time, which raises when the file does not exist, so a context is only made for an existing file and the defaults branch of `load` is never taken there. The model accepts a missing file (`stored` is None) and `Load` then installs the defaults, which is what `load` itself does.
- `login` keeps no per-process flag: it reloads the cookie file and clears expired cookies on every call, and concurrent logins of one client are not serialised. The model has the same behaviour, one login at a time.

## Findings

| source | as written | input that shows it | evidently intended | confidence | as-written member | corrected member |
|---|---|---|---|---|---|---|
| src/xxl_admin/commands.py:425 | `job update` calls `client.update_job`, which `XxlAdminClient` (src/xxl_admin/client.py) does not define | any selected cluster whose job resolves to an id > 0, e.g. a single match for the handler | send one update per resolved cluster with its job's id, group and handler and the carried title, cron and author, then print OK or FAILED per updated cluster | high, from reading the code; not executed | Commands.UpdateAsWrittenRaises | Commands.UpdateJob |
