/** One client of one XXL-Job admin instance: a cookie-based session with
    login-on-demand, the two list calls and the three guarded job mutations.
    The HTTP exchange is abstracted: each call takes the reply it receives and
    appends the request it issues to `sent`. */
module Client {
  import opened Base

  /** When a cookie stops being valid: never for a session cookie, else at a time. */
  datatype Expiry = Session | At(time: int)

  /** A cookie jar: cookie name to expiry. */
  type Jar = map<string, Expiry>

  /** `Cookie.is_expired`: a cookie with an expiry time at or before now. */
  predicate Expired(e: Expiry, now: int) {
    e.At? && e.time <= now
  }

  /** The jar after `clear_expired_cookies` at time now. */
  function Unexpired(jar: Jar, now: int): (r: Jar)
    ensures r.Keys <= jar.Keys
    ensures forall n :: n in r ==> r[n] == jar[n] && !Expired(r[n], now)
    ensures forall n :: n in jar && !Expired(jar[n], now) ==> n in r
  {
    map n | n in jar && !Expired(jar[n], now) :: jar[n]
  }

  /** A form field value; Null is Python's None. */
  datatype FormValue = Num(n: int) | Text(s: string) | Null

  type Form = map<string, FormValue>

  datatype Request = Post(path: string, form: Form)

  /** The reply to a mutating call: HTTP status and the body's `code`. */
  datatype Reply = Reply(status: int, code: int)

  /** The reply to a list call: HTTP status and the body's `data`. */
  datatype ListReply<T> = ListReply(status: int, data: seq<T>)

  /** A job definition as the backend returns it. */
  datatype Job = Job(
    id: int,
    jobGroup: int,
    jobDesc: string,
    executorHandler: string,
    triggerStatus: int,
    author: string,
    jobCron: Option<string>,
    scheduleConf: Option<string>)

  /** An executor group as the backend returns it. */
  datatype Group = Group(id: int, appname: string, title: string, addressType: int, addressList: string)

  const LoginPath := "/xxl-job-admin/login"
  const GroupListPath := "/xxl-job-admin/jobgroup/pageList"
  const JobListPath := "/xxl-job-admin/jobinfo/pageList"
  const TriggerPath := "/xxl-job-admin/jobinfo/trigger"
  const StartPath := "/xxl-job-admin/jobinfo/start"
  const StopPath := "/xxl-job-admin/jobinfo/stop"

  function OptText(s: Option<string>): FormValue {
    if s.Some? then Text(s.value) else Null
  }

  /** What one login call meets: the clock, the cookie file (None if it does
      not exist), what the user would type when asked for a user name or a
      password, and the server's answer to the login post. */
  datatype LoginInput = LoginInput(
    now: int,
    cookieFile: Option<Jar>,
    typedUser: string,
    typedPassword: string,
    status: int,
    setCookies: Jar)

  /** The four ways a login ends. */
  datatype LoginStep = Resumed | MissingCredentials | Rejected | Accepted

  /** The jar after loading the cookie file (if any) and dropping expired cookies. */
  function Kept(jar: Jar, input: LoginInput): Jar {
    Unexpired(if input.cookieFile.Some? then jar + input.cookieFile.value else jar, input.now)
  }

  /** The configured value, or what the user types when it is empty. */
  function OrTyped(configured: string, typed: string): string {
    if configured != "" then configured else typed
  }

  /** Which way a login goes, given the jar and the configured credentials. */
  function StepOf(jar: Jar, username: string, password: string, input: LoginInput): (s: LoginStep)
    ensures s == Resumed <==> Kept(jar, input) != map[]
    ensures s == MissingCredentials <==>
      Kept(jar, input) == map[] && (OrTyped(username, input.typedUser) == "" || OrTyped(password, input.typedPassword) == "")
    ensures s == Accepted ==> input.status == 200
    ensures s == Rejected ==> input.status != 200
  {
    if Kept(jar, input) != map[] then Resumed
    else if OrTyped(username, input.typedUser) == "" || OrTyped(password, input.typedPassword) == "" then
      MissingCredentials
    else if input.status != 200 then Rejected
    else Accepted
  }

  /** `login()` returns true exactly when the session was resumed or the post was accepted. */
  predicate LoginSucceeds(jar: Jar, username: string, password: string, input: LoginInput) {
    StepOf(jar, username, password, input) in {Resumed, Accepted}
  }

  /** The jar after a login: the kept cookies, plus the reply's cookies when
      the login posts. */
  function JarAfterLogin(jar: Jar, username: string, password: string, input: LoginInput): Jar {
    if StepOf(jar, username, password, input) in {Resumed, MissingCredentials} then Kept(jar, input)
    else Kept(jar, input) + input.setCookies
  }

  /** The requests a login issues: one login post with the configured or
      typed credentials, unless it resumes or the credentials are empty. */
  function LoginPosts(jar: Jar, username: string, password: string, input: LoginInput): seq<Request> {
    if StepOf(jar, username, password, input) in {Resumed, MissingCredentials} then []
    else [Post(LoginPath, LoginForm(OrTyped(username, input.typedUser), OrTyped(password, input.typedPassword)))]
  }

  /** The cookie file after a login: rewritten with the unexpired cookies
      only when the post is accepted. */
  function FileAfterLogin(jar: Jar, username: string, password: string, input: LoginInput): Option<Jar> {
    if StepOf(jar, username, password, input) == Accepted
    then Some(Unexpired(JarAfterLogin(jar, username, password, input), input.now))
    else input.cookieFile
  }

  function LoginForm(user: string, password: string): Form {
    map["userName" := Text(user), "password" := Text(password)]
  }

  /** The form of a group listing: paging always, the name and title filters only when given. */
  function GroupForm(name: string, title: string, start: int, length: int): (f: Form)
    ensures "start" in f && f["start"] == Num(start)
    ensures "length" in f && f["length"] == Num(length)
    ensures "appname" in f <==> name != ""
    ensures "title" in f <==> title != ""
    ensures "appname" in f ==> f["appname"] == Text(name)
    ensures "title" in f ==> f["title"] == Text(title)
    ensures f.Keys <= {"start", "length", "appname", "title"}
  {
    var paging := map["start" := Num(start), "length" := Num(length)];
    var named := if |name| > 0 then paging["appname" := Text(name)] else paging;
    if |title| > 0 then named["title" := Text(title)] else named
  }

  /** The form of a job listing: all seven filters, always. */
  function JobForm(executor: string, jobDesc: string, jobGroup: int, status: int, author: string, start: int, length: int): (f: Form)
    ensures f.Keys == {"executorHandler", "jobDesc", "jobGroup", "triggerStatus", "author", "start", "length"}
    ensures f["executorHandler"] == Text(executor) && f["jobDesc"] == Text(jobDesc)
    ensures f["jobGroup"] == Num(jobGroup) && f["triggerStatus"] == Num(status)
    ensures f["author"] == Text(author) && f["start"] == Num(start) && f["length"] == Num(length)
  {
    map[
      "executorHandler" := Text(executor),
      "jobDesc" := Text(jobDesc),
      "jobGroup" := Num(jobGroup),
      "triggerStatus" := Num(status),
      "author" := Text(author),
      "start" := Num(start),
      "length" := Num(length)]
  }

  /** A mutating call succeeds iff the job id is positive (otherwise nothing
      is sent), the HTTP status is 200 and the body's code is 200. */
  predicate MutationOk(jobId: int, reply: Reply) {
    jobId > 0 && reply.status == 200 && reply.code == 200
  }

  /** After an accepted login whose reply set an unexpired cookie, the next
      login at the same time, reading the file the first one saved, resumes
      the session: it issues no request. */
  lemma AcceptedThenResumed(jar: Jar, username: string, password: string, first: LoginInput, second: LoginInput)
    requires StepOf(jar, username, password, first) == Accepted
    requires exists n :: n in first.setCookies && !Expired(first.setCookies[n], first.now)
    requires second.now == first.now
    requires second.cookieFile == Some(Unexpired(Kept(jar, first) + first.setCookies, first.now))
    ensures StepOf(Kept(jar, first) + first.setCookies, username, password, second) == Resumed
  {
    var n :| n in first.setCookies && !Expired(first.setCookies[n], first.now);
    var jar2 := Kept(jar, first) + first.setCookies;
    assert jar2[n] == first.setCookies[n];
    var saved := Unexpired(jar2, first.now);
    assert n in saved && saved[n] == jar2[n];
    var loaded := jar2 + saved;
    assert loaded[n] == jar2[n];
    assert n in Unexpired(loaded, second.now);
  }

  class AdminClient {
    const baseUrl: string
    const username: string
    const password: string
    /** The session's cookies. */
    var jar: Jar
    /** Every request this client has issued, oldest first. */
    var sent: seq<Request>

    constructor (baseUrl: string, username: string, password: string)
      ensures this.baseUrl == baseUrl && this.username == username && this.password == password
      ensures jar == map[] && sent == []
    {
      this.baseUrl := baseUrl;
      this.username := username;
      this.password := password;
      jar := map[];
      sent := [];
    }

    /** Loads the cookie file into the jar, drops expired cookies and resumes
        if any cookie is left; otherwise refuses empty credentials, or posts a
        login and saves the jar's unexpired cookies to the file when the
        status is 200. Returns the result and the cookie file afterwards. */
    method Login(input: LoginInput) returns (ok: bool, cookieFile: Option<Jar>)
      modifies this
      ensures ok <==> LoginSucceeds(old(jar), username, password, input)
      ensures var step := StepOf(old(jar), username, password, input);
        && (step in {Resumed, MissingCredentials} ==>
              jar == Kept(old(jar), input) && sent == old(sent) && cookieFile == input.cookieFile)
        && (step in {Rejected, Accepted} ==>
              jar == Kept(old(jar), input) + input.setCookies
              && sent == old(sent) + [Post(LoginPath,
                   LoginForm(OrTyped(username, input.typedUser), OrTyped(password, input.typedPassword)))])
        && (step == Rejected ==> cookieFile == input.cookieFile)
        && (step == Accepted ==> cookieFile == Some(Unexpired(jar, input.now)))
      ensures jar == JarAfterLogin(old(jar), username, password, input)
      ensures sent == old(sent) + LoginPosts(old(jar), username, password, input)
      ensures cookieFile == FileAfterLogin(old(jar), username, password, input)
    {
      cookieFile := input.cookieFile;
      if cookieFile.Some? {
        jar := jar + cookieFile.value;
      }
      jar := Unexpired(jar, input.now);
      assert jar == Kept(old(jar), input);
      if jar != map[] {
        return true, cookieFile;
      }
      var user := if username != "" then username else input.typedUser;
      var pass := if password != "" then password else input.typedPassword;
      if |user| == 0 || |pass| == 0 {
        return false, cookieFile;
      }
      sent := sent + [Post(LoginPath, LoginForm(user, pass))];
      jar := jar + input.setCookies;
      if input.status != 200 {
        return false, cookieFile;
      }
      cookieFile := Some(Unexpired(jar, input.now));
      ok := true;
    }

    /** Posts a group listing; the reply's data on status 200, otherwise no groups. */
    method ListGroup(name: string, title: string, start: int, length: int, reply: ListReply<Group>)
      returns (groups: seq<Group>)
      modifies this`sent
      ensures sent == old(sent) + [Post(GroupListPath, GroupForm(name, title, start, length))]
      ensures groups == if reply.status == 200 then reply.data else []
    {
      var payload := map["start" := Num(start), "length" := Num(length)];
      if |name| > 0 {
        payload := payload["appname" := Text(name)];
      }
      if |title| > 0 {
        payload := payload["title" := Text(title)];
      }
      sent := sent + [Post(GroupListPath, payload)];
      if reply.status == 200 {
        return reply.data;
      }
      return [];
    }

    /** Posts a job listing; the reply's data on status 200, otherwise no jobs. */
    method ListJob(executor: string, jobDesc: string, jobGroup: int, status: int, author: string,
                   start: int, length: int, reply: ListReply<Job>)
      returns (jobs: seq<Job>)
      modifies this`sent
      ensures sent == old(sent) + [Post(JobListPath, JobForm(executor, jobDesc, jobGroup, status, author, start, length))]
      ensures jobs == if reply.status == 200 then reply.data else []
    {
      var payload := JobForm(executor, jobDesc, jobGroup, status, author, start, length);
      sent := sent + [Post(JobListPath, payload)];
      if reply.status == 200 {
        return reply.data;
      }
      return [];
    }

    /** Logs in, then lists the jobs whose handler matches executor with every
        other filter at its default (no group, any status, first 30). None when
        the login fails, and then no listing is posted. */
    method SearchJob(executor: string, input: LoginInput, reply: ListReply<Job>)
      returns (jobs: Option<seq<Job>>, cookieFile: Option<Jar>)
      modifies this
      ensures jobs.Some? <==> LoginSucceeds(old(jar), username, password, input)
      ensures jobs.Some? ==> jobs.value == if reply.status == 200 then reply.data else []
      ensures jar == JarAfterLogin(old(jar), username, password, input)
      ensures cookieFile == FileAfterLogin(old(jar), username, password, input)
      ensures sent == old(sent) + LoginPosts(old(jar), username, password, input)
        + (if jobs.Some? then [Post(JobListPath, JobForm(executor, "", -1, -1, "", 0, 30))] else [])
    {
      var ok;
      ok, cookieFile := Login(input);
      if !ok {
        return None, cookieFile;
      }
      var found := ListJob(executor, "", -1, -1, "", 0, 30, reply);
      jobs := Some(found);
    }

    /** Triggers one run of a job; a non-positive id sends nothing and fails. */
    method TriggerJob(jobId: int, param: Option<string>, addressList: Option<string>, reply: Reply)
      returns (ok: bool)
      modifies this`sent
      ensures ok == MutationOk(jobId, reply)
      ensures jobId <= 0 ==> sent == old(sent)
      ensures jobId > 0 ==> sent == old(sent) + [Post(TriggerPath,
        map["id" := Num(jobId), "executorParam" := OptText(param), "addressList" := OptText(addressList)])]
    {
      if jobId <= 0 {
        return false;
      }
      var payload := map["id" := Num(jobId), "executorParam" := OptText(param), "addressList" := OptText(addressList)];
      sent := sent + [Post(TriggerPath, payload)];
      if reply.status != 200 {
        return false;
      }
      return reply.code == 200;
    }

    /** Enables a job's schedule; a non-positive id sends nothing and fails. */
    method StartJob(jobId: int, reply: Reply) returns (ok: bool)
      modifies this`sent
      ensures ok == MutationOk(jobId, reply)
      ensures jobId <= 0 ==> sent == old(sent)
      ensures jobId > 0 ==> sent == old(sent) + [Post(StartPath, map["id" := Num(jobId)])]
    {
      if jobId <= 0 {
        return false;
      }
      sent := sent + [Post(StartPath, map["id" := Num(jobId)])];
      if reply.status != 200 {
        return false;
      }
      return reply.code == 200;
    }

    /** Disables a job's schedule; a non-positive id sends nothing and fails. */
    method StopJob(jobId: int, reply: Reply) returns (ok: bool)
      modifies this`sent
      ensures ok == MutationOk(jobId, reply)
      ensures jobId <= 0 ==> sent == old(sent)
      ensures jobId > 0 ==> sent == old(sent) + [Post(StopPath, map["id" := Num(jobId)])]
    {
      if jobId <= 0 {
        return false;
      }
      sent := sent + [Post(StopPath, map["id" := Num(jobId)])];
      if reply.status != 200 {
        return false;
      }
      return reply.code == 200;
    }
  }

  /** The keys a and b, when distinct keys of clients, hold distinct clients. */
  predicate Apart(clients: map<string, AdminClient>, a: string, b: string) {
    a in clients && b in clients && a != b ==> clients[a] != clients[b]
  }

  /** No two keys share a client object. */
  ghost predicate Separate(clients: map<string, AdminClient>) {
    forall a, b :: Apart(clients, a, b)
  }

  /** Storing under k a client that no other key holds keeps the keys apart. */
  lemma SeparateStore(clients: map<string, AdminClient>, k: string, v: AdminClient)
    requires Separate(clients)
    requires forall c :: c in clients && c != k ==> clients[c] != v
    ensures Separate(clients[k := v])
  {
    var stored := clients[k := v];
    forall a, b ensures Apart(stored, a, b) {
      if a != k && b != k {
        assert Apart(clients, a, b);
      }
    }
  }
}
