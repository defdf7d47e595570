/** upload.py: post the exported CSV file to HunchLab's data service under
    token authentication, then poll the import job until the service stops
    answering 202, and turn what happened into the process's exit status. */
module Upload {
  import opened Wrappers

  // ---------------------------------------------------------------------
  // The processing-status table
  // ---------------------------------------------------------------------

  /** `PROCESSING_STATUSES`: the job status codes the service reports and
      their labels. */
  const Statuses: map<string, string> :=
    map["SUBM" := "Submitted", "PROC" := "Processing", "COMP" := "Completed",
        "FAIL" := "Failed", "CANC" := "Canceled", "TERM" := "Terminated",
        "TIME" := "Timed Out"]

  /** `PROCESSING_STATUSES[code]`: the label, or None where the dictionary
      lookup raises KeyError. */
  function StatusLabel(code: string): (r: Option<string>)
    ensures r.Some? <==> code in {"SUBM", "PROC", "COMP", "FAIL", "CANC", "TERM", "TIME"}
    ensures r == Some("Completed") <==> code == "COMP"
  {
    if code in Statuses then Some(Statuses[code]) else None
  }

  /** The code a label stands for: the inverse of the table. */
  function CodeOf(name: string): Option<string>
  {
    if name == "Submitted" then Some("SUBM")
    else if name == "Processing" then Some("PROC")
    else if name == "Completed" then Some("COMP")
    else if name == "Failed" then Some("FAIL")
    else if name == "Canceled" then Some("CANC")
    else if name == "Terminated" then Some("TERM")
    else if name == "Timed Out" then Some("TIME")
    else None
  }

  /** The table has seven codes and each label gives its code back, so no
      two codes share a label and exactly one code means Completed. */
  lemma StatusesDistinct()
    ensures |Statuses.Keys| == 7
    ensures forall c :: c in Statuses ==> CodeOf(Statuses[c]) == Some(c)
    ensures forall c, d :: c in Statuses && d in Statuses && Statuses[c] == Statuses[d] ==> c == d
  {
    assert Statuses.Keys == {"SUBM", "PROC", "COMP", "FAIL", "CANC", "TERM", "TIME"};
    forall c | c in Statuses
      ensures CodeOf(Statuses[c]) == Some(c)
    {
      assert c in {"SUBM", "PROC", "COMP", "FAIL", "CANC", "TERM", "TIME"};
    }
  }

  // ---------------------------------------------------------------------
  // Token authentication
  // ---------------------------------------------------------------------

  const AuthScheme := "Token "

  /** The value `TokenAuth` puts in the Authorization header. */
  function AuthValue(token: string): (v: string)
    ensures |v| == |AuthScheme| + |token|
  {
    AuthScheme + token
  }

  /** How the service reads the token back out of the header. */
  function TokenOf(value: string): Option<string>
  {
    if |value| >= |AuthScheme| && value[..|AuthScheme|] == AuthScheme
    then Some(value[|AuthScheme|..]) else None
  }

  /** The header carries the token unaltered: reading it back gives it. */
  lemma AuthValueRoundTrip(token: string)
    ensures TokenOf(AuthValue(token)) == Some(token)
  {
    var v := AuthValue(token);
    assert v[..|AuthScheme|] == AuthScheme && v[|AuthScheme|..] == token;
  }

  /** A request on its way out: the headers are updated in place by the
      session's authentication hook. */
  class PreparedRequest {
    const verb: string
    const url: string
    var headers: map<string, string>

    constructor (verb: string, url: string)
      ensures this.verb == verb && this.url == url && headers == map[]
    {
      this.verb := verb;
      this.url := url;
      headers := map[];
    }
  }

  /** `TokenAuth`. The token is whatever the configuration gave, None when
      reading it failed. */
  class TokenAuth {
    const token: Option<string>

    constructor (token: Option<string>)
      ensures this.token == token
    {
      this.token := token;
    }

    /** `__call__`: sets Authorization to `Token <token>`, leaves every
        other header alone and hands back the same request. With no token
        the concatenation raises TypeError (ok is false) before anything is
        assigned. */
    method Call(r: PreparedRequest) returns (ok: bool, same: PreparedRequest)
      modifies r
      ensures same == r
      ensures ok <==> token.Some?
      ensures r.headers == if ok then old(r.headers)["Authorization" := AuthValue(token.value)] else old(r.headers)
    {
      same := r;
      if token.None? {
        return false, same;
      }
      r.headers := r.headers["Authorization" := AuthValue(token.value)];
      ok := true;
    }
  }

  /** An HTTP call as it went on the wire. */
  datatype HttpCall = HttpCall(verb: string, url: string, headers: map<string, string>)

  /** The headers of every call the session sends. */
  function AuthHeaders(token: string): map<string, string>
  {
    map["Authorization" := AuthValue(token)]
  }

  /** One call through the session: build the request, let the token hook
      update it, and send it as it then is; None when the hook raises, in
      which case nothing is sent. */
  method Send(auth: TokenAuth, verb: string, url: string) returns (call: Option<HttpCall>)
    ensures call.Some? <==> auth.token.Some?
    ensures call.Some? ==> call.value == HttpCall(verb, url, AuthHeaders(auth.token.value))
    ensures call.Some? ==> TokenOf(call.value.headers["Authorization"]) == auth.token
  {
    var request := new PreparedRequest(verb, url);
    var ok, prepared := auth.Call(request);
    if !ok {
      return None;
    }
    AuthValueRoundTrip(auth.token.value);
    call := Some(HttpCall(prepared.verb, prepared.url, prepared.headers));
  }

  // ---------------------------------------------------------------------
  // Configuration
  // ---------------------------------------------------------------------

  /** What the program raises and does not catch. */
  datatype UploadError =
    | NoSectionError(section: string)  // `config.options` on a missing section
    | KeyError(key: string)            // a missing option, or a status code not in the table
    | TypeError                        // `None` concatenated to a string
    | MissingJobId                     // the 202 body lacks `import_job_id`

  /** A parsed configuration file: each section's option names, and
      `config.get` (None where it raises, for instance on a bad
      interpolation). */
  datatype Config = Config(sections: map<string, seq<string>>, get: (string, string) -> Option<string>)

  /** The options of a section with their values, None for one whose read
      raised. */
  type SectionValues = map<string, Option<string>>

  /** What `_config_section_map` returns. */
  function SectionMap(config: Config, section: string): (r: Result<SectionValues, UploadError>)
    ensures r.Err? <==> section !in config.sections
    ensures r.Err? ==> r.error == NoSectionError(section)
    ensures r.Ok? ==> r.value.Keys == set o | o in config.sections[section]
    ensures r.Ok? ==> forall o :: o in r.value ==> r.value[o] == config.get(section, o)
  {
    if section !in config.sections then Err(NoSectionError(section))
    else Ok(map o | o in config.sections[section] :: config.get(section, o))
  }

  /** `_config_section_map`: one entry per option of the section, filled in
      option by option; a read that raises stores None instead of stopping. */
  method ConfigSectionMap(config: Config, section: string) returns (r: Result<SectionValues, UploadError>)
    ensures r.Err? <==> section !in config.sections
    ensures r.Err? ==> r.error == NoSectionError(section)
    ensures r.Ok? ==> r.value.Keys == set o | o in config.sections[section]
    ensures r.Ok? ==> forall o :: o in r.value ==> r.value[o] == config.get(section, o)
    ensures r == SectionMap(config, section)
  {
    if section !in config.sections {
      return Err(NoSectionError(section));
    }
    var options := config.sections[section];
    var result: SectionValues := map[];
    var i := 0;
    while i < |options|
      invariant 0 <= i <= |options|
      invariant result.Keys == set o | o in options[..i]
      invariant forall o :: o in result ==> result[o] == config.get(section, o)
    {
      assert options[..i + 1] == options[..i] + [options[i]];
      result := result[options[i] := config.get(section, options[i])];
      i := i + 1;
    }
    assert options[..i] == options;
    assert result == map o | o in options :: config.get(section, o);
    r := Ok(result);
  }

  /** The three settings `main` reads from the Server section. */
  datatype Settings = Settings(endpoint: string, certificate: Option<string>, token: Option<string>)

  /** The data-service endpoint of a server. */
  function Endpoint(baseurl: string): (url: string)
    ensures |url| > |baseurl| && url[..|baseurl|] == baseurl
    ensures url[|baseurl|..] == "/api/dataservice/"
  {
    baseurl + "/api/dataservice/"
  }

  /** Where an import job is polled: the upload endpoint followed by the
      job id. */
  function JobUrl(endpoint: string, jobId: string): (url: string)
    ensures |url| == |endpoint| + |jobId|
    ensures url[..|endpoint|] == endpoint && url[|endpoint|..] == jobId
  {
    endpoint + jobId
  }

  /** `server['baseurl']`, `baseurl + '/api/dataservice/'`,
      `server['certificateauthority']`, `server['token']`, in that order:
      a missing option raises KeyError and a baseurl of None raises
      TypeError. */
  function ReadSettings(server: SectionValues): (r: Result<Settings, UploadError>)
    ensures r.Ok? <==> "baseurl" in server && server["baseurl"].Some? &&
                       "certificateauthority" in server && "token" in server
    ensures r.Ok? ==> r.value == Settings(Endpoint(server["baseurl"].value),
                                          server["certificateauthority"], server["token"])
    ensures r.Err? && "baseurl" in server ==> r.error != KeyError("baseurl")
    ensures r == Err(TypeError) <==> "baseurl" in server && server["baseurl"].None?
    ensures "baseurl" !in server ==> r == Err(KeyError("baseurl"))
    ensures "baseurl" in server && server["baseurl"].Some? && "certificateauthority" !in server ==>
              r == Err(KeyError("certificateauthority"))
    ensures ("baseurl" in server && server["baseurl"].Some? && "certificateauthority" in server &&
             "token" !in server) ==> r == Err(KeyError("token"))
  {
    if "baseurl" !in server then Err(KeyError("baseurl"))
    else if server["baseurl"].None? then Err(TypeError)
    else if "certificateauthority" !in server then Err(KeyError("certificateauthority"))
    else if "token" !in server then Err(KeyError("token"))
    else Ok(Settings(Endpoint(server["baseurl"].value), server["certificateauthority"], server["token"]))
  }

  // ---------------------------------------------------------------------
  // Submission
  // ---------------------------------------------------------------------

  /** The three outcomes of the upload POST. */
  datatype Submission = AuthRejected | SubmitFailed | Accepted

  /** The status checks after the POST: 401 first, then anything but 202. */
  function Classify(status: int): (s: Submission)
    ensures s == AuthRejected <==> status == 401
    ensures s == SubmitFailed <==> status != 401 && status != 202
    ensures s == Accepted <==> status == 202
  {
    if status == 401 then AuthRejected
    else if status != 202 then SubmitFailed
    else Accepted
  }

  // ---------------------------------------------------------------------
  // Polling
  // ---------------------------------------------------------------------

  const Pending := 202

  /** A poll answer: its HTTP status, `str(processing_status)` and `log`. */
  datatype PollResponse = PollResponse(status: int, code: string, log: string)

  /** How polling ended: a non-202 answer with a known code (its label and
      log), a code the table does not know, or no answer left in the
      sequence the model was given while the job was still pending. */
  datatype PollEnd = Finished(final: string, log: string) | UnknownStatus(code: string) | RanOut

  /** How many 15-second sleeps polling took, and how it ended. */
  datatype PollRun = PollRun(sleeps: nat, end: PollEnd)

  /** The polling loop over the answers the service gives, in order. While
      an answer is 202 its code is looked up (and logged) and the loop
      sleeps and polls again; the first other answer ends the loop and has
      its code looked up. */
  function Polling(rs: seq<PollResponse>): (r: PollRun)
    ensures r.sleeps <= |rs|
    ensures forall i :: 0 <= i < r.sleeps ==> rs[i].status == Pending && rs[i].code in Statuses
    ensures r.end.RanOut? <==> r.sleeps == |rs|
    ensures r.end.Finished? ==>
              && rs[r.sleeps].status != Pending && rs[r.sleeps].code in Statuses
              && r.end == Finished(Statuses[rs[r.sleeps].code], rs[r.sleeps].log)
    ensures r.end.UnknownStatus? ==> rs[r.sleeps].code !in Statuses && r.end.code == rs[r.sleeps].code
  {
    if rs == [] then PollRun(0, RanOut)
    else if rs[0].code !in Statuses then PollRun(0, UnknownStatus(rs[0].code))
    else if rs[0].status != Pending then PollRun(0, Finished(Statuses[rs[0].code], rs[0].log))
    else
      var rest := Polling(rs[1..]);
      PollRun(rest.sleeps + 1, rest.end)
  }

  /** The number of answers before the first one that is not 202. */
  function LeadingPending(rs: seq<PollResponse>): (n: nat)
    ensures n <= |rs|
    ensures forall i :: 0 <= i < n ==> rs[i].status == Pending
    ensures n < |rs| ==> rs[n].status != Pending
  {
    if rs == [] || rs[0].status != Pending then 0 else 1 + LeadingPending(rs[1..])
  }

  /** When polling finishes normally it has slept once per leading 202
      answer and reports the first other answer. */
  lemma {:induction false} FinishedAfterLeadingPending(rs: seq<PollResponse>)
    requires Polling(rs).end.Finished?
    ensures Polling(rs).sleeps == LeadingPending(rs)
    ensures Polling(rs).end.log == rs[LeadingPending(rs)].log
  {
    if rs[0].status == Pending {
      var tail := rs[1..];
      FinishedAfterLeadingPending(tail);
      assert tail[LeadingPending(tail)] == rs[LeadingPending(rs)];
    }
  }

  /** Polling ends in Completed exactly when every leading 202 answer has a
      known code and the first other answer's code is COMP. */
  lemma PollingCompleted(rs: seq<PollResponse>)
    ensures Polling(rs).end.Finished? && Polling(rs).end.final == "Completed" <==>
              var n := LeadingPending(rs);
              && n < |rs| && rs[n].code == "COMP"
              && forall i :: 0 <= i < n ==> rs[i].code in Statuses
  {
    var r := Polling(rs);
    var n := LeadingPending(rs);
    if r.end.Finished? {
      FinishedAfterLeadingPending(rs);
      assert StatusLabel(rs[n].code) == Some(r.end.final);
    } else if n < |rs| && rs[n].code == "COMP" && forall i :: 0 <= i < n ==> rs[i].code in Statuses {
      PendingKnownFinishes(rs);
      assert false;
    }
  }

  /** When every leading 202 answer has a known code and so has the first
      other answer, polling finishes at that answer. */
  lemma {:induction false} PendingKnownFinishes(rs: seq<PollResponse>)
    requires LeadingPending(rs) < |rs|
    requires forall i :: 0 <= i <= LeadingPending(rs) ==> rs[i].code in Statuses
    ensures Polling(rs).end.Finished?
  {
    if rs[0].status == Pending {
      var tail := rs[1..];
      assert LeadingPending(rs) == 1 + LeadingPending(tail);
      forall i | 0 <= i <= LeadingPending(tail)
        ensures tail[i].code in Statuses
      {
        assert tail[i] == rs[i + 1];
      }
      PendingKnownFinishes(tail);
    }
  }

  /** Dropping a pending answer with a known code from the front costs one
      sleep. */
  lemma PollingStep(rs: seq<PollResponse>, i: nat)
    requires i < |rs| && rs[i].status == Pending && rs[i].code in Statuses
    ensures Polling(rs[i..]) == PollRun(Polling(rs[i + 1..]).sleeps + 1, Polling(rs[i + 1..]).end)
  {
    assert rs[i..][1..] == rs[i + 1..];
  }

  /** The `while upload_status.status_code == 202` loop of `main`, from the
      first GET of the job to the lookup of the final status. Returns the
      sleeps and ending, and the GET calls sent: one per answer read. */
  method PollJob(auth: TokenAuth, url: string, rs: seq<PollResponse>) returns (run: PollRun, gets: seq<HttpCall>)
    requires auth.token.Some?
    ensures run == Polling(rs)
    ensures |gets| == if run.end.RanOut? then |rs| else run.sleeps + 1
    ensures forall i :: 0 <= i < |gets| ==> gets[i] == HttpCall("GET", url, AuthHeaders(auth.token.value))
  {
    gets := [];
    if |rs| == 0 {
      return PollRun(0, RanOut), gets;
    }
    var call := Send(auth, "GET", url);
    gets := gets + [call.value];
    var i := 0;
    var answer := rs[i];
    while answer.status == Pending
      invariant 0 <= i < |rs| && answer == rs[i] && |gets| == i + 1
      invariant forall j :: 0 <= j < |gets| ==> gets[j] == HttpCall("GET", url, AuthHeaders(auth.token.value))
      invariant Polling(rs) == PollRun(i + Polling(rs[i..]).sleeps, Polling(rs[i..]).end)
      decreases |rs| - i
    {
      if answer.code !in Statuses {
        return PollRun(i, UnknownStatus(answer.code)), gets;
      }
      PollingStep(rs, i);
      // time.sleep(15)
      if i + 1 == |rs| {
        return PollRun(i + 1, RanOut), gets;
      }
      call := Send(auth, "GET", url);
      gets := gets + [call.value];
      i := i + 1;
      answer := rs[i];
    }
    var final := StatusLabel(answer.code);
    if final.None? {
      return PollRun(i, UnknownStatus(answer.code)), gets;
    }
    run := PollRun(i, Finished(final.value, answer.log));
  }

  // ---------------------------------------------------------------------
  // The whole run
  // ---------------------------------------------------------------------

  /** How the process ends: a `sys.exit` code (0 when `main` returns), an
      exception that escapes, or still polling when the given answers run
      out. */
  datatype Outcome = Exit(code: int) | Crash(error: UploadError) | StillPolling

  /** What the outside world holds for one run: whether the configuration
      and CSV files exist, the parsed configuration, the status of the
      upload POST, the `import_job_id` of its body, and the answers to the
      job polls in order. */
  datatype Env = Env(configExists: bool, config: Config, csvExists: bool,
                     submitStatus: int, jobId: Option<string>, polls: seq<PollResponse>)

  /** The disposition of a finished poll: only Completed returns normally,
      every other known status exits with 5. */
  function PollOutcome(run: PollRun): (o: Outcome)
    ensures o == Exit(0) <==> run.end.Finished? && run.end.final == "Completed"
    ensures o == Exit(5) <==> run.end.Finished? && run.end.final != "Completed"
    ensures o.Crash? <==> run.end.UnknownStatus?
  {
    match run.end
    case Finished(final, _) => if final != "Completed" then Exit(5) else Exit(0)
    case UnknownStatus(code) => Crash(KeyError(code))
    case RanOut => StillPolling
  }

  /** The process exit status of an outcome: the `sys.exit` code, or 1 for
      an exception that escapes `main` (the interpreter's status for an
      uncaught exception); none while the run is still polling. */
  function ExitStatus(o: Outcome): (status: Option<int>)
    ensures status.Some? <==> o != StillPolling
    ensures status == Some(1) <==> o == Exit(1) || o.Crash?
    ensures o.Exit? ==> status == Some(o.code)
  {
    match o
    case Exit(code) => Some(code)
    case Crash(_) => Some(1)
    case StillPolling => None
  }

  /** The settings of a run whose configuration file exists, or the
      exception reading them raises. */
  function RunSettings(env: Env): Result<Settings, UploadError>
  {
    var server :- SectionMap(env.config, "Server");
    ReadSettings(server)
  }

  /** The run gets as far as sending the POST. */
  predicate Posts(env: Env) {
    env.configExists && RunSettings(env).Ok? && env.csvExists && RunSettings(env).value.token.Some?
  }

  /** The run gets as far as polling the job. */
  predicate Polls(env: Env) {
    Posts(env) && Classify(env.submitStatus) == Accepted && env.jobId.Some?
  }

  /** The decisions of `main` from the configuration check to the end. */
  function UploadOutcome(env: Env): (o: Outcome)
    ensures o.Exit? ==> 0 <= o.code <= 5
    ensures o.Crash? ==> env.configExists && (!Polls(env) || (o.error.KeyError? && o.error.key !in Statuses))
    ensures o == StillPolling <==> Polls(env) && Polling(env.polls).end.RanOut?
  {
    if !env.configExists then Exit(3)
    else match RunSettings(env)
      case Err(e) => Crash(e)
      case Ok(settings) =>
        if !env.csvExists then Exit(4)
        else if settings.token.None? then Crash(TypeError)
        else match Classify(env.submitStatus)
          case AuthRejected => Exit(1)
          case SubmitFailed => Exit(2)
          case Accepted =>
            if env.jobId.None? then Crash(MissingJobId) else PollOutcome(Polling(env.polls))
  }

  /** `main` after argument parsing and logging setup. Returns how it ends,
      the HTTP calls it sends in order, and how many 15-second sleeps it
      takes. */
  method RunUpload(env: Env) returns (outcome: Outcome, calls: seq<HttpCall>, sleeps: nat)
    ensures outcome == UploadOutcome(env)
    ensures |calls| > 0 <==> Posts(env)
    ensures Posts(env) ==> calls[0] == HttpCall("POST", RunSettings(env).value.endpoint,
                                                AuthHeaders(RunSettings(env).value.token.value))
    ensures |calls| > 1 ==> Polls(env)
    ensures Polls(env) ==>
      var run := Polling(env.polls);
      var settings := RunSettings(env).value;
      && sleeps == run.sleeps
      && |calls| == 1 + (if run.end.RanOut? then |env.polls| else run.sleeps + 1)
      && forall i :: 1 <= i < |calls| ==>
           calls[i] == HttpCall("GET", JobUrl(settings.endpoint, env.jobId.value), AuthHeaders(settings.token.value))
    ensures !Polls(env) ==> sleeps == 0
  {
    calls, sleeps := [], 0;
    if !env.configExists {
      return Exit(3), calls, sleeps;
    }
    var server := ConfigSectionMap(env.config, "Server");
    if server.Err? {
      return Crash(server.error), calls, sleeps;
    }
    var settings := ReadSettings(server.value);
    if settings.Err? {
      return Crash(settings.error), calls, sleeps;
    }
    var endpoint := settings.value.endpoint;
    var auth := new TokenAuth(settings.value.token);
    if !env.csvExists {
      return Exit(4), calls, sleeps;
    }
    var post := Send(auth, "POST", endpoint);
    if post.None? {
      return Crash(TypeError), calls, sleeps;
    }
    calls := [post.value];
    var submission := Classify(env.submitStatus);
    if submission == AuthRejected {
      return Exit(1), calls, sleeps;
    } else if submission == SubmitFailed {
      return Exit(2), calls, sleeps;
    }
    if env.jobId.None? {
      return Crash(MissingJobId), calls, sleeps;
    }
    var run, gets := PollJob(auth, JobUrl(endpoint, env.jobId.value), env.polls);
    calls := calls + gets;
    sleeps := run.sleeps;
    outcome := PollOutcome(run);
  }

  // ---------------------------------------------------------------------
  // Properties of the whole run
  // ---------------------------------------------------------------------

  /** A missing configuration file exits with 3 before anything else, and
      nothing else exits with 3. */
  lemma MissingConfigFirst(env: Env)
    ensures UploadOutcome(env) == Exit(3) <==> !env.configExists
  {
  }

  /** A missing CSV file exits with 4, and no POST has been sent then. */
  lemma MissingCsvBeforePost(env: Env)
    ensures UploadOutcome(env) == Exit(4) <==> env.configExists && RunSettings(env).Ok? && !env.csvExists
    ensures UploadOutcome(env) == Exit(4) ==> !Posts(env)
  {
  }

  /** A rejected token exits with 1, any other non-202 answer to the POST
      with 2; the two are told apart. */
  lemma SubmissionExits(env: Env)
    ensures UploadOutcome(env) == Exit(1) <==> Posts(env) && env.submitStatus == 401
    ensures UploadOutcome(env) == Exit(2) <==> Posts(env) && env.submitStatus != 401 && env.submitStatus != 202
  {
  }

  /** The process ends with status 1 exactly when the POST is answered with
      401 or an exception escapes: the two share the status. */
  lemma ExitStatusOne(env: Env)
    ensures ExitStatus(UploadOutcome(env)) == Some(1) <==>
      (Posts(env) && env.submitStatus == 401) || UploadOutcome(env).Crash?
  {
    SubmissionExits(env);
  }

  /** The run returns normally exactly when the upload is accepted and the
      first non-202 poll answer reports COMP, every pending answer before it
      carrying a known code. */
  lemma SucceedsExactlyOnCompleted(env: Env)
    ensures UploadOutcome(env) == Exit(0) <==>
      && Polls(env)
      && var n := LeadingPending(env.polls);
         n < |env.polls| && env.polls[n].code == "COMP" &&
         forall i :: 0 <= i < n ==> env.polls[i].code in Statuses
  {
    PollingCompleted(env.polls);
  }

  /** Exit 5 exactly when the job finishes with another known status. */
  lemma FailsOnOtherStatus(env: Env)
    ensures UploadOutcome(env) == Exit(5) <==>
      Polls(env) && Polling(env.polls).end.Finished? && Polling(env.polls).end.final != "Completed"
    ensures UploadOutcome(env) == Exit(5) ==>
      var n := LeadingPending(env.polls);
      n < |env.polls| && env.polls[n].code in Statuses && env.polls[n].code != "COMP"
  {
    if UploadOutcome(env) == Exit(5) {
      FinishedAfterLeadingPending(env.polls);
      var n := LeadingPending(env.polls);
      assert StatusLabel(env.polls[n].code) == Some(Polling(env.polls).end.final);
    }
  }

  /** Two pending answers, then COMP: success after exactly two sleeps. */
  lemma TwoPendingThenCompleted(rs: seq<PollResponse>)
    requires rs == [PollResponse(202, "PROC", ""), PollResponse(202, "PROC", ""), PollResponse(200, "COMP", "done")]
    ensures Polling(rs) == PollRun(2, Finished("Completed", "done"))
    ensures PollOutcome(Polling(rs)) == Exit(0)
  {
    assert rs[1..][1..] == [rs[2]];
    assert rs[1..][1..][1..] == [];
  }

  /** A final FAIL exits with 5 and reports the service's log as given. */
  lemma FailedReportsLog(rs: seq<PollResponse>, log: string)
    requires rs == [PollResponse(202, "PROC", ""), PollResponse(200, "FAIL", log)]
    ensures Polling(rs) == PollRun(1, Finished("Failed", log))
    ensures PollOutcome(Polling(rs)) == Exit(5)
  {
    assert rs[1..][1..] == [];
  }
}
