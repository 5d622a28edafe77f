/** The value validators of the action and the environment snapshot it takes once, when the
    module is loaded: every `export const` of the environment-variable module, in declaration
    order, as one function from the process environment to a record. */
module EnvVars {
  import opened Wrappers
  import opened JsString

  /** The brand of a non-empty string: trimmed and not empty. */
  predicate IsNes(s: string) {
    s != [] && IsTrimmed(s)
  }

  type Nes = s: string | IsNes(s) witness "-"

  /** The brand of an https URL: trimmed and starting with `https://`. */
  predicate IsHttpsUrl(s: string) {
    IsTrimmed(s) && StartsWith(s, "https://")
  }

  type HttpsUrl = s: string | IsHttpsUrl(s) witness "https://"

  /** A schema decode that throws carries the rejected input. */
  datatype ParseFailure = ParseFailure(input: string)

  /** `NES.fromString`: trim, then require a non-empty result. */
  function NesFromString(s: string): (r: Option<Nes>)
    ensures r.Some? <==> !AllWhitespace(s)
    ensures r.Some? ==> r.value == Trim(s)
  {
    TrimIsTrimmed(s);
    TrimEmptyIff(s);
    var t := Trim(s);
    if t == [] then None else Some(t)
  }

  /** `NES.unsafeFromString`: the same schema, throwing instead of returning `None`. */
  function NesUnsafeFromString(s: string): (r: Result<Nes, ParseFailure>)
    ensures r.Failure? <==> NesFromString(s).None?
    ensures r.Success? ==> r.value == NesFromString(s).value
    ensures r.Failure? ==> r.error.input == s
  {
    match NesFromString(s)
    case None => Failure(ParseFailure(s))
    case Some(v) => Success(v)
  }

  /** Parsing a value that is already a non-empty string gives it back. */
  lemma NesIdempotent(n: Nes)
    ensures NesFromString(n) == Some(n)
  {
    TrimmedUnchanged(n);
    assert !IsWhitespace(n[0]);
  }

  /** `HttpsUrl.unsafeFromString`: trim, then require the prefix `https://`. */
  function HttpsUrlFromString(s: string): (r: Result<HttpsUrl, ParseFailure>)
    ensures r.Success? <==> StartsWith(Trim(s), "https://")
    ensures r.Success? ==> r.value == Trim(s)
  {
    TrimIsTrimmed(s);
    var t := Trim(s);
    if StartsWith(t, "https://") then Success(t) else Failure(ParseFailure(s))
  }

  /** An https URL is also a non-empty string. */
  lemma HttpsUrlIsNes(u: HttpsUrl)
    ensures IsNes(u)
  {
  }

  /** The triggering ref: a branch or a tag, carrying its name. */
  datatype Ref = Branch(value: Nes) | Tag(value: Nes) {
    /** The ref type GitHub reports for it. */
    function TypeName(): Nes {
      if Branch? then "branch" else "tag"
    }
  }

  /** `branch` or `tag` in any letter case. */
  predicate IsRefTypeName(s: string) {
    ToLower(s) in {"branch", "tag"}
  }

  /** `Ref_.unsafeMake`: dispatch on the lowercased ref type. */
  function RefMake(refType: Nes, value: Nes): (r: Result<Ref, ParseFailure>)
  {
    match ToLower(refType)
    case "branch" => Success(Branch(value))
    case "tag" => Success(Tag(value))
    case _ => Failure(ParseFailure(refType))
  }

  /** A ref type is accepted exactly when it is `branch` or `tag` in any letter case; the name
      is carried unchanged. */
  lemma RefMakeSpec(refType: Nes, value: Nes)
    ensures RefMake(refType, value).Success? <==> IsRefTypeName(refType)
    ensures ToLower(refType) == "branch" <==> RefMake(refType, value) == Success(Branch(value))
    ensures ToLower(refType) == "tag" <==> RefMake(refType, value) == Success(Tag(value))
  {
  }

  /** Every ref is rebuilt from its own type name and value. */
  lemma RefRoundTrip(r: Ref)
    ensures RefMake(r.TypeName(), r.value) == Success(r)
  {
    assert ToLower("branch") == "branch";
    assert ToLower("tag") == "tag";
  }

  datatype RunnerOs = Linux | Windows | MacOs {
    function Name(): string {
      match this
      case Linux => "linux"
      case Windows => "windows"
      case MacOs => "macos"
    }
  }

  /** An OS name in any letter case. */
  predicate IsOsName(s: string) {
    ToLower(s) in {"linux", "windows", "macos"}
  }

  /** `RunnerOs.unsafeFromString`: the lowercased input must be one of the three names. */
  function ParseRunnerOs(s: string): (r: Result<RunnerOs, ParseFailure>)
  {
    match ToLower(s)
    case "linux" => Success(Linux)
    case "windows" => Success(Windows)
    case "macos" => Success(MacOs)
    case _ => Failure(ParseFailure(s))
  }

  /** Exactly the inputs whose lowercase is an OS name are accepted, and that name is returned. */
  lemma RunnerOsSpec(s: string)
    ensures ParseRunnerOs(s).Success? <==> IsOsName(s)
    ensures forall os: RunnerOs :: ParseRunnerOs(s) == Success(os) <==> ToLower(s) == os.Name()
  {
  }

  /** Parsing the canonical name gives the value back. */
  lemma RunnerOsRoundTrip(os: RunnerOs)
    ensures ParseRunnerOs(os.Name()) == Success(os)
  {
    assert ToLower("linux") == "linux";
    assert ToLower("windows") == "windows";
    assert ToLower("macos") == "macos";
  }

  /** GitHub writes `macOS`; it is accepted as `macos`. */
  lemma RunnerOsMixedCase()
    ensures ParseRunnerOs("macOS") == Success(MacOs)
  {
    assert ToLower("macOS") == "macos";
  }

  datatype RunnerArch = X86 | X64 | Arm | Arm64 {
    function Name(): string {
      match this
      case X86 => "x86"
      case X64 => "x64"
      case Arm => "arm"
      case Arm64 => "arm64"
    }
  }

  /** An architecture name in any letter case. */
  predicate IsArchName(s: string) {
    ToLower(s) in {"x86", "x64", "arm", "arm64"}
  }

  /** `RunnerArch.unsafeFromString`: the lowercased input must be one of the four names. */
  function ParseRunnerArch(s: string): (r: Result<RunnerArch, ParseFailure>)
  {
    match ToLower(s)
    case "x86" => Success(X86)
    case "x64" => Success(X64)
    case "arm" => Success(Arm)
    case "arm64" => Success(Arm64)
    case _ => Failure(ParseFailure(s))
  }

  /** Exactly the inputs whose lowercase is an architecture name are accepted, and that name is
      returned. */
  lemma RunnerArchSpec(s: string)
    ensures ParseRunnerArch(s).Success? <==> IsArchName(s)
    ensures forall a: RunnerArch :: ParseRunnerArch(s) == Success(a) <==> ToLower(s) == a.Name()
  {
  }

  lemma RunnerArchRoundTrip(a: RunnerArch)
    ensures ParseRunnerArch(a.Name()) == Success(a)
  {
    assert ToLower("x86") == "x86";
    assert ToLower("x64") == "x64";
    assert ToLower("arm") == "arm";
    assert ToLower("arm64") == "arm64";
  }

  // -- The environment snapshot --

  /** The process environment. */
  type Env = map<string, string>

  function Lookup(env: Env, name: string): Option<string> {
    if name in env then Some(env[name]) else None
  }

  /** Used when `ZEKLIN_SERVER_URL` is unset. */
  const DefaultServerUrl: string := "https://api.zeklin.io"

  /** The validated constants, in declaration order; the numeric ones cannot fail. */
  datatype EnvConst =
    | ZeklinServerUrl | RunnerName | GithubRepository | GithubSha | GithubRefName
    | GithubRefType | RunnerEnvironment | RunnerOsVar | RunnerArchVar | GithubApiUrl
    | GithubActor | GithubServerUrl | WorkflowUrl | RefConst
  {
    /** The constant's name, which is also the variable it reads (REF and WORKFLOW_URL read none). */
    function Name(): string {
      match this
      case ZeklinServerUrl => "ZEKLIN_SERVER_URL"
      case RunnerName => "RUNNER_NAME"
      case GithubRepository => "GITHUB_REPOSITORY"
      case GithubSha => "GITHUB_SHA"
      case GithubRefName => "GITHUB_REF_NAME"
      case GithubRefType => "GITHUB_REF_TYPE"
      case RunnerEnvironment => "RUNNER_ENVIRONMENT"
      case RunnerOsVar => "RUNNER_OS"
      case RunnerArchVar => "RUNNER_ARCH"
      case GithubApiUrl => "GITHUB_API_URL"
      case GithubActor => "GITHUB_ACTOR"
      case GithubServerUrl => "GITHUB_SERVER_URL"
      case WorkflowUrl => "WORKFLOW_URL"
      case RefConst => "REF"
    }

    /** Position in declaration order. */
    function Rank(): nat {
      match this
      case ZeklinServerUrl => 0
      case RunnerName => 1
      case GithubRepository => 2
      case GithubSha => 3
      case GithubRefName => 4
      case GithubRefType => 5
      case RunnerEnvironment => 6
      case RunnerOsVar => 7
      case RunnerArchVar => 8
      case GithubApiUrl => 9
      case GithubActor => 10
      case GithubServerUrl => 11
      case WorkflowUrl => 12
      case RefConst => 13
    }
  }

  /** Loading the module throws at the first constant whose initializer fails: the variable is
      unset, or its value is malformed. */
  datatype EnvError = Missing(variable: EnvConst) | Invalid(variable: EnvConst)

  /** What each constant demands of the environment, stated directly on the raw values. */
  ghost predicate ConstOk(env: Env, c: EnvConst) {
    match c
    case ZeklinServerUrl =>
      c.Name() in env ==> !AllWhitespace(env[c.Name()])
    case RunnerOsVar =>
      c.Name() in env && IsOsName(env[c.Name()])
    case RunnerArchVar =>
      c.Name() in env && IsArchName(env[c.Name()])
    case GithubApiUrl =>
      c.Name() in env && StartsWith(Trim(env[c.Name()]), "https://")
    case GithubServerUrl =>
      c.Name() in env && StartsWith(Trim(env[c.Name()]), "https://")
    case WorkflowUrl => true
    case RefConst =>
      "GITHUB_REF_TYPE" in env && IsRefTypeName(Trim(env["GITHUB_REF_TYPE"]))
    case _ =>
      c.Name() in env && !AllWhitespace(env[c.Name()])
  }

  /** `ZEKLIN_SERVER_URL`: the variable, or the default when it is unset, as a non-empty string. */
  function ServerUrlFrom(env: Env): (r: Result<Nes, EnvError>)
    ensures r.Success? <==> ConstOk(env, ZeklinServerUrl)
    ensures r.Failure? ==> r.error == Invalid(ZeklinServerUrl)
    ensures r.Success? ==> r.value == Trim(Lookup(env, "ZEKLIN_SERVER_URL").GetOr(DefaultServerUrl))
  {
    var raw := Lookup(env, "ZEKLIN_SERVER_URL").GetOr(DefaultServerUrl);
    assert "ZEKLIN_SERVER_URL" !in env ==> !IsWhitespace(raw[0]);
    match NesUnsafeFromString(raw)
    case Failure(_) => Failure(Invalid(ZeklinServerUrl))
    case Success(v) => Success(v)
  }

  /** Unset gives the default; set gives its trimmed value, https or not; whitespace fails. */
  lemma ServerUrlCases(env: Env)
    ensures "ZEKLIN_SERVER_URL" !in env ==> ServerUrlFrom(env) == Success(DefaultServerUrl)
    ensures "ZEKLIN_SERVER_URL" in env && !AllWhitespace(env["ZEKLIN_SERVER_URL"])
      ==> ServerUrlFrom(env) == Success(Trim(env["ZEKLIN_SERVER_URL"]))
    ensures "ZEKLIN_SERVER_URL" in env && AllWhitespace(env["ZEKLIN_SERVER_URL"])
      ==> ServerUrlFrom(env) == Failure(Invalid(ZeklinServerUrl))
  {
    TrimmedUnchanged(DefaultServerUrl);
    if "ZEKLIN_SERVER_URL" in env {
      TrimEmptyIff(env["ZEKLIN_SERVER_URL"]);
    }
  }

  /** The server URL is validated as a non-empty string only: a plain http URL passes. */
  lemma ServerUrlNotHttpsChecked()
    ensures ServerUrlFrom(map["ZEKLIN_SERVER_URL" := "http://localhost"]) == Success("http://localhost")
  {
    var s := "http://localhost";
    TrimmedUnchanged(s);
    ServerUrlCases(map["ZEKLIN_SERVER_URL" := s]);
  }

  /** A non-empty-string constant read from its variable. */
  function NesVar(env: Env, c: EnvConst): (r: Result<Nes, EnvError>)
    ensures r.Success? <==> c.Name() in env && !AllWhitespace(env[c.Name()])
    ensures r.Success? ==> r.value == Trim(env[c.Name()])
    ensures r.Failure? ==> r.error.variable == c && (r.error.Missing? <==> c.Name() !in env)
  {
    match Lookup(env, c.Name())
    case None => Failure(Missing(c))
    case Some(v) =>
      match NesUnsafeFromString(v)
      case Failure(_) => Failure(Invalid(c))
      case Success(n) => Success(n)
  }

  function HttpsUrlVar(env: Env, c: EnvConst): (r: Result<HttpsUrl, EnvError>)
    ensures r.Success? <==> c.Name() in env && StartsWith(Trim(env[c.Name()]), "https://")
    ensures r.Success? ==> r.value == Trim(env[c.Name()])
    ensures r.Failure? ==> r.error.variable == c && (r.error.Missing? <==> c.Name() !in env)
  {
    match Lookup(env, c.Name())
    case None => Failure(Missing(c))
    case Some(v) =>
      match HttpsUrlFromString(v)
      case Failure(_) => Failure(Invalid(c))
      case Success(u) => Success(u)
  }

  /** `RUNNER_OS`: the variable parsed as an OS name; reading it unset throws. */
  function RunnerOsFrom(env: Env): (r: Result<RunnerOs, EnvError>)
    ensures r.Success? <==> ConstOk(env, RunnerOsVar)
    ensures r.Success? ==> r.value.Name() == ToLower(env["RUNNER_OS"])
    ensures r.Failure? ==> r.error.variable == RunnerOsVar && (r.error.Missing? <==> "RUNNER_OS" !in env)
  {
    match Lookup(env, "RUNNER_OS")
    case None => Failure(Missing(RunnerOsVar))
    case Some(v) =>
      RunnerOsSpec(v);
      match ParseRunnerOs(v)
      case Failure(_) => Failure(Invalid(RunnerOsVar))
      case Success(os) => Success(os)
  }

  /** `RUNNER_ARCH`: the variable parsed as an architecture name; reading it unset throws. */
  function RunnerArchFrom(env: Env): (r: Result<RunnerArch, EnvError>)
    ensures r.Success? <==> ConstOk(env, RunnerArchVar)
    ensures r.Success? ==> r.value.Name() == ToLower(env["RUNNER_ARCH"])
    ensures r.Failure? ==> r.error.variable == RunnerArchVar && (r.error.Missing? <==> "RUNNER_ARCH" !in env)
  {
    match Lookup(env, "RUNNER_ARCH")
    case None => Failure(Missing(RunnerArchVar))
    case Some(v) =>
      RunnerArchSpec(v);
      match ParseRunnerArch(v)
      case Failure(_) => Failure(Invalid(RunnerArchVar))
      case Success(a) => Success(a)
  }

  /** `WORKFLOW_URL`: the run's page, checked as an https URL. */
  function WorkflowUrlFrom(serverUrl: HttpsUrl, repository: Nes, runId: int): Result<HttpsUrl, EnvError> {
    match HttpsUrlFromString(serverUrl + "/" + repository + "/actions/runs/" + IntToString(runId))
    case Failure(_) => Failure(Invalid(WorkflowUrl))
    case Success(u) => Success(u)
  }

  /** The workflow URL never fails its check, because the server URL already passed it, and it
      is exactly the concatenation. */
  lemma WorkflowUrlAlwaysValid(serverUrl: HttpsUrl, repository: Nes, runId: int)
    ensures WorkflowUrlFrom(serverUrl, repository, runId)
      == Success(serverUrl + "/" + repository + "/actions/runs/" + IntToString(runId))
  {
    var s := serverUrl + "/" + repository + "/actions/runs/" + IntToString(runId);
    var id := IntToString(runId);
    assert s[0] == serverUrl[0] == 'h';
    assert s[|s| - 1] == id[|id| - 1];
    TrimmedUnchanged(s);
    assert s[..|"https://"|] == serverUrl[..|"https://"|];
  }

  /** `REF`: the ref built from `GITHUB_REF_TYPE` and `GITHUB_REF_NAME`. */
  function RefFrom(refType: Nes, refName: Nes): (r: Result<Ref, EnvError>)
    ensures r.Success? <==> IsRefTypeName(refType)
    ensures r.Success? ==> r.value == RefMake(refType, refName).value
    ensures r.Failure? ==> r == Failure(Invalid(RefConst))
  {
    RefMakeSpec(refType, refName);
    match RefMake(refType, refName)
    case Failure(_) => Failure(Invalid(RefConst))
    case Success(r) => Success(r)
  }

  /** The snapshot of every exported constant. */
  datatype EnvSnapshot = EnvSnapshot(
    zeklinServerUrl: Nes,
    runId: int,
    runNumber: int,
    runnerName: Nes,
    runAttempt: int,
    repository: Nes,
    repositoryId: int,
    repositoryOwnerId: int,
    sha: Nes,
    refName: Nes,
    refType: Nes,
    runnerEnvironment: Nes,
    runnerOs: RunnerOs,
    runnerArch: RunnerArch,
    apiUrl: HttpsUrl,
    actor: Nes,
    actorId: int,
    serverUrl: HttpsUrl,
    workflowUrl: HttpsUrl,
    ref: Ref)

  /** A variable's trimmed value, if it is set. */
  function TrimmedVar(env: Env, name: string): Option<string> {
    if name in env then Some(Trim(env[name])) else None
  }

  /** A variable's lower-cased value, if it is set. */
  function LoweredVar(env: Env, name: string): Option<string> {
    if name in env then Some(ToLower(env[name])) else None
  }

  /** `ZEKLIN_SERVER_URL` to `GITHUB_SHA` (the numbers in between cannot fail). */
  function IdentityConsts(env: Env): (r: Result<(Nes, Nes, Nes, Nes), EnvError>)
    ensures r.Success? <==> (ConstOk(env, ZeklinServerUrl) && ConstOk(env, RunnerName)
      && ConstOk(env, GithubRepository) && ConstOk(env, GithubSha))
    ensures r.Failure? ==> !ConstOk(env, r.error.variable) && match r.error.variable
      case ZeklinServerUrl => true
      case RunnerName => ConstOk(env, ZeklinServerUrl)
      case GithubRepository => ConstOk(env, ZeklinServerUrl) && ConstOk(env, RunnerName)
      case GithubSha => ConstOk(env, ZeklinServerUrl) && ConstOk(env, RunnerName) && ConstOk(env, GithubRepository)
      case _ => false
    ensures r.Success? ==> (r.value.0 == Trim(Lookup(env, "ZEKLIN_SERVER_URL").GetOr(DefaultServerUrl))
      && Some(r.value.1) == TrimmedVar(env, "RUNNER_NAME")
      && Some(r.value.2) == TrimmedVar(env, "GITHUB_REPOSITORY")
      && Some(r.value.3) == TrimmedVar(env, "GITHUB_SHA"))
  {
    var zeklinServerUrl :- ServerUrlFrom(env);
    var runnerName :- NesVar(env, RunnerName);
    var repository :- NesVar(env, GithubRepository);
    var sha :- NesVar(env, GithubSha);
    Success((zeklinServerUrl, runnerName, repository, sha))
  }

  /** `GITHUB_REF_NAME`, `GITHUB_REF_TYPE` and `RUNNER_ENVIRONMENT`. */
  function RefConsts(env: Env): (r: Result<(Nes, Nes, Nes), EnvError>)
    ensures r.Success? <==> (ConstOk(env, GithubRefName) && ConstOk(env, GithubRefType)
      && ConstOk(env, RunnerEnvironment))
    ensures r.Failure? ==> !ConstOk(env, r.error.variable) && match r.error.variable
      case GithubRefName => true
      case GithubRefType => ConstOk(env, GithubRefName)
      case RunnerEnvironment => ConstOk(env, GithubRefName) && ConstOk(env, GithubRefType)
      case _ => false
    ensures r.Success? ==> (Some(r.value.0) == TrimmedVar(env, "GITHUB_REF_NAME")
      && Some(r.value.1) == TrimmedVar(env, "GITHUB_REF_TYPE")
      && Some(r.value.2) == TrimmedVar(env, "RUNNER_ENVIRONMENT"))
  {
    var refName :- NesVar(env, GithubRefName);
    var refType :- NesVar(env, GithubRefType);
    var runnerEnvironment :- NesVar(env, RunnerEnvironment);
    Success((refName, refType, runnerEnvironment))
  }

  /** `RUNNER_OS`, `RUNNER_ARCH` and `GITHUB_API_URL`. */
  function RunnerConsts(env: Env): (r: Result<(RunnerOs, RunnerArch, HttpsUrl), EnvError>)
    ensures r.Success? <==> (ConstOk(env, RunnerOsVar) && ConstOk(env, RunnerArchVar)
      && ConstOk(env, GithubApiUrl))
    ensures r.Failure? ==> !ConstOk(env, r.error.variable) && match r.error.variable
      case RunnerOsVar => true
      case RunnerArchVar => ConstOk(env, RunnerOsVar)
      case GithubApiUrl => ConstOk(env, RunnerOsVar) && ConstOk(env, RunnerArchVar)
      case _ => false
    ensures r.Success? ==> (Some(r.value.0.Name()) == LoweredVar(env, "RUNNER_OS")
      && Some(r.value.1.Name()) == LoweredVar(env, "RUNNER_ARCH")
      && Some(r.value.2) == TrimmedVar(env, "GITHUB_API_URL"))
  {
    var runnerOs :- RunnerOsFrom(env);
    var runnerArch :- RunnerArchFrom(env);
    var apiUrl :- HttpsUrlVar(env, GithubApiUrl);
    Success((runnerOs, runnerArch, apiUrl))
  }

  /** `GITHUB_ACTOR` and `GITHUB_SERVER_URL` (the actor id cannot fail). */
  function ActorConsts(env: Env): (r: Result<(Nes, HttpsUrl), EnvError>)
    ensures r.Success? <==> ConstOk(env, GithubActor) && ConstOk(env, GithubServerUrl)
    ensures r.Failure? ==> !ConstOk(env, r.error.variable) && match r.error.variable
      case GithubActor => true
      case GithubServerUrl => ConstOk(env, GithubActor)
      case _ => false
    ensures r.Success? ==> (Some(r.value.0) == TrimmedVar(env, "GITHUB_ACTOR")
      && Some(r.value.1) == TrimmedVar(env, "GITHUB_SERVER_URL"))
  {
    var actor :- NesVar(env, GithubActor);
    var serverUrl :- HttpsUrlVar(env, GithubServerUrl);
    Success((actor, serverUrl))
  }

  /** `WORKFLOW_URL` and `REF`, from the constants already read, and the snapshot itself. */
  function Assemble(
    env: Env, toNumber: Option<string> -> int, identity: (Nes, Nes, Nes, Nes),
    refs: (Nes, Nes, Nes), runner: (RunnerOs, RunnerArch, HttpsUrl), actors: (Nes, HttpsUrl)
  ): (r: Result<EnvSnapshot, EnvError>)
    ensures r.Success? <==> IsRefTypeName(refs.1)
    ensures r.Failure? ==> r.error == Invalid(RefConst)
    ensures r.Success? ==> RefMake(r.value.refType, r.value.refName) == Success(r.value.ref)
    ensures r.Success? ==> (r.value.workflowUrl ==
      r.value.serverUrl + "/" + r.value.repository + "/actions/runs/" + IntToString(r.value.runId))
  {
    var (zeklinServerUrl, runnerName, repository, sha) := identity;
    var runId := toNumber(Lookup(env, "GITHUB_RUN_ID"));
    var runNumber := toNumber(Lookup(env, "GITHUB_RUN_NUMBER"));
    var runAttempt := toNumber(Lookup(env, "GITHUB_RUN_ATTEMPT"));
    var repositoryId := toNumber(Lookup(env, "GITHUB_REPOSITORY_ID"));
    var repositoryOwnerId := toNumber(Lookup(env, "GITHUB_REPOSITORY_OWNER_ID"));
    var (refName, refType, runnerEnvironment) := refs;
    var (runnerOs, runnerArch, apiUrl) := runner;
    var (actor, serverUrl) := actors;
    var actorId := toNumber(Lookup(env, "GITHUB_ACTOR_ID"));
    // The check of WORKFLOW_URL cannot fail (WorkflowUrlAlwaysValid).
    WorkflowUrlAlwaysValid(serverUrl, repository, runId);
    var workflowUrl := WorkflowUrlFrom(serverUrl, repository, runId).value;
    var ref :- RefFrom(refType, refName);
    Success(EnvSnapshot(
      zeklinServerUrl, runId, runNumber, runnerName, runAttempt, repository, repositoryId,
      repositoryOwnerId, sha, refName, refType, runnerEnvironment, runnerOs, runnerArch, apiUrl,
      actor, actorId, serverUrl, workflowUrl, ref))
  }

  /** Evaluates the constants in declaration order; the first initializer that throws stops the
      load. `toNumber` stands for `Number(...)` applied to a variable that may be unset; the
      numeric constants cannot throw. */
  function Snapshot(env: Env, toNumber: Option<string> -> int): (r: Result<EnvSnapshot, EnvError>)
    ensures r.Success? ==> RefMake(r.value.refType, r.value.refName) == Success(r.value.ref)
    ensures r.Success? ==> (r.value.workflowUrl ==
      r.value.serverUrl + "/" + r.value.repository + "/actions/runs/" + IntToString(r.value.runId))
  {
    var identity :- IdentityConsts(env);
    var refs :- RefConsts(env);
    var runner :- RunnerConsts(env);
    var actors :- ActorConsts(env);
    Assemble(env, toNumber, identity, refs, runner, actors)
  }

  // -- How the stages compose --

  /** When every stage succeeds, the load is the assembly of their values. */
  lemma SnapshotIsAssemble(env: Env, toNumber: Option<string> -> int)
    requires IdentityConsts(env).Success? && RefConsts(env).Success? && RunnerConsts(env).Success?
      && ActorConsts(env).Success?
    ensures Snapshot(env, toNumber) == Assemble(env, toNumber, IdentityConsts(env).value,
      RefConsts(env).value, RunnerConsts(env).value, ActorConsts(env).value)
  {
  }

  /** A failing stage stops the load with its own error. */
  lemma SnapshotStopsAtIdentity(env: Env, toNumber: Option<string> -> int)
    requires IdentityConsts(env).Failure?
    ensures Snapshot(env, toNumber) == Failure(IdentityConsts(env).error)
  {
  }

  lemma SnapshotStopsAtRefs(env: Env, toNumber: Option<string> -> int)
    requires IdentityConsts(env).Success? && RefConsts(env).Failure?
    ensures Snapshot(env, toNumber) == Failure(RefConsts(env).error)
  {
  }

  lemma SnapshotStopsAtRunner(env: Env, toNumber: Option<string> -> int)
    requires IdentityConsts(env).Success? && RefConsts(env).Success? && RunnerConsts(env).Failure?
    ensures Snapshot(env, toNumber) == Failure(RunnerConsts(env).error)
  {
  }

  lemma SnapshotStopsAtActors(env: Env, toNumber: Option<string> -> int)
    requires IdentityConsts(env).Success? && RefConsts(env).Success? && RunnerConsts(env).Success?
      && ActorConsts(env).Failure?
    ensures Snapshot(env, toNumber) == Failure(ActorConsts(env).error)
  {
  }

  /** The ref type read by the second stage decides REF. */
  lemma RefTypeDecidesRef(env: Env)
    requires RefConsts(env).Success?
    ensures IsRefTypeName(RefConsts(env).value.1) <==> ConstOk(env, RefConst)
  {
  }

  /** If every demand holds, every stage succeeds. */
  lemma AllOkStagesSucceed(env: Env)
    requires forall c: EnvConst :: ConstOk(env, c)
    ensures IdentityConsts(env).Success? && RefConsts(env).Success? && RunnerConsts(env).Success?
      && ActorConsts(env).Success?
  {
    assert ConstOk(env, ZeklinServerUrl) && ConstOk(env, RunnerName)
      && ConstOk(env, GithubRepository) && ConstOk(env, GithubSha);
    assert ConstOk(env, GithubRefName) && ConstOk(env, GithubRefType)
      && ConstOk(env, RunnerEnvironment);
    assert ConstOk(env, RunnerOsVar) && ConstOk(env, RunnerArchVar) && ConstOk(env, GithubApiUrl);
    assert ConstOk(env, GithubActor) && ConstOk(env, GithubServerUrl);
  }

  /** If every stage succeeds, every demand but REF's holds. */
  lemma StagesGiveAllButRef(env: Env)
    requires IdentityConsts(env).Success? && RefConsts(env).Success? && RunnerConsts(env).Success?
      && ActorConsts(env).Success?
    ensures forall c: EnvConst :: c != RefConst ==> ConstOk(env, c)
  {
    forall c: EnvConst | c != RefConst
      ensures ConstOk(env, c)
    {
      match c
      case WorkflowUrl =>
      case _ =>
    }
  }

  /** The constants, in declaration order; a proof about all of them goes through each. */
  lemma EveryConst(c: EnvConst)
    ensures || c == ZeklinServerUrl || c == RunnerName || c == GithubRepository || c == GithubSha
            || c == GithubRefName || c == GithubRefType || c == RunnerEnvironment
            || c == RunnerOsVar || c == RunnerArchVar || c == GithubApiUrl
            || c == GithubActor || c == GithubServerUrl || c == WorkflowUrl || c == RefConst
  {
  }

  /** A failure in the first stage names the first failing constant. */
  lemma IdentityFailureIsFirst(env: Env)
    requires IdentityConsts(env).Failure?
    ensures !ConstOk(env, IdentityConsts(env).error.variable)
    ensures forall c: EnvConst :: c.Rank() < IdentityConsts(env).error.variable.Rank() ==> ConstOk(env, c)
  {
    var v := IdentityConsts(env).error.variable;
    forall c: EnvConst | c.Rank() < v.Rank()
      ensures ConstOk(env, c)
    {
      EveryConst(c);
    }
  }

  /** A failure in the second stage names the first failing constant. */
  lemma RefsFailureIsFirst(env: Env)
    requires IdentityConsts(env).Success? && RefConsts(env).Failure?
    ensures !ConstOk(env, RefConsts(env).error.variable)
    ensures forall c: EnvConst :: c.Rank() < RefConsts(env).error.variable.Rank() ==> ConstOk(env, c)
  {
    var v := RefConsts(env).error.variable;
    forall c: EnvConst | c.Rank() < v.Rank()
      ensures ConstOk(env, c)
    {
      EveryConst(c);
    }
  }

  /** A failure in the third stage names the first failing constant. */
  lemma RunnerFailureIsFirst(env: Env)
    requires IdentityConsts(env).Success? && RefConsts(env).Success? && RunnerConsts(env).Failure?
    ensures !ConstOk(env, RunnerConsts(env).error.variable)
    ensures forall c: EnvConst :: c.Rank() < RunnerConsts(env).error.variable.Rank() ==> ConstOk(env, c)
  {
    var v := RunnerConsts(env).error.variable;
    forall c: EnvConst | c.Rank() < v.Rank()
      ensures ConstOk(env, c)
    {
      EveryConst(c);
    }
  }

  /** A failure in the fourth stage names the first failing constant. */
  lemma ActorsFailureIsFirst(env: Env)
    requires IdentityConsts(env).Success? && RefConsts(env).Success? && RunnerConsts(env).Success?
      && ActorConsts(env).Failure?
    ensures !ConstOk(env, ActorConsts(env).error.variable)
    ensures forall c: EnvConst :: c.Rank() < ActorConsts(env).error.variable.Rank() ==> ConstOk(env, c)
  {
    var v := ActorConsts(env).error.variable;
    forall c: EnvConst | c.Rank() < v.Rank()
      ensures ConstOk(env, c)
    {
      EveryConst(c);
    }
  }

  /** The load succeeds exactly when every constant's demand on the environment holds. */
  lemma SnapshotSucceedsIff(env: Env, toNumber: Option<string> -> int)
    ensures Snapshot(env, toNumber).Success? <==> forall c: EnvConst :: ConstOk(env, c)
  {
    if IdentityConsts(env).Success? && RefConsts(env).Success? && RunnerConsts(env).Success?
      && ActorConsts(env).Success? {
      SnapshotIsAssemble(env, toNumber);
      RefTypeDecidesRef(env);
      StagesGiveAllButRef(env);
    } else {
      if IdentityConsts(env).Failure? {
        SnapshotStopsAtIdentity(env, toNumber);
      } else if RefConsts(env).Failure? {
        SnapshotStopsAtRefs(env, toNumber);
      } else if RunnerConsts(env).Failure? {
        SnapshotStopsAtRunner(env, toNumber);
      } else {
        SnapshotStopsAtActors(env, toNumber);
      }
      if forall c: EnvConst :: ConstOk(env, c) {
        AllOkStagesSucceed(env);
      }
    }
  }

  /** A failed load reports the first constant, in declaration order, whose demand fails. */
  lemma SnapshotFirstFailure(env: Env, toNumber: Option<string> -> int)
    requires Snapshot(env, toNumber).Failure?
    ensures var e := Snapshot(env, toNumber).error;
      !ConstOk(env, e.variable) && forall c: EnvConst :: c.Rank() < e.variable.Rank() ==> ConstOk(env, c)
  {
    if IdentityConsts(env).Failure? {
      SnapshotStopsAtIdentity(env, toNumber);
      IdentityFailureIsFirst(env);
    } else if RefConsts(env).Failure? {
      SnapshotStopsAtRefs(env, toNumber);
      RefsFailureIsFirst(env);
    } else if RunnerConsts(env).Failure? {
      SnapshotStopsAtRunner(env, toNumber);
      RunnerFailureIsFirst(env);
    } else if ActorConsts(env).Failure? {
      SnapshotStopsAtActors(env, toNumber);
      ActorsFailureIsFirst(env);
    } else {
      SnapshotIsAssemble(env, toNumber);
      RefTypeDecidesRef(env);
      StagesGiveAllButRef(env);
    }
  }

  /** The assembled snapshot keeps the stage values, numbers as `toNumber` gives them, the
      workflow URL built from the server URL, repository and run id, and the ref of the given
      type and name. */
  lemma AssembleValues(
    env: Env, toNumber: Option<string> -> int, identity: (Nes, Nes, Nes, Nes),
    refs: (Nes, Nes, Nes), runner: (RunnerOs, RunnerArch, HttpsUrl), actors: (Nes, HttpsUrl)
  )
    requires IsRefTypeName(refs.1)
    ensures var s := Assemble(env, toNumber, identity, refs, runner, actors).value;
      && (s.zeklinServerUrl, s.runnerName, s.repository, s.sha) == identity
      && (s.refName, s.refType, s.runnerEnvironment) == refs
      && (s.runnerOs, s.runnerArch, s.apiUrl) == runner
      && (s.actor, s.serverUrl) == actors
      && s.runId == toNumber(Lookup(env, "GITHUB_RUN_ID"))
      && s.runNumber == toNumber(Lookup(env, "GITHUB_RUN_NUMBER"))
      && s.runAttempt == toNumber(Lookup(env, "GITHUB_RUN_ATTEMPT"))
      && s.repositoryId == toNumber(Lookup(env, "GITHUB_REPOSITORY_ID"))
      && s.repositoryOwnerId == toNumber(Lookup(env, "GITHUB_REPOSITORY_OWNER_ID"))
      && s.actorId == toNumber(Lookup(env, "GITHUB_ACTOR_ID"))
      && s.workflowUrl == s.serverUrl + "/" + s.repository + "/actions/runs/" + IntToString(s.runId)
      && RefMake(s.refType, s.refName) == Success(s.ref)
  {
    WorkflowUrlAlwaysValid(actors.1, identity.2, toNumber(Lookup(env, "GITHUB_RUN_ID")));
  }

  /** A successful load holds the trimmed variables, the parsed OS and architecture, and the
      assembled values above. */
  lemma SnapshotValues(env: Env, toNumber: Option<string> -> int)
    requires forall c: EnvConst :: ConstOk(env, c)
    ensures Snapshot(env, toNumber).Success?
    ensures var s := Snapshot(env, toNumber).value;
      && s.zeklinServerUrl == Trim(Lookup(env, "ZEKLIN_SERVER_URL").GetOr(DefaultServerUrl))
      && Some(s.runnerName) == TrimmedVar(env, "RUNNER_NAME")
      && Some(s.repository) == TrimmedVar(env, "GITHUB_REPOSITORY")
      && Some(s.sha) == TrimmedVar(env, "GITHUB_SHA")
      && Some(s.refName) == TrimmedVar(env, "GITHUB_REF_NAME")
      && Some(s.refType) == TrimmedVar(env, "GITHUB_REF_TYPE")
      && Some(s.runnerEnvironment) == TrimmedVar(env, "RUNNER_ENVIRONMENT")
      && Some(s.runnerOs.Name()) == LoweredVar(env, "RUNNER_OS")
      && Some(s.runnerArch.Name()) == LoweredVar(env, "RUNNER_ARCH")
      && Some(s.apiUrl) == TrimmedVar(env, "GITHUB_API_URL")
      && Some(s.actor) == TrimmedVar(env, "GITHUB_ACTOR")
      && Some(s.serverUrl) == TrimmedVar(env, "GITHUB_SERVER_URL")
      && s.runId == toNumber(Lookup(env, "GITHUB_RUN_ID"))
      && s.runNumber == toNumber(Lookup(env, "GITHUB_RUN_NUMBER"))
      && s.runAttempt == toNumber(Lookup(env, "GITHUB_RUN_ATTEMPT"))
      && s.repositoryId == toNumber(Lookup(env, "GITHUB_REPOSITORY_ID"))
      && s.repositoryOwnerId == toNumber(Lookup(env, "GITHUB_REPOSITORY_OWNER_ID"))
      && s.actorId == toNumber(Lookup(env, "GITHUB_ACTOR_ID"))
      && s.workflowUrl == s.serverUrl + "/" + s.repository + "/actions/runs/" + IntToString(s.runId)
      && RefMake(s.refType, s.refName) == Success(s.ref)
  {
    assert ConstOk(env, RefConst);
    AllOkStagesSucceed(env);
    SnapshotIsAssemble(env, toNumber);
    RefTypeDecidesRef(env);
    AssembleValues(env, toNumber, IdentityConsts(env).value, RefConsts(env).value,
      RunnerConsts(env).value, ActorConsts(env).value);
  }
}
