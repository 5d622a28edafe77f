/** The action's run: the pull-request and upload-body records built from the workflow context,
    the choice of the results file, and the pipeline that runs the benchmark commands, reads
    their results, pings the Zeklin server and uploads the results, each network stage retried.
    Commands, the file system and the network are oracles: sequences of the outcomes they give. */
module Run {
  import opened Wrappers
  import opened JsString
  import opened EnvVars

  // -- The workflow context --

  /** One side of a pull request, as the event payload carries it. */
  datatype PrSide = PrSide(labelText: string, ref: string, sha: string)

  /** The `pull_request` object of the event payload; its numbers already coerced. */
  datatype PullRequestPayload = PullRequestPayload(
    id: int, number: int, title: string, base: PrSide, head: PrSide, userId: int)

  /** The fields of the workflow context the action reads. */
  datatype Context = Context(ref: string, pullRequest: Option<PullRequestPayload>)

  /** `isPullRequest`: the payload holds a `pull_request`. */
  predicate IsPullRequest(ctx: Context) {
    ctx.pullRequest.Some?
  }

  /** The pull request sent with the results. */
  datatype PullRequest = PullRequest(
    prId: int, prNumber: int, prTitle: Nes,
    baseLabel: Nes, baseRef: Nes, baseSha: Nes,
    headLabel: Nes, headRef: Nes, headSha: Nes,
    userId: int)

  /** The strings of a payload that must be non-empty, in the order they are checked. */
  function PrStrings(p: PullRequestPayload): seq<string> {
    [p.title, p.base.labelText, p.base.ref, p.base.sha, p.head.labelText, p.head.ref, p.head.sha]
  }

  /** Label, ref and sha of one side, each as a non-empty string, checked in that order. */
  function SideFrom(side: PrSide): (r: Result<(Nes, Nes, Nes), ParseFailure>)
    ensures r.Success? <==> (!AllWhitespace(side.labelText) && !AllWhitespace(side.ref)
      && !AllWhitespace(side.sha))
    ensures r.Success? ==> r.value == (Trim(side.labelText), Trim(side.ref), Trim(side.sha))
    ensures r.Failure? ==> r.error == ParseFailure(
      if AllWhitespace(side.labelText) then side.labelText
      else if AllWhitespace(side.ref) then side.ref
      else side.sha)
  {
    var labelNes :- NesUnsafeFromString(side.labelText);
    var ref :- NesUnsafeFromString(side.ref);
    var sha :- NesUnsafeFromString(side.sha);
    Success((labelNes, ref, sha))
  }

  /** `PullRequest.unsafeFrom`: absent without a pull request; otherwise the payload's strings
      trimmed, the first blank one throwing. */
  function PullRequestFrom(ctx: Context): (r: Result<Option<PullRequest>, ParseFailure>)
    ensures !IsPullRequest(ctx) ==> r == Success(None)
    ensures r.Success? ==> (r.value.Some? <==> IsPullRequest(ctx))
    ensures IsPullRequest(ctx) ==>
      var p := ctx.pullRequest.value;
      (r.Success? <==> (!AllWhitespace(p.title)
        && !AllWhitespace(p.base.labelText) && !AllWhitespace(p.base.ref) && !AllWhitespace(p.base.sha)
        && !AllWhitespace(p.head.labelText) && !AllWhitespace(p.head.ref) && !AllWhitespace(p.head.sha)))
    ensures r.Success? && r.value.Some? ==>
      var p := ctx.pullRequest.value;
      var pr := r.value.value;
      && pr.prId == p.id && pr.prNumber == p.number && pr.userId == p.userId
      && pr.prTitle == Trim(p.title)
      && (pr.baseLabel, pr.baseRef, pr.baseSha) == (Trim(p.base.labelText), Trim(p.base.ref), Trim(p.base.sha))
      && (pr.headLabel, pr.headRef, pr.headSha) == (Trim(p.head.labelText), Trim(p.head.ref), Trim(p.head.sha))
    ensures r.Failure? ==>
      var p := ctx.pullRequest.value;
      r.error == if AllWhitespace(p.title) then ParseFailure(p.title)
        else if SideFrom(p.base).Failure? then SideFrom(p.base).error
        else SideFrom(p.head).error
  {
    match ctx.pullRequest
    case None => Success(None)
    case Some(p) =>
      var title :- NesUnsafeFromString(p.title);
      var base :- SideFrom(p.base);
      var head :- SideFrom(p.head);
      Success(Some(PullRequest(
        p.id, p.number, title, base.0, base.1, base.2, head.0, head.1, head.2, p.userId)))
  }

  /** A failed extraction reports the first blank string of the payload. */
  lemma PullRequestFirstFailure(ctx: Context)
    requires PullRequestFrom(ctx).Failure?
    ensures IsPullRequest(ctx)
    ensures var xs := PrStrings(ctx.pullRequest.value);
      exists i ::
        0 <= i < |xs| && PullRequestFrom(ctx).error == ParseFailure(xs[i])
        && AllWhitespace(xs[i]) && forall j :: 0 <= j < i ==> !AllWhitespace(xs[j])
  {
    var p := ctx.pullRequest.value;
    var xs := PrStrings(p);
    var i: nat :=
      if AllWhitespace(p.title) then 0
      else if AllWhitespace(p.base.labelText) then 1
      else if AllWhitespace(p.base.ref) then 2
      else if AllWhitespace(p.base.sha) then 3
      else if AllWhitespace(p.head.labelText) then 4
      else if AllWhitespace(p.head.ref) then 5
      else 6;
    FirstBlankAt(xs, i, PullRequestFrom(ctx).error);
  }

  /** Packs one witness of the first blank string. */
  lemma FirstBlankAt(xs: seq<string>, i: nat, e: ParseFailure)
    requires i < |xs| && e == ParseFailure(xs[i]) && AllWhitespace(xs[i])
    requires forall j :: 0 <= j < i ==> !AllWhitespace(xs[j])
    ensures exists k ::
      0 <= k < |xs| && e == ParseFailure(xs[k])
      && AllWhitespace(xs[k]) && forall j :: 0 <= j < k ==> !AllWhitespace(xs[j])
  {
  }

  // -- The upload body --

  /** The results JSON, kept opaque. */
  datatype Json =
    | JNull
    | JBool(b: bool)
    | JNumber(n: int)
    | JString(s: string)
    | JArray(items: seq<Json>)
    | JObject(members: seq<(string, Json)>)

  const HeadsPrefix: string := "refs/heads/"

  /** The string the branch name is taken from: the pull request's head ref, or else the
      context ref with its first `refs/heads/` removed. */
  function BranchSource(ctx: Context): string {
    match ctx.pullRequest
    case Some(p) => p.head.ref
    case None => RemoveFirst(ctx.ref, HeadsPrefix)
  }

  /** The branch name, as a non-empty string. */
  function BranchName(ctx: Context): (r: Result<Nes, ParseFailure>)
    ensures r.Success? <==> !AllWhitespace(BranchSource(ctx))
    ensures r.Success? ==> r.value == Trim(BranchSource(ctx))
    ensures r.Failure? ==> r.error == ParseFailure(BranchSource(ctx))
  {
    NesUnsafeFromString(BranchSource(ctx))
  }

  /** On a push to a branch, `refs/heads/<b>` gives `<b>`. */
  lemma BranchOfPush(b: Nes)
    ensures BranchName(Context(HeadsPrefix + b, None)) == Success(b)
  {
    RemoveFirstPrefix(HeadsPrefix, b);
    NesIdempotent(b);
  }

  /** A ref without `refs/heads/` in it, such as a tag ref, is kept whole. */
  lemma BranchOfOtherRef(ref: string)
    requires forall i :: 0 <= i <= |ref| - |HeadsPrefix| ==> !OccursAt(ref, HeadsPrefix, i)
    ensures BranchName(Context(ref, None)).Success? <==> !AllWhitespace(ref)
    ensures BranchName(Context(ref, None)).Success? ==> BranchName(Context(ref, None)).value == Trim(ref)
  {
    RemoveFirstAbsent(ref, HeadsPrefix);
  }

  /** It is the first occurrence that is removed, wherever it is. */
  lemma BranchRemovesFirstOccurrence(ref: string, i: nat)
    requires OccursAt(ref, HeadsPrefix, i)
    requires forall j :: 0 <= j < i ==> !OccursAt(ref, HeadsPrefix, j)
    ensures BranchSource(Context(ref, None)) == ref[..i] + ref[i + |HeadsPrefix|..]
  {
    RemoveFirstAt(ref, HeadsPrefix, i);
  }

  /** With a pull request, the branch is its head ref, the same one sent in `pr`. */
  lemma BranchOfPullRequest(ctx: Context)
    requires PullRequestFrom(ctx).Success? && IsPullRequest(ctx)
    ensures BranchName(ctx) == Success(PullRequestFrom(ctx).value.value.headRef)
  {
    TrimEmptyIff(ctx.pullRequest.value.head.ref);
    assert !AllWhitespace(PrStrings(ctx.pullRequest.value)[5]);
  }

  /** The body posted to the Zeklin server. */
  datatype PostJmhResultBody = PostJmhResultBody(
    workflowRunId: int,
    workflowRunNumber: int,
    workflowRunnerName: Nes,
    workflowRunAttempt: int,
    runnerEnvironment: Nes,
    runnerOs: RunnerOs,
    runnerArch: RunnerArch,
    orgId: int,
    projectId: int,
    branchName: Nes,
    commitMessage: string,
    commitHash: Nes,
    previousCommitHash: Nes,
    actor: Nes,
    actorId: int,
    pr: Option<PullRequest>,
    data: Json,
    computedAt: int,
    context: Context)

  /** `PostJmhResultBody.unsafeFrom`: the branch name first, then the pull request, then the
      record; `computedAt` is a timestamp. */
  function MakeBody(
    env: EnvSnapshot, ctx: Context, data: Json, computedAt: int, commitMessage: string,
    before: Nes, after: Nes
  ): (r: Result<PostJmhResultBody, ParseFailure>)
    ensures r.Success? <==> BranchName(ctx).Success? && PullRequestFrom(ctx).Success?
    ensures r.Failure? ==> r.error == (if BranchName(ctx).Failure? then BranchName(ctx).error
      else PullRequestFrom(ctx).error)
  {
    var branchName :- BranchName(ctx);
    var pr :- PullRequestFrom(ctx);
    Success(PostJmhResultBody(
      env.runId, env.runNumber, env.runnerName, env.runAttempt, env.runnerEnvironment,
      env.runnerOs, env.runnerArch, env.repositoryOwnerId, env.repositoryId, branchName,
      commitMessage, after, before, env.actor, env.actorId, pr, data, computedAt, ctx))
  }

  /** The body's fields: the commit hashes are `after` and `before`; data, time, message and
      context are copied; run, runner, org, project and actor come from the snapshot; `pr` is
      the extracted pull request and the branch is the derived name. */
  lemma BodyFields(
    env: EnvSnapshot, ctx: Context, data: Json, computedAt: int, commitMessage: string,
    before: Nes, after: Nes
  )
    requires MakeBody(env, ctx, data, computedAt, commitMessage, before, after).Success?
    ensures var b := MakeBody(env, ctx, data, computedAt, commitMessage, before, after).value;
      && b.commitHash == after && b.previousCommitHash == before
      && b.data == data && b.computedAt == computedAt && b.commitMessage == commitMessage
      && b.context == ctx
      && b.workflowRunId == env.runId && b.workflowRunNumber == env.runNumber
      && b.workflowRunnerName == env.runnerName && b.workflowRunAttempt == env.runAttempt
      && b.runnerEnvironment == env.runnerEnvironment
      && b.runnerOs == env.runnerOs && b.runnerArch == env.runnerArch
      && b.orgId == env.repositoryOwnerId && b.projectId == env.repositoryId
      && b.actor == env.actor && b.actorId == env.actorId
      && Success(b.pr) == PullRequestFrom(ctx)
      && Success(b.branchName) == BranchName(ctx)
  {
  }

  // -- The results file --

  /** The path conventions `path.isAbsolute` follows. */
  datatype Platform = Posix | Win32

  predicate IsSeparator(platform: Platform, c: char) {
    c == '/' || (platform == Win32 && c == '\\')
  }

  predicate IsDriveLetter(c: char) {
    'A' <= c <= 'Z' || 'a' <= c <= 'z'
  }

  /** `path.isAbsolute`: a leading separator, or on Windows a drive letter, a colon and a
      separator. */
  predicate IsAbsolute(platform: Platform, p: string): (r: bool)
    ensures r ==> |p| > 0
    ensures platform == Posix ==> (r <==> |p| > 0 && p[0] == '/')
    ensures platform == Win32 && |p| > 0 && p[0] == '\\' ==> r
  {
    || (|p| > 0 && IsSeparator(platform, p[0]))
    || (platform == Win32 && |p| > 2 && IsDriveLetter(p[0]) && p[1] == ':' && IsSeparator(platform, p[2]))
  }

  /** The file `findResults` reads: the output path when it is absolute or there is no working
      directory, else the two joined with a `/`. */
  function ResultsPath(platform: Platform, output: string, workdir: Option<string>): (r: string)
    ensures IsAbsolute(platform, output) ==> r == output
    ensures !IsAbsolute(platform, output) && workdir.None? ==> r == output
    ensures !IsAbsolute(platform, output) && workdir.Some? ==> r == workdir.value + "/" + output
  {
    if IsAbsolute(platform, output) then output
    else match workdir
      case None => output
      case Some(dir) => dir + "/" + output
  }

  /** The chosen path always ends with the output path, and is absolute when the output path
      is, or when the working directory is used and is itself absolute. */
  lemma ResultsPathShape(platform: Platform, output: string, workdir: Option<string>)
    ensures var r := ResultsPath(platform, output, workdir);
      |output| <= |r| && r[|r| - |output|..] == output
    ensures IsAbsolute(platform, output) ==> IsAbsolute(platform, ResultsPath(platform, output, workdir))
    ensures workdir.Some? && IsAbsolute(platform, workdir.value) ==>
      IsAbsolute(platform, ResultsPath(platform, output, workdir))
  {
    var r := ResultsPath(platform, output, workdir);
    if !IsAbsolute(platform, output) && workdir.Some? {
      var dir := workdir.value;
      assert r[|r| - |output|..] == output;
      if IsAbsolute(platform, dir) {
        if |dir| > 0 && IsSeparator(platform, dir[0]) {
          assert r[0] == dir[0];
        } else {
          assert r[0] == dir[0] && r[1] == dir[1] && r[2] == dir[2];
        }
      }
    }
  }

  // -- Running the commands --

  /** What running one command gives: an exit code, or a rejected promise. */
  datatype ExecOutcome = Exited(code: int) | ExecRejected

  /** `ExitCode.Success`. */
  const SuccessExitCode: int := 0

  /** The commands ran to the end; `last` is the last exit code, absent for an empty list. */
  datatype ExecResult = Completed(last: Option<int>) | Stopped(index: nat)

  /** The index of the first rejected command, or the length when none is rejected. */
  function FirstRejected(outcomes: seq<ExecOutcome>): (r: nat)
    ensures r <= |outcomes|
    ensures forall j :: 0 <= j < r ==> outcomes[j].Exited?
    ensures r < |outcomes| ==> outcomes[r].ExecRejected?
  {
    if outcomes == [] || outcomes[0].ExecRejected? then 0
    else 1 + FirstRejected(outcomes[1..])
  }

  /** What the command list gives: the first rejection, or the last exit code. */
  function ExecResultOf(outcomes: seq<ExecOutcome>): ExecResult {
    var f := FirstRejected(outcomes);
    if f < |outcomes| then Stopped(f)
    else Completed(if |outcomes| == 0 then None else Some(outcomes[|outcomes| - 1].code))
  }

  /** How many commands are started: all of them, or up to the first rejected one. */
  function CommandsStarted(outcomes: seq<ExecOutcome>): (r: nat)
    ensures r <= |outcomes|
  {
    var f := FirstRejected(outcomes);
    if f < |outcomes| then f + 1 else f
  }

  /** `execCommands`: runs the commands in order, one at a time, stopping at the first that is
      rejected, and keeps the exit code of the last one. */
  method ExecCommands(cmds: seq<string>, outcomes: seq<ExecOutcome>)
    returns (result: ExecResult, ran: seq<string>)
    requires |outcomes| == |cmds|
    ensures result.Stopped? ==>
      && result.index < |cmds| && outcomes[result.index].ExecRejected?
      && (forall j :: 0 <= j < result.index ==> outcomes[j].Exited?)
      && ran == cmds[..result.index + 1]
    ensures result.Completed? ==>
      && (forall j :: 0 <= j < |cmds| ==> outcomes[j].Exited?)
      && ran == cmds
      && result.last == (if |cmds| == 0 then None else Some(outcomes[|cmds| - 1].code))
    ensures result == ExecResultOf(outcomes) && ran == cmds[..CommandsStarted(outcomes)]
  {
    var last: Option<int> := None;
    var i := 0;
    ran := [];
    while i < |cmds|
      invariant 0 <= i <= |cmds|
      invariant ran == cmds[..i]
      invariant forall j :: 0 <= j < i ==> outcomes[j].Exited?
      invariant last == (if i == 0 then None else Some(outcomes[i - 1].code))
    {
      ran := ran + [cmds[i]];
      if outcomes[i].ExecRejected? {
        return Stopped(i), ran;
      }
      last := Some(outcomes[i].code);
      i := i + 1;
    }
    result := Completed(last);
  }

  /** Every command ran and the last one exited with code 0. */
  predicate CommandsSucceed(outcomes: seq<ExecOutcome>) {
    && |outcomes| > 0
    && (forall j :: 0 <= j < |outcomes| ==> outcomes[j].Exited?)
    && outcomes[|outcomes| - 1].code == SuccessExitCode
  }

  /** The run goes past its exit-code check exactly when every command ran and the last exited
      with 0; an empty list gives no exit code, which is not success. */
  lemma CommandsSucceedIff(outcomes: seq<ExecOutcome>)
    ensures ExecResultOf(outcomes) == Completed(Some(SuccessExitCode)) <==> CommandsSucceed(outcomes)
    ensures outcomes == [] ==> ExecResultOf(outcomes) == Completed(None)
  {
  }

  // -- Retrying --

  /** `Schedule.recurs(3)`: three retries after the first attempt. */
  const MaxRetries: nat := 3
  const MaxAttempts: nat := MaxRetries + 1

  /** Some attempt within the budget succeeds. */
  predicate AnySucceeds(succeeds: seq<bool>)
    requires |succeeds| >= MaxAttempts
  {
    exists j :: 0 <= j < MaxAttempts && succeeds[j]
  }

  /** The attempts made from attempt `k` on: up to the first success, or to the last allowed. */
  function AttemptsFrom(succeeds: seq<bool>, k: nat): (r: nat)
    requires k < MaxAttempts <= |succeeds|
    ensures k < r <= MaxAttempts
    ensures forall j :: k <= j < r - 1 ==> !succeeds[j]
    ensures r < MaxAttempts ==> succeeds[r - 1]
    decreases MaxAttempts - k
  {
    if succeeds[k] || k == MaxAttempts - 1 then k + 1 else AttemptsFrom(succeeds, k + 1)
  }

  /** The attempts a retried call makes. */
  function AttemptsMade(succeeds: seq<bool>): (r: nat)
    requires |succeeds| >= MaxAttempts
  {
    AttemptsFrom(succeeds, 0)
  }

  /** The retry budget: between one and four attempts, the last one deciding; four when every
      attempt fails; the call succeeds exactly when some attempt within the budget does. */
  lemma AttemptsMadeSpec(succeeds: seq<bool>)
    requires |succeeds| >= MaxAttempts
    ensures var n := AttemptsMade(succeeds);
      && 1 <= n <= MaxAttempts
      && (forall j :: 0 <= j < n - 1 ==> !succeeds[j])
      && (!succeeds[n - 1] ==> n == MaxAttempts)
      && (succeeds[n - 1] <==> AnySucceeds(succeeds))
  {
    var n := AttemptsMade(succeeds);
    if !succeeds[n - 1] {
      assert forall j :: 0 <= j < MaxAttempts ==> !succeeds[j];
    }
  }

  /** `Effect.retry` under the schedule: attempts until one succeeds or the retries run out.
      `succeeds[j]` is the outcome of attempt `j`. */
  method Retry(succeeds: seq<bool>) returns (ok: bool, attempts: nat)
    requires |succeeds| >= MaxAttempts
    ensures 1 <= attempts <= MaxAttempts
    ensures forall j :: 0 <= j < attempts - 1 ==> !succeeds[j]
    ensures ok == succeeds[attempts - 1]
    ensures !ok ==> attempts == MaxAttempts
    ensures attempts == AttemptsMade(succeeds)
  {
    ok := succeeds[0];
    attempts := 1;
    while !ok && attempts < MaxAttempts
      invariant 1 <= attempts <= MaxAttempts
      invariant forall j :: 0 <= j < attempts - 1 ==> !succeeds[j]
      invariant ok == succeeds[attempts - 1]
      invariant AttemptsFrom(succeeds, 0) == AttemptsFrom(succeeds, attempts - 1)
      decreases MaxAttempts - attempts
    {
      ok := succeeds[attempts];
      attempts := attempts + 1;
    }
  }

  // -- The network --

  /** What one `fetch` gives: a response with its status, or a rejected promise. */
  datatype FetchOutcome = Responded(status: int) | FetchRejected

  /** `response.ok`. */
  predicate StatusOk(status: int) {
    200 <= status <= 299
  }

  /** An attempt as the code is written: the promise built for a failed status is not returned,
      so every response counts as success. */
  predicate AttemptSucceedsAsWritten(o: FetchOutcome) {
    o.Responded?
  }

  /** An attempt as intended: a response with an ok status. */
  predicate AttemptSucceeds(o: FetchOutcome) {
    o.Responded? && StatusOk(o.status)
  }

  /** As written, any response, with any status, makes the attempt succeed. */
  lemma AsWrittenAcceptsEveryResponse(status: int)
    ensures AttemptSucceedsAsWritten(Responded(status))
    ensures !StatusOk(status) ==> !AttemptSucceeds(Responded(status))
  {
  }

  /** A server error shows the difference: accepted as written, rejected as intended. */
  lemma ServerErrorAcceptedAsWritten()
    ensures AttemptSucceedsAsWritten(Responded(500)) && !AttemptSucceeds(Responded(500))
  {
  }

  /** The intended acceptance refines the written one: only a rejected fetch fails both. */
  lemma AttemptSucceedsRefines(o: FetchOutcome)
    ensures AttemptSucceeds(o) ==> AttemptSucceedsAsWritten(o)
    ensures o.FetchRejected? <==> (!AttemptSucceedsAsWritten(o) && !AttemptSucceeds(o))
  {
  }

  /** Which responses let an attempt pass: any response, as `pingServer` and `uploadResults`
      are written, or only a response with an ok status, as they are evidently meant. */
  datatype Acceptance = AnyResponse | OkStatus

  predicate Accepts(acc: Acceptance, o: FetchOutcome) {
    match acc
    case AnyResponse => AttemptSucceedsAsWritten(o)
    case OkStatus => AttemptSucceeds(o)
  }

  /** Some attempt within the budget got a response, whatever its status. */
  predicate AnyResponds(outcomes: seq<FetchOutcome>)
    requires |outcomes| >= MaxAttempts
  {
    exists j :: 0 <= j < MaxAttempts && outcomes[j].Responded?
  }

  /** Some attempt within the budget got a response with an ok status. */
  predicate AnyRespondsOk(outcomes: seq<FetchOutcome>)
    requires |outcomes| >= MaxAttempts
  {
    exists j :: 0 <= j < MaxAttempts && outcomes[j].Responded? && StatusOk(outcomes[j].status)
  }

  /** A network stage can pass under an acceptance: that acceptance's kind of response came
      within the budget. */
  predicate Passes(acc: Acceptance, outcomes: seq<FetchOutcome>)
    requires |outcomes| >= MaxAttempts
  {
    match acc
    case AnyResponse => AnyResponds(outcomes)
    case OkStatus => AnyRespondsOk(outcomes)
  }

  /** The attempt outcomes of a network stage under an acceptance. */
  function Successes(acc: Acceptance, outcomes: seq<FetchOutcome>): (r: seq<bool>)
    requires |outcomes| >= MaxAttempts
    ensures |r| == MaxAttempts
    ensures forall j :: 0 <= j < MaxAttempts ==> (r[j] <==> Accepts(acc, outcomes[j]))
  {
    seq(MaxAttempts, j requires 0 <= j < MaxAttempts => Accepts(acc, outcomes[j]))
  }

  /** A network stage passes, as written, exactly when some attempt gets any response, and, as
      intended, exactly when some attempt gets an ok status. */
  lemma StagePasses(outcomes: seq<FetchOutcome>)
    requires |outcomes| >= MaxAttempts
    ensures AnySucceeds(Successes(AnyResponse, outcomes)) <==> AnyResponds(outcomes)
    ensures AnySucceeds(Successes(OkStatus, outcomes)) <==> AnyRespondsOk(outcomes)
    ensures forall acc :: AnySucceeds(Successes(acc, outcomes)) <==> Passes(acc, outcomes)
  {
    var w := Successes(AnyResponse, outcomes);
    var k := Successes(OkStatus, outcomes);
    if AnyResponds(outcomes) {
      var j :| 0 <= j < MaxAttempts && outcomes[j].Responded?;
      assert w[j];
    }
    if AnyRespondsOk(outcomes) {
      var j :| 0 <= j < MaxAttempts && outcomes[j].Responded? && StatusOk(outcomes[j].status);
      assert k[j];
    }
  }

  /** As written, a server that answers every attempt with an error passes the stage on the
      first attempt; as intended, the stage retries three times and fails. */
  lemma ErrorResponsesAsWritten(outcomes: seq<FetchOutcome>)
    requires |outcomes| >= MaxAttempts
    requires forall j :: 0 <= j < MaxAttempts ==> outcomes[j].Responded? && !StatusOk(outcomes[j].status)
    ensures AttemptsMade(Successes(AnyResponse, outcomes)) == 1
    ensures AnySucceeds(Successes(AnyResponse, outcomes))
    ensures AttemptsMade(Successes(OkStatus, outcomes)) == MaxAttempts
    ensures !AnySucceeds(Successes(OkStatus, outcomes))
  {
    AttemptsMadeSpec(Successes(AnyResponse, outcomes));
    AttemptsMadeSpec(Successes(OkStatus, outcomes));
  }

  // -- The pipeline --

  /** The action inputs `run` reads. */
  datatype Inputs = Inputs(
    apiKey: string, apiKeyId: string, cmd: seq<string>, outputFilePath: string,
    workdir: Option<string>)

  /** Reading and parsing the results file. */
  datatype ReadOutcome = Unreadable | Malformed | Parsed(json: Json)

  /** What the run does to the outside world, in order. `credentials` is the pair before its
      Base64 encoding. */
  datatype Event =
    | Exec(cmd: string)
    | ReadResults(path: string)
    | Ping(url: string)
    | Post(url: string, credentials: string, body: PostJmhResultBody)
  {
    /** The pipeline stage the event belongs to. */
    function Stage(): nat {
      match this
      case Exec(_) => 0
      case ReadResults(_) => 1
      case Ping(_) => 2
      case Post(_, _, _) => 3
    }
  }

  /** Why a run fails. */
  datatype RunError =
    | CommandRejected(index: nat)
    | NonZeroExit(code: Option<int>)
    | ReadFailed(path: string)
    | ParseFailed(path: string)
    | PingFailed(last: FetchOutcome)
    | InvalidBody(failure: ParseFailure)
    | UploadFailed(last: FetchOutcome)

  /** The number of events of a stage. */
  function Count(trace: seq<Event>, stage: nat): (r: nat)
    ensures r <= |trace|
  {
    if trace == [] then 0
    else Count(trace[..|trace| - 1], stage) + (if trace[|trace| - 1].Stage() == stage then 1 else 0)
  }

  lemma {:induction false} CountAppend(a: seq<Event>, b: seq<Event>, stage: nat)
    ensures Count(a + b, stage) == Count(a, stage) + Count(b, stage)
    decreases |b|
  {
    if b != [] {
      assert (a + b)[..|a + b| - 1] == a + b[..|b| - 1];
      CountAppend(a, b[..|b| - 1], stage);
    } else {
      assert a + b == a;
    }
  }

  /** A trace all of one stage counts every event for that stage and none for another. */
  lemma {:induction false} CountUniform(trace: seq<Event>, s: nat, stage: nat)
    requires forall i :: 0 <= i < |trace| ==> trace[i].Stage() == s
    ensures Count(trace, stage) == if s == stage then |trace| else 0
    decreases |trace|
  {
    if trace != [] {
      CountUniform(trace[..|trace| - 1], s, stage);
    }
  }

  predicate StagesInOrder(trace: seq<Event>) {
    forall i, j :: 0 <= i < j < |trace| ==> trace[i].Stage() <= trace[j].Stage()
  }

  predicate AllOfStage(trace: seq<Event>, s: nat) {
    forall i :: 0 <= i < |trace| ==> trace[i].Stage() == s
  }

  /** Four blocks, one per stage, laid end to end: the stages are in order, each block is
      counted for its own stage, and each event sits in its stage's block. */
  lemma Layered(a: seq<Event>, b: seq<Event>, c: seq<Event>, d: seq<Event>)
    requires AllOfStage(a, 0) && AllOfStage(b, 1) && AllOfStage(c, 2) && AllOfStage(d, 3)
    ensures var t := a + b + c + d;
      && StagesInOrder(t)
      && Count(t, 1) == |b| && Count(t, 2) == |c| && Count(t, 3) == |d|
      && (forall i :: 0 <= i < |t| && t[i].Stage() == 0 ==> i < |a| && t[i] == a[i])
      && (forall i :: 0 <= i < |t| && t[i].Stage() == 1 ==> |a| <= i && t[i] == b[i - |a|])
      && (forall i :: 0 <= i < |t| && t[i].Stage() == 2 ==> |a| + |b| <= i && t[i] == c[i - |a| - |b|])
      && (forall i :: 0 <= i < |t| && t[i].Stage() == 3 ==> |a| + |b| + |c| <= i && t[i] == d[i - |a| - |b| - |c|])
  {
    var t := a + b + c + d;
    forall k: nat | 1 <= k <= 3
      ensures Count(t, k) == if k == 1 then |b| else if k == 2 then |c| else |d|
    {
      CountUniform(a, 0, k);
      CountUniform(b, 1, k);
      CountUniform(c, 2, k);
      CountUniform(d, 3, k);
      CountAppend(a, b, k);
      CountAppend(a + b, c, k);
      CountAppend(a + b + c, d, k);
    }
    assert Count(t, 1) == |b| && Count(t, 2) == |c| && Count(t, 3) == |d|;
    forall i | 0 <= i < |t|
      ensures t[i].Stage() == (if i < |a| then 0 else if i < |a| + |b| then 1
        else if i < |a| + |b| + |c| then 2 else 3)
      ensures i < |a| ==> t[i] == a[i]
      ensures |a| <= i < |a| + |b| ==> t[i] == b[i - |a|]
      ensures |a| + |b| <= i < |a| + |b| + |c| ==> t[i] == c[i - |a| - |b|]
      ensures |a| + |b| + |c| <= i ==> t[i] == d[i - |a| - |b| - |c|]
    {
    }
  }

  /** One `Exec` event per started command, in order. */
  function ExecEvents(cmds: seq<string>): (r: seq<Event>)
    ensures |r| == |cmds| && AllOfStage(r, 0)
    ensures forall k :: 0 <= k < |r| ==> r[k] == Exec(cmds[k])
  {
    seq(|cmds|, k requires 0 <= k < |cmds| => Exec(cmds[k]))
  }

  /** The same event once per attempt. */
  function Repeat(e: Event, n: nat): (r: seq<Event>)
    ensures |r| == n && AllOfStage(r, e.Stage())
    ensures forall k :: 0 <= k < n ==> r[k] == e
  {
    seq(n, _ => e)
  }

  /** The ping and upload endpoints: two different paths under the Zeklin server URL. */
  function PingUrl(env: EnvSnapshot): (r: string)
    ensures StartsWith(r, env.zeklinServerUrl) && r != UploadUrl(env)
  {
    var u := env.zeklinServerUrl + "/ping";
    assert u[|env.zeklinServerUrl| + 1] == 'p' != UploadUrl(env)[|env.zeklinServerUrl| + 1];
    u
  }

  function UploadUrl(env: EnvSnapshot): (r: string)
    ensures StartsWith(r, env.zeklinServerUrl)
  {
    env.zeklinServerUrl + "/api/runs/jmh"
  }

  /** The `Basic` credentials, before their Base64 encoding. */
  function Credentials(inputs: Inputs): (r: string)
    ensures |r| == |inputs.apiKeyId| + 1 + |inputs.apiKey|
  {
    inputs.apiKeyId + ":" + inputs.apiKey
  }

  /** The server splits the credentials at their first colon; a key id without a colon comes
      back whole, and so does the key, whatever it holds. */
  lemma CredentialsSplit(inputs: Inputs)
    requires ':' !in inputs.apiKeyId
    ensures var r := Credentials(inputs); var n := |inputs.apiKeyId|;
      && r[n] == ':' && (forall i :: 0 <= i < n ==> r[i] != ':')
      && r[..n] == inputs.apiKeyId && r[n + 1..] == inputs.apiKey
  {
    var r := Credentials(inputs);
    var n := |inputs.apiKeyId|;
    assert r[..n] == inputs.apiKeyId;
    assert r[n + 1..] == inputs.apiKey;
    forall i | 0 <= i < n
      ensures r[i] != ':'
    {
      assert r[i] == inputs.apiKeyId[i];
    }
  }

  /** What the outside world answers during one run: the platform's path rules, the time taken
      after the commands, and the outcomes of the commands, of reading the results, and of
      every ping and upload attempt. */
  datatype World = World(
    platform: Platform, now: int, execOutcomes: seq<ExecOutcome>, readOutcome: ReadOutcome,
    pingOutcomes: seq<FetchOutcome>, uploadOutcomes: seq<FetchOutcome>)

  /** One outcome per command, and one per attempt for each network stage. */
  predicate Answers(w: World, inputs: Inputs) {
    |w.execOutcomes| == |inputs.cmd| && |w.pingOutcomes| >= MaxAttempts
    && |w.uploadOutcomes| >= MaxAttempts
  }

  /** A run: its result and, per stage, the events it caused. */
  datatype RunOutcome = RunOutcome(
    result: Result<(), RunError>, execEvents: seq<Event>, readEvents: seq<Event>,
    pingEvents: seq<Event>, postEvents: seq<Event>)
  {
    /** Everything the run did, in order. */
    function Trace(): seq<Event> {
      execEvents + readEvents + pingEvents + postEvents
    }
  }

  /** `run`, stage by stage: the first failing stage ends the run with its error. */
  function RunSpec(
    env: EnvSnapshot, ctx: Context, inputs: Inputs, before: Nes, after: Nes,
    commitMessage: string, acc: Acceptance, w: World
  ): (r: RunOutcome)
    requires Answers(w, inputs)
    ensures r.result.Success? ==>
      |r.readEvents| == 1 && 1 <= |r.pingEvents| && 1 <= |r.postEvents|
    ensures r.result.Failure? ==> |r.postEvents| == 0 || r.result.error.UploadFailed?
  {
    var execEvents := ExecEvents(inputs.cmd[..CommandsStarted(w.execOutcomes)]);
    match ExecResultOf(w.execOutcomes)
    case Stopped(index) => RunOutcome(Failure(CommandRejected(index)), execEvents, [], [], [])
    case Completed(last) =>
      if last != Some(SuccessExitCode) then
        RunOutcome(Failure(NonZeroExit(last)), execEvents, [], [], [])
      else
        var path := ResultsPath(w.platform, inputs.outputFilePath, inputs.workdir);
        match w.readOutcome
        case Unreadable => RunOutcome(Failure(ReadFailed(path)), execEvents, [ReadResults(path)], [], [])
        case Malformed => RunOutcome(Failure(ParseFailed(path)), execEvents, [ReadResults(path)], [], [])
        case Parsed(data) =>
          var pings := AttemptsMade(Successes(acc, w.pingOutcomes));
          var pingEvents := Repeat(Ping(PingUrl(env)), pings);
          if !Accepts(acc, w.pingOutcomes[pings - 1]) then
            RunOutcome(Failure(PingFailed(w.pingOutcomes[pings - 1])), execEvents,
              [ReadResults(path)], pingEvents, [])
          else
            match MakeBody(env, ctx, data, w.now, commitMessage, before, after)
            case Failure(e) =>
              RunOutcome(Failure(InvalidBody(e)), execEvents, [ReadResults(path)], pingEvents, [])
            case Success(body) =>
              var posts := AttemptsMade(Successes(acc, w.uploadOutcomes));
              var postEvents := Repeat(Post(UploadUrl(env), Credentials(inputs), body), posts);
              var uploaded := Accepts(acc, w.uploadOutcomes[posts - 1]);
              RunOutcome(
                if uploaded then Success(()) else Failure(UploadFailed(w.uploadOutcomes[posts - 1])),
                execEvents, [ReadResults(path)], pingEvents, postEvents)
  }

  /** Each block of a run holds events of its own stage only. */
  lemma RunBlocks(
    env: EnvSnapshot, ctx: Context, inputs: Inputs, before: Nes, after: Nes,
    commitMessage: string, acc: Acceptance, w: World
  )
    requires Answers(w, inputs)
    ensures var o := RunSpec(env, ctx, inputs, before, after, commitMessage, acc, w);
      && AllOfStage(o.execEvents, 0) && AllOfStage(o.readEvents, 1)
      && AllOfStage(o.pingEvents, 2) && AllOfStage(o.postEvents, 3)
  {
    RunLocalBlocks(env, ctx, inputs, before, after, commitMessage, acc, w);
    RunNetworkBlocks(env, ctx, inputs, before, after, commitMessage, acc, w);
  }

  lemma RunLocalBlocks(
    env: EnvSnapshot, ctx: Context, inputs: Inputs, before: Nes, after: Nes,
    commitMessage: string, acc: Acceptance, w: World
  )
    requires Answers(w, inputs)
    ensures var o := RunSpec(env, ctx, inputs, before, after, commitMessage, acc, w);
      AllOfStage(o.execEvents, 0) && AllOfStage(o.readEvents, 1)
  {
  }

  lemma RunNetworkBlocks(
    env: EnvSnapshot, ctx: Context, inputs: Inputs, before: Nes, after: Nes,
    commitMessage: string, acc: Acceptance, w: World
  )
    requires Answers(w, inputs)
    ensures var o := RunSpec(env, ctx, inputs, before, after, commitMessage, acc, w);
      AllOfStage(o.pingEvents, 2) && AllOfStage(o.postEvents, 3)
  {
  }

  /** A run's events come in stage order, and the commands it starts are a prefix of the
      command list, started in list order. */
  lemma RunInOrder(
    env: EnvSnapshot, ctx: Context, inputs: Inputs, before: Nes, after: Nes,
    commitMessage: string, acc: Acceptance, w: World
  )
    requires Answers(w, inputs)
    ensures var t := RunSpec(env, ctx, inputs, before, after, commitMessage, acc, w).Trace();
      && StagesInOrder(t)
      && forall i :: 0 <= i < |t| && t[i].Exec? ==> i < |inputs.cmd| && t[i] == Exec(inputs.cmd[i])
  {
    var o := RunSpec(env, ctx, inputs, before, after, commitMessage, acc, w);
    RunBlocks(env, ctx, inputs, before, after, commitMessage, acc, w);
    Layered(o.execEvents, o.readEvents, o.pingEvents, o.postEvents);
    var t := o.Trace();
    forall i | 0 <= i < |t| && t[i].Exec?
      ensures i < |inputs.cmd| && t[i] == Exec(inputs.cmd[i])
    {
      assert t[i].Stage() == 0;
    }
  }

  /** The results file is read at most once, and the server is pinged and posted to at most
      four times each. */
  lemma RunBounds(
    env: EnvSnapshot, ctx: Context, inputs: Inputs, before: Nes, after: Nes,
    commitMessage: string, acc: Acceptance, w: World
  )
    requires Answers(w, inputs)
    ensures var t := RunSpec(env, ctx, inputs, before, after, commitMessage, acc, w).Trace();
      Count(t, 1) <= 1 && Count(t, 2) <= MaxAttempts && Count(t, 3) <= MaxAttempts
  {
    var o := RunSpec(env, ctx, inputs, before, after, commitMessage, acc, w);
    RunBlocks(env, ctx, inputs, before, after, commitMessage, acc, w);
    Layered(o.execEvents, o.readEvents, o.pingEvents, o.postEvents);
  }

  /** Short-circuiting: without a zero exit code only commands run; the results are read
      exactly when the commands succeeded; the ping comes only after a parsed results file; a
      post only after a successful ping. */
  lemma RunShortCircuits(
    env: EnvSnapshot, ctx: Context, inputs: Inputs, before: Nes, after: Nes,
    commitMessage: string, acc: Acceptance, w: World
  )
    requires Answers(w, inputs)
    ensures var o := RunSpec(env, ctx, inputs, before, after, commitMessage, acc, w);
      && (!CommandsSucceed(w.execOutcomes) ==> o.result.Failure? && o.Trace() == o.execEvents)
      && (|o.readEvents| == 1 <==> CommandsSucceed(w.execOutcomes))
      && (|o.pingEvents| > 0 <==> CommandsSucceed(w.execOutcomes) && w.readOutcome.Parsed?)
      && (|o.postEvents| > 0 ==>
        CommandsSucceed(w.execOutcomes) && w.readOutcome.Parsed? && Passes(acc, w.pingOutcomes))
  {
    CommandsSucceedIff(w.execOutcomes);
    AttemptsMadeSpec(Successes(acc, w.pingOutcomes));
    StagePasses(w.pingOutcomes);
    var o := RunSpec(env, ctx, inputs, before, after, commitMessage, acc, w);
    if !CommandsSucceed(w.execOutcomes) {
      assert o.Trace() == o.execEvents + [] + [] + [];
    }
  }

  /** What the events carry: the chosen results path, the ping URL, and for every post the
      upload URL, the credentials and the body built from the parsed results and the time taken
      after the commands. */
  lemma RunEvents(
    env: EnvSnapshot, ctx: Context, inputs: Inputs, before: Nes, after: Nes,
    commitMessage: string, acc: Acceptance, w: World
  )
    requires Answers(w, inputs)
    ensures var o := RunSpec(env, ctx, inputs, before, after, commitMessage, acc, w);
      && (forall e :: e in o.readEvents ==>
        e == ReadResults(ResultsPath(w.platform, inputs.outputFilePath, inputs.workdir)))
      && (forall e :: e in o.pingEvents ==> e == Ping(PingUrl(env)))
      && (forall e :: e in o.postEvents ==>
        && w.readOutcome.Parsed? && e.Post? && e.url == UploadUrl(env)
        && e.credentials == Credentials(inputs)
        && Success(e.body) == MakeBody(env, ctx, w.readOutcome.json, w.now, commitMessage, before, after))
  {
  }

  /** A run succeeds exactly when the commands succeed, the results parse, a ping and an upload
      each succeed within the retry budget, and the body can be built. */
  lemma RunSucceedsIff(
    env: EnvSnapshot, ctx: Context, inputs: Inputs, before: Nes, after: Nes,
    commitMessage: string, acc: Acceptance, w: World
  )
    requires Answers(w, inputs)
    ensures RunSpec(env, ctx, inputs, before, after, commitMessage, acc, w).result.Success? <==>
      && CommandsSucceed(w.execOutcomes) && w.readOutcome.Parsed?
      && Passes(acc, w.pingOutcomes)
      && MakeBody(env, ctx, w.readOutcome.json, w.now, commitMessage, before, after).Success?
      && Passes(acc, w.uploadOutcomes)
  {
    CommandsSucceedIff(w.execOutcomes);
    AttemptsMadeSpec(Successes(acc, w.pingOutcomes));
    AttemptsMadeSpec(Successes(acc, w.uploadOutcomes));
    StagePasses(w.pingOutcomes);
    StagePasses(w.uploadOutcomes);
  }

  /** A world in which the commands succeed, the results parse, the body can be built, and the
      server answers every ping and upload attempt with an error status. */
  predicate ErrorWorld(
    env: EnvSnapshot, ctx: Context, inputs: Inputs, before: Nes, after: Nes,
    commitMessage: string, w: World
  )
    requires Answers(w, inputs)
  {
    && CommandsSucceed(w.execOutcomes) && w.readOutcome.Parsed?
    && MakeBody(env, ctx, w.readOutcome.json, w.now, commitMessage, before, after).Success?
    && (forall j :: 0 <= j < MaxAttempts ==>
      w.pingOutcomes[j].Responded? && !StatusOk(w.pingOutcomes[j].status))
    && (forall j :: 0 <= j < MaxAttempts ==>
      w.uploadOutcomes[j].Responded? && !StatusOk(w.uploadOutcomes[j].status))
  }

  /** As written, a server answering every request with an error is pinged once, is posted to
      once, and the run succeeds. */
  lemma RunErrorResponsesAsWritten(
    env: EnvSnapshot, ctx: Context, inputs: Inputs, before: Nes, after: Nes,
    commitMessage: string, w: World
  )
    requires Answers(w, inputs)
    requires ErrorWorld(env, ctx, inputs, before, after, commitMessage, w)
    ensures var o := RunSpec(env, ctx, inputs, before, after, commitMessage, AnyResponse, w);
      o.result.Success? && |o.pingEvents| == 1 && |o.postEvents| == 1
  {
    CommandsSucceedIff(w.execOutcomes);
    ErrorResponsesAsWritten(w.pingOutcomes);
    ErrorResponsesAsWritten(w.uploadOutcomes);
  }

  /** As intended, the same server is pinged four times, nothing is posted, and the run fails
      with the last ping's response. */
  lemma RunErrorResponsesOkStatus(
    env: EnvSnapshot, ctx: Context, inputs: Inputs, before: Nes, after: Nes,
    commitMessage: string, w: World
  )
    requires Answers(w, inputs)
    requires ErrorWorld(env, ctx, inputs, before, after, commitMessage, w)
    ensures var o := RunSpec(env, ctx, inputs, before, after, commitMessage, OkStatus, w);
      && o.result == Failure(PingFailed(w.pingOutcomes[MaxAttempts - 1]))
      && |o.pingEvents| == MaxAttempts && o.postEvents == []
  {
    CommandsSucceedIff(w.execOutcomes);
    ErrorResponsesAsWritten(w.pingOutcomes);
  }

  /** `run`: executes the commands; on exit code 0 takes the time, reads and parses the
      results, pings the server, then uploads; the first stage that fails ends the run with
      its error. */
  method RunAction(
    env: EnvSnapshot, ctx: Context, inputs: Inputs, before: Nes, after: Nes,
    commitMessage: string, acc: Acceptance, w: World
  ) returns (result: Result<(), RunError>, trace: seq<Event>)
    requires Answers(w, inputs)
    ensures var o := RunSpec(env, ctx, inputs, before, after, commitMessage, acc, w);
      result == o.result && trace == o.Trace()
  {
    var execResult, ran := ExecCommands(inputs.cmd, w.execOutcomes);
    var execEvents := ExecEvents(ran);
    var readEvents: seq<Event> := [];
    var pingEvents: seq<Event> := [];
    var postEvents: seq<Event> := [];
    if execResult.Stopped? {
      result := Failure(CommandRejected(execResult.index));
    } else if execResult.last != Some(SuccessExitCode) {
      result := Failure(NonZeroExit(execResult.last));
    } else {
      // The commands succeeded: the time is taken now, and the results are read.
      var computedAt := w.now;
      var path := ResultsPath(w.platform, inputs.outputFilePath, inputs.workdir);
      readEvents := [ReadResults(path)];
      match w.readOutcome {
        case Unreadable =>
          result := Failure(ReadFailed(path));
        case Malformed =>
          result := Failure(ParseFailed(path));
        case Parsed(data) =>
          var pinged, pings := Retry(Successes(acc, w.pingOutcomes));
          pingEvents := Repeat(Ping(PingUrl(env)), pings);
          if !pinged {
            result := Failure(PingFailed(w.pingOutcomes[pings - 1]));
          } else {
            // Each upload attempt builds the body first; a body that cannot be built fails
            // every attempt the same way, before anything is posted.
            match MakeBody(env, ctx, data, computedAt, commitMessage, before, after) {
              case Failure(e) =>
                result := Failure(InvalidBody(e));
              case Success(body) =>
                var uploaded, posts := Retry(Successes(acc, w.uploadOutcomes));
                postEvents := Repeat(Post(UploadUrl(env), Credentials(inputs), body), posts);
                result := if uploaded then Success(()) else Failure(UploadFailed(w.uploadOutcomes[posts - 1]));
            }
          }
      }
    }
    trace := execEvents + readEvents + pingEvents + postEvents;
  }
}
