# zeklin-action core, modelled in Dafny

zeklin-action is a GitHub Action that does four things in order:

1. It runs a user's benchmark commands.
2. It reads the JMH results file those commands wrote.
3. It checks that the Zeklin server answers a ping.
4. It posts the results to the server. The posted body carries the run's provenance: workflow run, runner, repository, branch, commits, actor and pull request.

The server calls in steps 3 and 4 are each retried up to three times, stopping at the first success. This project models two source files:

- `src/envvars.ts` reads and validates the CI environment variables at load time. It uses these validators: non-empty trimmed strings (`NES`), `https://` URLs, lower-cased runner OS and architecture names, and branch/tag refs.
- `src/run.ts` holds the pipeline: the pull-request extraction, the upload body, command execution, the results path, the retried ping and upload, and `run` itself.

The model has four modules, one per file:

- `Wrappers` (`wrappers.dfy`): `Option` and `Result`.
- `JsString` (`jsstring.dfy`): the JavaScript string built-ins the source relies on, written out. These are `trim` with the ECMAScript whitespace set, ASCII `toLowerCase`, `replace` with a string pattern (which removes only the first occurrence), and decimal rendering of integers.
- `EnvVars` (`envvars.dfy`): the validators and readers. The environment is a `map<string, string>`. Module loading becomes the function `Snapshot`. It either yields every constant or fails on the first failing one, in declaration order.
- `Run` (`run.dfy`): the pipeline.
  - `ExecCommands` and `Retry` are methods with loops, as in the source.
  - `RunAction` is the whole `run` effect. It is written as a method and proved equal to the specification function `RunSpec`.
  - `RunSpec` returns the result and the trace of external events: commands run, file read, pings, posts.
  - The outside world is a `World` value. It gives each command's outcome, the file-read outcome, each ping and upload response, and the platform and clock.
  - Whether a server response lets a ping or upload attempt pass is an `Acceptance` parameter. `AnyResponse` is the code as written: any response passes. `OkStatus` is the evidently intended rule: only a 2xx status passes. `run` itself is `RunSpec` and `RunAction` with `AnyResponse`; the Findings below compare the two.

## Model

| member | source | states |
|---|---|---|
| JsString.TrimSpec | src/envvars.ts:6 | `trim` removes exactly a whitespace prefix and a whitespace suffix; the result does not start or end with whitespace |
| JsString.TrimEmptyIff | src/envvars.ts:6-7 | the trimmed string is empty exactly when the input is all whitespace |
| JsString.TrimIdempotent | src/envvars.ts:6 | trimming twice gives the same as trimming once |
| JsString.TrimmedUnchanged | src/envvars.ts:6 | a string with no whitespace at either end is its own trim |
| JsString.ToLowerSpec | src/envvars.ts:158 | lower-casing keeps the length, leaves no upper-case ASCII letter, and leaves an already lower-case string unchanged |
| JsString.ToLowerIdempotent | src/envvars.ts:158 | lower-casing twice gives the same as lower-casing once |
| JsString.RemoveFirstAt | src/run.ts:81 | `replace` with a string pattern cuts out exactly the first occurrence |
| JsString.RemoveFirstAbsent | src/run.ts:81 | `replace` leaves a string without the pattern unchanged |
| JsString.RemoveFirstPrefix | src/run.ts:81 | `replace` removes a leading pattern and keeps the rest |
| JsString.NatToStringValue | src/envvars.ts:193 | the decimal rendering of a natural number reads back as that number |
| EnvVars.NesFromString | src/envvars.ts:5-10 | `NES.fromString` succeeds exactly on strings that are not all whitespace, and yields the trimmed string |
| EnvVars.NesUnsafeFromString | src/envvars.ts:11 | `NES.unsafeFromString` succeeds exactly when `fromString` does, and otherwise fails with a parse failure naming the input |
| EnvVars.NesIdempotent | src/envvars.ts:5-10 | parsing a value that is already `NES` gives it back unchanged |
| EnvVars.HttpsUrlFromString | src/envvars.ts:14-19 | a URL parses exactly when its trim starts with `https://`; the value is the trimmed string |
| EnvVars.HttpsUrlIsNes | src/envvars.ts:14-19 | every valid URL is also a non-empty trimmed string |
| EnvVars.RefMakeSpec | src/envvars.ts:23-34 | `Ref_.unsafeMake` accepts exactly the types that lower-case to `branch` or `tag`, giving `Branch` or `Tag` carrying the name; anything else fails |
| EnvVars.RefRoundTrip | src/envvars.ts:21-34 | rebuilding a ref from its own type name and name gives the same ref |
| EnvVars.RunnerOsSpec | src/envvars.ts:36-50 | the OS parses exactly when its lower-cased form is `linux`, `windows` or `macos`, and yields the OS with that name |
| EnvVars.RunnerOsRoundTrip | src/envvars.ts:36-50 | every OS parses back from its own name |
| EnvVars.RunnerOsMixedCase | src/envvars.ts:158 | the runner's own spelling `macOS` is read as `macos`, because the name is lower-cased before matching |
| EnvVars.RunnerArchSpec | src/envvars.ts:52-68 | the architecture parses exactly when its lower-cased form is `x86`, `x64`, `arm` or `arm64`, and yields that architecture |
| EnvVars.RunnerArchRoundTrip | src/envvars.ts:52-68 | every architecture parses back from its own name |
| EnvVars.ServerUrlFrom | src/envvars.ts:75 | the server URL is the trimmed variable, or `https://api.zeklin.io` when it is not set; it fails only on a blank value, naming `ZEKLIN_SERVER_URL` |
| EnvVars.ServerUrlCases | src/envvars.ts:75 | when unset, the default is used and is a valid https URL; when set, the trimmed value is used |
| EnvVars.ServerUrlNotHttpsChecked | src/envvars.ts:75 | a non-blank `http://` server URL is accepted, because only `NES` is checked there |
| EnvVars.NesVar | src/envvars.ts:95 | a string variable is read exactly when present and not blank; the value is trimmed; failure says whether the variable was missing or invalid |
| EnvVars.HttpsUrlVar | src/envvars.ts:170 | a URL variable is read exactly when present and a valid https URL; failure says missing or invalid |
| EnvVars.RunnerOsFrom | src/envvars.ts:158 | `RUNNER_OS` is lower-cased, not trimmed, and must name an OS |
| EnvVars.RunnerArchFrom | src/envvars.ts:164 | `RUNNER_ARCH` is lower-cased, not trimmed, and must name an architecture |
| EnvVars.WorkflowUrlAlwaysValid | src/envvars.ts:193 | the workflow URL `<server>/<repository>/actions/runs/<run id>` built from a valid server URL is itself a valid https URL |
| EnvVars.RefFrom | src/envvars.ts:195 | `REF` is the ref built from the ref type and ref name, and fails exactly when the type is neither `branch` nor `tag` in any case |
| EnvVars.IdentityConsts | src/envvars.ts:75-130 | the fallible constants among the first ones (server URL, runner name, repository and SHA) are read in declaration order, each as its own reader gives it; the numbers between them cannot throw and are stated by `AssembleValues` |
| EnvVars.RefConsts | src/envvars.ts:137-151 | the ref name, ref type and runner environment are read in order as trimmed strings |
| EnvVars.RunnerConsts | src/envvars.ts:158-170 | the runner OS and architecture are the lower-cased variables, and the API URL is the trimmed variable |
| EnvVars.ActorConsts | src/envvars.ts:176-188 | the actor and the GitHub server URL are read in order; the actor id cannot throw and is stated by `AssembleValues` |
| EnvVars.Assemble | src/envvars.ts:193-195 | the last two constants succeed exactly when the ref type is valid; otherwise `REF` fails with an invalid ref |
| EnvVars.Snapshot | src/envvars.ts:75-195 | loading the module evaluates the constants in declaration order and stops at the first that throws; a loaded `REF` is the ref of the loaded type and name, and `WORKFLOW_URL` joins the server URL, repository and run id |
| EnvVars.SnapshotSucceedsIff | src/envvars.ts:75-195 | loading succeeds exactly when every constant, `WORKFLOW_URL` and `REF` included, reads on its own |
| EnvVars.SnapshotFirstFailure | src/envvars.ts:75-195 | a failed load names a constant that fails, and every constant declared before it reads successfully |
| EnvVars.AssembleValues | src/envvars.ts:82-195 | numbers are `Number()` of the raw variables; the workflow URL is the server URL, repository and run id joined; `REF` is the ref from the ref type and name |
| EnvVars.SnapshotValues | src/envvars.ts:75-195 | when every constant reads, the snapshot holds each trimmed or lower-cased variable, each of the six numbers as `Number()` of its variable, the workflow URL and the ref |
| Run.IsPullRequest | src/run.ts:16 | the context is a pull request exactly when its payload holds a pull request; its contract is stated through `PullRequestFrom`, which yields a pull request exactly then |
| Run.SideFrom | src/run.ts:41-46 | a pull-request side is read exactly when its label, ref and SHA are all non-blank; the value is trimmed and the error names the first blank one |
| Run.PullRequestFrom | src/run.ts:33-52 | no pull request gives none; with one, extraction succeeds exactly when title, base label/ref/sha and head label/ref/sha are non-blank, copying id, number and user id and trimming the strings |
| Run.PullRequestFirstFailure | src/run.ts:37-48 | a failed extraction names the first blank string in field order |
| Run.BranchName | src/run.ts:79-82 | the branch is the PR head ref, or else the ref with `refs/heads/` removed, trimmed; it fails exactly when that is blank |
| Run.BranchOfPush | src/run.ts:81 | a push to `refs/heads/<b>` gives branch `<b>` |
| Run.BranchOfOtherRef | src/run.ts:81 | a ref without `refs/heads/`, such as a tag ref, is kept whole and trimmed |
| Run.BranchRemovesFirstOccurrence | src/run.ts:81 | the first `refs/heads/` is cut out wherever it occurs, and nothing else is |
| Run.BranchOfPullRequest | src/run.ts:79-81 | in a pull request the branch is the same head ref that is sent in `pr` |
| Run.MakeBody | src/run.ts:77-105 | the body is built exactly when the branch name and the pull request both extract; the branch name's failure is reported first |
| Run.BodyFields | src/run.ts:84-104 | each body field is its source: `after` as the commit hash, `before` as the previous one, the environment constants, the data, time, message and context |
| Run.IsAbsolute | src/run.ts:147 | `path.isAbsolute`: an absolute path is never empty; on POSIX a path is absolute exactly when it starts with `/`; on Windows a leading `\` also makes it absolute |
| Run.ResultsPath | src/run.ts:146-153 | an absolute output path is used as is; a relative one is joined under the working directory when one is given |
| Run.ResultsPathShape | src/run.ts:146-153 | the path chosen always ends with the output path, and is absolute when the output path is or when an absolute working directory is used |
| Run.FirstRejected | src/run.ts:126-135 | the commands before the first rejected one all exited, and that one was rejected |
| Run.ExecCommands | src/run.ts:108-137 | commands run in order until one is rejected; the result is that command's index, or the last command's exit code when all ran |
| Run.CommandsSucceedIff | src/run.ts:234-237 | the run carries on exactly when every command exits and the last exit code is zero; an empty command list gives no exit code |
| Run.AttemptsFrom | src/run.ts:185 | from any attempt, the attempts stop at the first success or after the fourth attempt |
| Run.AttemptsMadeSpec | src/run.ts:185 | `recurs(3)` makes between 1 and 4 attempts; all but the last fail; fewer than 4 only on success; the last succeeds exactly when any of the 4 would |
| Run.Retry | src/run.ts:220 | the retry loop makes the same attempts as that schedule and reports the last attempt's outcome |
| Run.AsWrittenAcceptsEveryResponse | src/run.ts:177-181 | as written, every response, whatever its status, counts as a successful attempt |
| Run.ServerErrorAcceptedAsWritten | src/run.ts:212-216 | as written, a `500` response counts as a successful attempt |
| Run.AttemptSucceedsRefines | src/run.ts:177-181 | a 2xx attempt also succeeds as written, so the corrected check only adds failures |
| Run.StagePasses | src/run.ts:168-221 | a ping or upload stage passes, as written, exactly when some attempt of the 4 gets any response, and, as intended, exactly when one gets a 2xx status |
| Run.ErrorResponsesAsWritten | src/run.ts:168-186 | with only error responses, the Effect as written stops after one attempt and succeeds, while the corrected check makes 4 attempts (3 retries) and fails |
| Run.PingUrl | src/run.ts:171 | the ping goes to a URL under the Zeklin server URL, distinct from the upload URL |
| Run.UploadUrl | src/run.ts:203 | the upload goes to a URL under the Zeklin server URL |
| Run.Credentials | src/run.ts:201 | the credentials are the key id, one separator and the key |
| Run.CredentialsSplit | src/run.ts:201 | for a key id without a colon, splitting the credentials at their first colon gives back the key id and the key |
| Run.RunSpec | src/run.ts:226-242 | `run` stage by stage under an acceptance; a successful run has read the results once, pinged at least once and posted at least once; a failed run that posted failed in the upload |
| Run.RunInOrder | src/run.ts:232-242 | the stages happen in order: commands, results read, pings, then posts; the i-th command event runs the i-th command |
| Run.RunBounds | src/run.ts:232-242 | one run reads results at most once, pings at most 4 times and posts at most 4 times |
| Run.RunShortCircuits | src/run.ts:234-241 | failed commands end the run with only command events; results are read exactly when the commands succeed; pings happen exactly after a parsed file; posts only after a ping stage that passes under the acceptance, which as written is any response to one of the 4 pings |
| Run.RunEvents | src/run.ts:146-211 | reads use the chosen results path; pings go to `<server>/ping`; each post goes to `<server>/api/runs/jmh` with `<key id>:<key>` credentials and the body built from the parsed results |
| Run.RunSucceedsIff | src/run.ts:226-242 | a run succeeds exactly when the commands succeed, the file parses, the body can be built, and both the ping and the upload stage pass within the retry budget: as written, some attempt gets any response; as intended, some attempt gets a 2xx |
| Run.RunErrorResponsesAsWritten | src/run.ts:177-181 | as written, with every ping and upload answered by an error status, the run pings once, posts once and succeeds |
| Run.RunErrorResponsesOkStatus | src/run.ts:177-181 | as intended, with the same answers, the run pings 4 times, posts nothing and fails with the last ping response |
| Run.RunAction | src/run.ts:226-242 | the sequential pipeline, under either acceptance, gives exactly the result and event trace of `RunSpec` |

Points where the code behaves differently from what a reader might expect:

- `before` and `after` are parameters of `run` (src/run.ts:226); they are not derived from the event.
- Any HTTP response lets a ping or upload attempt pass (`AnyResponse`); see Findings.
- `ZEKLIN_SERVER_URL` is only checked to be non-blank, not to be `https://`.

## Left out

- HTTP, process spawning, file reading, `JSON.parse` and `JSON.stringify`, and base64 encoding are external. The `World` value supplies their outcomes. Base64 encoding of the credentials is not modelled: the event carries the `<key id>:<key>` string before encoding.
- The one-second spacing of the retry schedule and `new Date()` are time. The time is the `World` field `now`, and the spacing is not modelled.
- `Number()` rendering is not modelled for `NaN`, fractions or exponents. An environment variable's numeric value is given by a `toNumber` parameter as an integer.
- Case mapping is ASCII only; `toLowerCase` on non-ASCII letters is not modelled.
- The `??` fallback in src/run.ts:81 is not modelled for a pull-request payload whose `head.ref` is `null` or `undefined`. The payload's strings are always present.
- Whether `exec` rejects on a non-zero exit code depends on the `@actions/exec` library, which is not part of this model. An outcome is either an exit code or a rejection.
- The number of upload attempts when building the body fails is not modelled. The model fails at once with `InvalidBody` and no post, because the body is built before the request is sent.
- The action inputs parser is not part of this model (src/index.ts holds only a placeholder). `Inputs` is a plain record.
- `debugVariables`, the debug dumps of the context and the log messages (src/envvars.ts:197-218, src/utils.ts) have no effect on the outcome, so they are not modelled.
- The `Promise.reject(...)` calls at src/run.ts:179 and src/run.ts:214 create rejected promises that nothing handles. The runtime's reaction to an unhandled rejection is not modelled. Depending on the Node version, that reaction is a warning or the end of the process. The model only takes the Effect's view: the attempt completes successfully.
- `Number(pr.id)`, `Number(pr.number)` and `Number(pr.user.id)` (src/run.ts:38-39, src/run.ts:47) are not modelled: the payload's numbers are integers already.
- The workflow context is reduced to `ref` and the payload's `pull_request`, the only parts of it the pipeline reads. The body's `context` field carries only those.
- Run.Retry: it is given whether each attempt would succeed, instead of performing the attempts.

## Findings

| source | as written | input that shows it | evidently intended | confidence | as-written member | corrected member |
|---|---|---|---|---|---|---|
| src/run.ts:177-181 | in `pingServer` the `Promise.reject` for a non-ok response is created but neither returned nor thrown, so the Effect attempt succeeds | every ping answered with status `500` | fail the attempt on a non-2xx status so that it is retried and finally fails the run | not executed | Run.RunErrorResponsesAsWritten | Run.RunErrorResponsesOkStatus |
| src/run.ts:212-216 | in `uploadResults` the same unreturned `Promise.reject` makes every response a successful Effect attempt | an upload answered with status `500` for all four attempts | fail the attempt on a non-2xx status, retry it, and fail the run after four error responses | not executed | Run.ErrorResponsesAsWritten | Run.RunSucceedsIff |
