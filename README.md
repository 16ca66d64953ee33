# tpaws core in Dafny

tpaws is a command-line tool that ties together git branches, TargetProcess
tickets and AWS CodeCommit pull requests. This project models the
deterministic logic of the tool and proves properties of it:

- **Ticket, branch and URL strings** (`crates/cli/utils.rs`):
  - the ticket id read from a branch name (`\w+/(\d+)_.*`);
  - the id read from a TargetProcess entity URL;
  - the pull-request title derived from a branch;
  - title resolution (`grab_title`);
  - the pull-request link;
  - the repository name taken from the origin URL;
  - the scan that picks the pull request of a branch (`get_pr_id`).

  Each regex is a hand-written leftmost-match search over ASCII text, with
  the backtracking the regex engine would do. Each comes with a declarative
  "shape" predicate, and lemmas prove that the matcher finds exactly the
  leftmost match of that shape.
- **Tickets** (`assignables.rs`, `v2/assignable/mod.rs`, `models/mod.rs`):
  - the branch name a ticket gets, with its slug;
  - the ticket link;
  - the bug and user-story tests;
  - the v2-to-v1 conversion;
  - id-only equality of `IdAndName`;
  - the numeric codes of the workflow states.
- **The TargetProcess client** (`crates/target_process/src/lib.rs`):
  - query parameters and URL building;
  - request payloads;
  - the shaping of the sprint task list;
  - the `#[cached]` lookups.

  The client is a class. The base URL and access token are constants of the
  class. The remote service is an oracle. The requests sent and the two
  caches are fields that the methods update.
- **Versions and releases** (`crates/cli/manifests/mod.rs`, `release/start.rs`):
  - a `Version` class whose bump methods change it in place;
  - its text form and its lenient parser;
  - the validity regex;
  - `start`, which bumps the version, names the release and calls npm.
- **Shell configuration** (`crates/config/src/util.rs`):
  - the supported shells and their rc files;
  - `inject_env`, modelled over an `Environment` object holding the
    variables, the files and the warnings printed.
- **The build script** (`build.rs`):
  - the cargo profile read from OUT_DIR;
  - the sequential placeholder replacement that fills the Homebrew formula
    template.

Values from outside the program are inputs of the model: environment
variables, files, the git remote, the AWS listing, the outcomes of git-flow
and npm, the remote service's answers and the crate version.

Where the tests and the code disagree, the model follows the code. The
`to_string` test of `manifests/mod.rs` expects "1.00.01" for 1.0.1. The
format string `{:0>1}` pads to width one, so the code produces "1.0.1"
(`Manifests.FormatOfOneZeroOne`). The model follows the code.

The `PullRequest` type of `crates/commands/src/aws.rs` is from another
revision than `utils.rs`. The model uses the fields that `utils.rs` reads:
`id` and `targets[].source`.

## Model

| member | source | states |
|---|---|---|
| TpModels.CodeTable | crates/target_process/src/models/mod.rs:11-19 | Open is sent as 73, Planned as 74, InProgress as 75, InStaging as 127 |
| TpModels.CodeIsDiscriminant | crates/target_process/src/models/mod.rs:4-18 | the `into()` match agrees with the discriminants written on the enum |
| TpModels.CodeInjective | crates/target_process/src/models/mod.rs:13-18 | distinct states have distinct codes |
| TpModels.FromCode | crates/target_process/src/models/mod.rs:11-19 | the decoder accepts exactly 73, 74, 75 and 127, and what it returns has the given code |
| TpModels.FromCodeOfCode | crates/target_process/src/models/mod.rs:11-19 | decoding a state's code gives back the state |
| TpV2.EqualsIgnoresName | crates/target_process/src/models/v2/assignable/mod.rs:55-59 | two values with the same id and different names are equal |
| TpV2.EqualsIffSameId | crates/target_process/src/models/v2/assignable/mod.rs:50-59 | equality holds exactly when the ids agree |
| TpV2.EqualsIsEquivalence | crates/target_process/src/models/v2/assignable/mod.rs:55-82 | id equality is reflexive, symmetric and transitive |
| TpV2.ToV1 | crates/target_process/src/models/v2/assignable/mod.rs:36-43 | the v1 value has the same id and name |
| TpV2.ToV1Injective | crates/target_process/src/models/v2/assignable/mod.rs:36-43 | the conversion loses nothing: equal images mean equal values |
| Assignables.GetLink | crates/target_process/src/models/v1/assignable/assignables.rs:23-27 | the link is the base, then "/entity/", then the canonical decimal of the ticket id: a non-empty digit run whose value is the id |
| Assignables.GetBranch | crates/target_process/src/models/v1/assignable/assignables.rs:29-39 | the in-place filtering loop yields the decimal id, '_' and the slug of the lower-cased, filtered name |
| Assignables.RetainedConcat | crates/target_process/src/models/v1/assignable/assignables.rs:31-36 | filtering works on each character by itself and keeps the order |
| Assignables.SlugIsCharacterwise | crates/target_process/src/models/v1/assignable/assignables.rs:30-38 | lower-casing, filtering and replacing spaces agree with a one-character-at-a-time reference definition |
| Assignables.SlugAlphabet | crates/target_process/src/models/v1/assignable/assignables.rs:31-38 | no slug character is a space, an upper-case letter or any stripped character other than '_' |
| Assignables.SlugUnderscoresAreSpaces | crates/target_process/src/models/v1/assignable/assignables.rs:31-38 | every '_' of the slug comes from a space: turning them back gives the filtered name |
| Assignables.EntityTypeTestsIgnoreCase | crates/target_process/src/models/v1/assignable/assignables.rs:41-47 | `is_bug` and `is_user_story` hold exactly when the type name equals "bug" or "userstory" ignoring ASCII case |
| Assignables.NeverBothBugAndStory | crates/target_process/src/models/v1/assignable/assignables.rs:41-47 | no ticket is both a bug and a user story |
| Assignables.FromV2 | crates/target_process/src/models/v1/assignable/assignables.rs:50-76 | id, name, description, resource type, entity state and type and the project's id, resource type and name are carried over |
| Assignables.FromV2DropsOnlyAbbreviation | crates/target_process/src/models/v1/assignable/assignables.rs:69-73 | records that differ only in the project abbreviation convert to the same value |
| TargetProcess.ParamToPair | crates/target_process/src/lib.rs:96-105 | the pair's value is the parameter's value |
| TargetProcess.ParamFromPair | crates/target_process/src/lib.rs:107-117 | the parameter's value is the pair's value |
| TargetProcess.ParamRoundTrip | crates/target_process/src/lib.rs:96-116 | every parameter comes back from its pair |
| TargetProcess.PairRoundTrip | crates/target_process/src/lib.rs:107-116 | a pair comes back unchanged exactly when its key is filter, where, select or access_token; otherwise it comes back as ("filter", value) |
| TargetProcess.ParamsRoundTrip | crates/target_process/src/lib.rs:72 | every parameter of a list is recovered from its pair, position by position |
| TargetProcess.MakeUrl | crates/target_process/src/lib.rs:60-81 | fails with TokenNotFound exactly when there is no token; otherwise the query is ("access_token", token) first, then the pair of each of the caller's parameters in their order (each decoding back to its parameter), and the address is the base, "/api/" and the path with "//" folded |
| TargetProcess.ApiAddressWithoutDoubleSlash | crates/target_process/src/lib.rs:74-77 | without any "//" the address is base + "/api/" + path |
| TargetProcess.AssignableAddress | crates/target_process/src/lib.rs:74-77 | for "scheme://host" and "/v1/Assignables/<id>" the doubled slash after "api" is folded and so is one slash of the scheme |
| TargetProcess.AssignPayload | crates/target_process/src/lib.rs:194-203 | one assignment, of the given user, in role 1 |
| TargetProcess.StatePayload | crates/target_process/src/lib.rs:205-217 | the payload carries the ticket id and a code that decodes back to the requested state |
| TargetProcess.SprintTasksParams | crates/target_process/src/lib.rs:177-182 | a where filter that holds the project name verbatim between quotes, then the field selection |
| TargetProcess.ShapeOpenTasks | crates/target_process/src/lib.rs:184-191 | errors pass through; a list of v2 items becomes the list of their v1 conversions, one for one and in order |
| TargetProcess.Client.Fetch | crates/target_process/src/lib.rs:138-162 | a GET of the built URL: the answer is the remote's answer to it, and the request is recorded in `sent`; no request when the URL cannot be built |
| TargetProcess.Client.Post | crates/target_process/src/lib.rs:119-136 | a POST of the payload to the built URL, recorded in `sent` the same way |
| TargetProcess.Client.GetAssignable | crates/target_process/src/lib.rs:164-169 | a cached id is answered from the cache with no request; a new id is fetched once and its result, success or error, is stored; other entries are never removed or changed |
| TargetProcess.Client.GetMe | crates/target_process/src/lib.rs:171-174 | fetched on the first call only; later calls return the stored result with no request |
| TargetProcess.Client.GetCurrentSprintOpenTasks | crates/target_process/src/lib.rs:176-192 | one uncached GET of "/v2/assignables" with the sprint parameters, shaped by ShapeOpenTasks |
| TargetProcess.Client.AssignTask | crates/target_process/src/lib.rs:194-203 | one POST of the assignment payload to the ticket's address |
| TargetProcess.Client.UpdateEntityState | crates/target_process/src/lib.rs:205-217 | one POST of the state payload to the ticket's address |
| CliUtils.BranchCaptureAt | crates/cli/utils.rs:85 | a capture at p is a non-empty digit run lying between a '/' that follows a word run and a '_' |
| CliUtils.BranchShapeCapture | crates/cli/utils.rs:85 | any match of the branch pattern at p has the digits the matcher captures |
| CliUtils.BranchCaptureIffMatch | crates/cli/utils.rs:85 | the anchored matcher succeeds exactly where the pattern matches |
| CliUtils.GetTicketIdFromBranch | crates/cli/utils.rs:84-89 | a ticket id is a non-empty digit run |
| CliUtils.TicketIdNone | crates/cli/utils.rs:84-89 | None exactly when the pattern matches at no position |
| CliUtils.TicketIdSome | crates/cli/utils.rs:85-88 | otherwise the id is the capture of a match, and no match starts earlier |
| CliUtils.NoBranchMatchBefore | crates/cli/utils.rs:85-88 | the search passes over only positions where the pattern does not match |
| CliUtils.TicketIdRoundTrip | crates/cli/utils.rs:84-89 | word + "/" + digits + "_" + anything gives back exactly the digits |
| CliUtils.NoTicketIdWithoutSlashAndUnderscore | crates/cli/utils.rs:85 | a branch lacking '/' or '_' has no ticket id |
| CliUtils.NoTicketIdExamples | crates/cli/utils.rs:85-88 | "feature/123" and "feature/no-id-here" have no ticket id |
| CliUtils.BranchNameRoundTrip | crates/target_process/src/models/v1/assignable/assignables.rs:29-39 | a branch made by `get_branch` under a word prefix gives back the decimal ticket id, for any name, an empty slug included |
| CliUtils.SchemeEnd | crates/cli/utils.rs:110 | finds where the host starts after "http://" or "https://", and fails exactly when neither is there |
| CliUtils.UrlCaptureAt | crates/cli/utils.rs:110 | a capture is a non-empty digit run |
| CliUtils.UrlCaptureSound | crates/cli/utils.rs:110 | whatever the matcher captures comes from a match of the URL pattern with that group 1 |
| CliUtils.UrlCaptureGreedy | crates/cli/utils.rs:110 | every match at p starts its digits where the capture starts and gives the capture as its greedy group 1 |
| CliUtils.UrlCaptureIffMatch | crates/cli/utils.rs:110-113 | the anchored matcher succeeds exactly where the pattern matches |
| CliUtils.ExtractIdFromUrl | crates/cli/utils.rs:109-119 | an extracted id is a non-empty digit run |
| CliUtils.ExtractIdNone | crates/cli/utils.rs:109-119 | None exactly when the pattern matches at no position |
| CliUtils.ExtractIdSome | crates/cli/utils.rs:109-116 | otherwise the id is the capture at the leftmost match |
| CliUtils.NoUrlMatchBefore | crates/cli/utils.rs:110-114 | the search passes over only positions where the pattern does not match |
| CliUtils.NoUrlWithoutColon | crates/cli/utils.rs:110-118 | text without ':', a bare id for example, gives None |
| CliUtils.SlugUrlId | crates/cli/utils.rs:134-142 | "https://<word>.tpondemand.com/entity/<digits><slug>", where the slug starts with a non-digit of `[\w+-]`, gives exactly the digits |
| CliUtils.DigitsOnlyUrlId | crates/cli/utils.rs:110-118 | with nothing after the digits, the pattern backtracks: the id loses its last digit, and a single digit gives None |
| CliUtils.LinkLosesLastDigit | crates/cli/utils.rs:110 | the link `get_link` prints for a tpondemand account reads back as the id divided by ten, or as None below ten |
| CliUtils.LinkOfTicket42 | crates/cli/utils.rs:110 | the link of ticket 42 reads back as "4" |
| CliUtils.ExtractIdFromUrlFixed | crates/cli/utils.rs:109-119 | with the slug made optional, an extracted id is still a non-empty digit run |
| CliUtils.FixedExtendsAsWritten | crates/cli/utils.rs:110 | where the pattern as written captures an id, the corrected one captures the same digits or those plus the one given away |
| CliUtils.LinkRoundTripFixed | crates/cli/utils.rs:109-119 | the corrected pattern reads every link `get_link` prints back to its ticket id |
| CliUtils.SlugUrlIdFixed | crates/cli/utils.rs:134-142 | the corrected pattern still reads the test's slug URLs as before |
| CliUtils.LastSegment | crates/cli/utils.rs:73 | the part after the last '/': a '/'-free suffix that is the whole text or follows a '/' |
| CliUtils.FirstDigitFrom | crates/cli/utils.rs:70-73 | the first digit at or after i, and no digit between i and it |
| CliUtils.DeleteFirstDigitRun | crates/cli/utils.rs:70-73 | `replace` with `\d+` deletes the first maximal digit run and only that one |
| CliUtils.FirstDigitRunUnique | crates/cli/utils.rs:70-73 | the first maximal digit run is unique, so the deletion is determined |
| CliUtils.DeleteWithoutDigits | crates/cli/utils.rs:70-73 | text without digits is unchanged |
| CliUtils.DeleteLeadingDigits | crates/cli/utils.rs:70-73 | a leading digit run not followed by a digit is removed |
| CliUtils.BranchToTitle | crates/cli/utils.rs:69-82 | as long as the sanitized title; its first character is that title's first character upper-cased (so not a lower-case letter) and the rest is unchanged |
| CliUtils.SanitizedTitleChars | crates/cli/utils.rs:72-76 | a sanitized title has no '_' and no '/', and neither end is blank |
| CliUtils.TitleProperties | crates/cli/utils.rs:69-82 | the title has no '_' and no '/', neither end is blank, and it starts with the sanitized title's first character upper-cased, so not with a lower-case letter |
| CliUtils.TicketBranchTitle | crates/cli/utils.rs:145-153 | for prefix + "/" + digits + "_" + name, the title is the name with '_' as spaces and its first letter capitalised |
| CliUtils.EmptyTitleAfterDigits | crates/cli/utils.rs:78 | a branch ending in "/" + digits sanitizes to the empty title that makes `split_at(1)` panic |
| CliUtils.EmptyTitleAfterUnderscore | crates/cli/utils.rs:78 | so does one ending in "/" + digits + "_" |
| CliUtils.GrabTitle | crates/cli/utils.rs:91-106 | a given title is returned without any lookup; with no token the title comes from the branch; with a token but no ticket id it fails with "failed to retrive user_story ID"; otherwise the title is the name of the cached or freshly fetched ticket, and its error is passed on |
| CliUtils.BuildPrLink | crates/cli/utils.rs:23-26 | the link starts with the console prefix and ends with "/details", and its length leaves exactly the id between them (placed by PrLinkId) |
| CliUtils.PrLinkId | crates/cli/utils.rs:24-25 | the id stands right after the prefix |
| CliUtils.PrLinkInjective | crates/cli/utils.rs:24-25 | different pull requests of one repository have different links |
| CliUtils.GetRepository | crates/cli/utils.rs:59-67 | Ok exactly when the remote lookup is; the name is a '/'-free suffix of the URL; a lookup error passes through |
| CliUtils.PrSelection | crates/cli/utils.rs:38-56 | a pull request found is fetched and selected by id or by branch; an error is "Unable to extract pull request ID" or a fetch error of the list |
| CliUtils.PrSelectionSkips | crates/cli/utils.rs:38-54 | pull requests passed over do not affect the outcome |
| CliUtils.PrSelectionFound | crates/cli/utils.rs:38-53 | the first selected pull request, after only unselected ones, is the result |
| CliUtils.PrSelectionFirst | crates/cli/utils.rs:38-54 | a result is a fetched pull request before which every entry was fetched and not selected |
| CliUtils.PrSelectionNotFound | crates/cli/utils.rs:38-56 | "Unable to extract pull request ID" exactly when every entry was fetched and none is selected |
| CliUtils.PrSelectionNoneSelected | crates/cli/utils.rs:56 | that error means every entry was fetched and passed over |
| CliUtils.PrSelectionFetchError | crates/cli/utils.rs:39 | a failed fetch, once reached, ends the scan with its error |
| CliUtils.RefsHeadsStripped | crates/cli/utils.rs:48 | a source "refs/heads/b" is compared as b |
| CliUtils.GetPrId | crates/cli/utils.rs:28-57 | the nested loops with early returns compute PrSelection of the listed pull requests; errors of the remote and of the listing are passed on |
| Text.Split | crates/cli/manifests/mod.rs:50 | never empty, at least two parts exactly when the separator occurs, and no part contains it |
| Text.LastPartAfterSeparator | crates/cli/utils.rs:73 | the last part is what follows the last separator |
| Text.ParseUsize | crates/cli/manifests/mod.rs:53-55 | a non-empty digit run parses to its value; anything parsed is digits, or '+' and digits |
| Text.Decimal | crates/cli/manifests/mod.rs:42 | a non-empty digit run with the number's value, starting with '0' only for zero |
| Text.TrimSlice | crates/cli/utils.rs:75 | the trimmed text is a slice of the input whose ends are not blank |
| Manifests.BumpsAdvance | crates/cli/manifests/mod.rs:23-37 | each bump moves the version strictly forward, and a patch bump is the smallest step among versions that agree on major and minor |
| Manifests.ParseFormat | crates/cli/manifests/mod.rs:40-57 | `from_str` reads every `to_string` back to the same version |
| Manifests.ParseThree | crates/cli/manifests/mod.rs:83-96 | three digit runs parse to their values, leading zeros ignored ("1.00.01" is 1.0.1) |
| Manifests.ParseTwo | crates/cli/manifests/mod.rs:53-55 | a two-part text takes minor and patch both from its second part ("1.5" is 1.5.5) |
| Manifests.ParseLenient | crates/cli/manifests/mod.rs:53-55 | parts that do not parse are read as 0 |
| Manifests.FormatOfOneZeroOne | crates/cli/manifests/mod.rs:98-112 | the text of 1.0.1 has five characters, so it is not the "1.00.01" the test expects |
| Manifests.ValidFromWitness | crates/cli/manifests/mod.rs:60-65 | a match holds a digit, a '.' and a digit in a row at or after the start position |
| Manifests.ValidFromCovers | crates/cli/manifests/mod.rs:60-65 | a digit, a '.' and a digit at or after the start position make the search succeed |
| Manifests.IsValidIff | crates/cli/manifests/mod.rs:60-65 | `is_valid` holds exactly when some digit is followed by '.' and a digit |
| Manifests.FormatIsValid | crates/cli/manifests/mod.rs:40-65 | every `to_string` is valid |
| Manifests.CheckVersionExamples | crates/cli/manifests/mod.rs:74-81 | "1.0.1", "1.100.24" and "1.0" are valid |
| Manifests.NotValidWithoutDot | crates/cli/manifests/mod.rs:60-65 | text without '.' is not valid |
| Manifests.Version.constructor | crates/cli/manifests/mod.rs:15-21 | the new version holds the given parts |
| Manifests.Version.BumpMinor | crates/cli/manifests/mod.rs:23-27 | minor goes up by one, patch becomes 0, major is kept |
| Manifests.Version.BumpPatch | crates/cli/manifests/mod.rs:29-31 | only patch changes, by one |
| Manifests.Version.BumpMajor | crates/cli/manifests/mod.rs:33-37 | major goes up by one, minor and patch become 0 |
| Manifests.Version.ToString | crates/cli/manifests/mod.rs:40-44 | the text is the plain decimals of major, minor and patch joined by '.'; it is valid and reads back as the version |
| Manifests.Version.FromStr | crates/cli/manifests/mod.rs:46-57 | always Ok, with a fresh version holding the parsed value |
| ReleaseStart.ReleaseKind.NpmArgument | crates/cli/subcommands/release/start.rs:35-36 | the lower-cased variant name, one of "patch", "minor" and "major" |
| ReleaseStart.NpmArgumentInjective | crates/cli/subcommands/release/start.rs:35-38 | different kinds call npm with different arguments |
| ReleaseStart.Start | crates/cli/subcommands/release/start.rs:15-43 | each kind applies its own bump; the git-flow release is named after the new version; npm gets "version" and the kind, only if git-flow succeeded; an outcome's error is passed on; success reports the original version and the new one |
| ReleaseStart.ReleaseAdvances | crates/cli/subcommands/release/start.rs:23-31 | the new version is later than the old one, and its text is valid and reads back as it |
| ReleaseStart.ReleasesCompose | crates/cli/subcommands/release/start.rs:15-43 | a release started from the text of an earlier one moves the version further |
| ConfigUtil.ShellFromPath | crates/config/src/util.rs:12-22 | Bash exactly for "/bin/bash", Zsh exactly for "/bin/zsh", "unsupported shell" for everything else |
| ConfigUtil.ShellPathRoundTrip | crates/config/src/util.rs:15-20 | each shell is accepted under its path and under no other |
| ConfigUtil.OtherZshPathRejected | crates/config/src/util.rs:15-20 | "/usr/bin/zsh" is unsupported |
| ConfigUtil.RcFileName | crates/config/src/util.rs:24-32 | the rc file name is a dot file |
| ConfigUtil.RcFileTable | crates/config/src/util.rs:24-32 | bash uses ".bashrc" and zsh ".zshrc" |
| ConfigUtil.RcFileNameInjective | crates/config/src/util.rs:24-32 | different shells have different rc files |
| ConfigUtil.JoinPath | crates/config/src/util.rs:51 | the joined path ends with the name, and an empty directory gives the name itself |
| ConfigUtil.AppendedKeepsContent | crates/config/src/util.rs:54 | the old content is kept as a prefix, followed by a newline and the export line only |
| ConfigUtil.Environment.RcPath | crates/config/src/util.rs:46-51 | there is an rc file exactly when SHELL is a supported shell and HOME is set |
| ConfigUtil.Environment.InjectEnv | crates/config/src/util.rs:43-77 | the variable is set first; an unset SHELL is the only error; otherwise the rc file gets the export line if it exists and can be written, and a warning with that line is printed if not, and the result is Ok |
| ConfigUtil.ZshRcPath | crates/config/src/util.rs:86-99 | with SHELL "/bin/zsh" the rc file is ".zshrc" inside HOME |
| BuildScript.ProfileFromStr | build.rs:20-29 | accepts exactly "debug", "release" and "test"; the error names the input |
| BuildScript.ProfileRoundTrip | build.rs:17-30 | every profile name reads back as its profile |
| BuildScript.ProfileAt | build.rs:34 | a capture at p is a profile name right after "target/" |
| BuildScript.CaptureProfile | build.rs:34-41 | the capture is "release", "test" or "debug" |
| BuildScript.CaptureProfileNone | build.rs:36-43 | no capture exactly when the pattern matches nowhere |
| BuildScript.CaptureProfileSome | build.rs:36-43 | a capture is the capture of a match with no match at any earlier position |
| BuildScript.GetProfile | build.rs:32-46 | the profile whose name was captured |
| BuildScript.ProfileOfOutDir | build.rs:32-46 | an OUT_DIR in which no match starts before "target/<profile>" gives that profile |
| BuildScript.Fill | build.rs:66-72 | every placeholder of that name becomes the value and every other piece is kept |
| BuildScript.ReplaceFills | build.rs:66-72 | one `.replace` of `{{name}}` in a well-formed template fills exactly those placeholders |
| BuildScript.GenerateFormulaFills | build.rs:64-73 | the chain fills the five placeholders and keeps every text run and every other placeholder, such as `{{shasum}}` |
| BuildScript.FilledPieces | build.rs:66-72 | what each piece of the filled template holds |
| BuildScript.LaterStepRewritesEarlierValue | build.rs:66-72 | a placeholder inside an earlier value is rewritten by a later step |
| BuildScript.FormulaLayout | formula_template.rb:1-11 | the template's six placeholders in file order, between seven runs of text |
| BuildScript.FormulaOfTemplate | build.rs:64-73 | for the template's layout the generated formula is the filled layout |
| BuildScript.FormulaFilledPlaces | formula_template.rb:2-6 | the description, the repository URL twice, the binary name and the version stand in their places, `{{shasum}}` is kept and the text is unchanged |
| BuildScript.GenerateFormulaFile | build.rs:64-78 | a formula is written exactly when the template was read, to "{bin}.rb" |
| BuildScript.BuildMain | build.rs:48-62 | the formula is generated exactly for the Release profile, with the tool's name, repository and description |

## Left out

- Process spawning (git, git-flow, npm, the AWS CLI), HTTP (the TargetProcess, Slack and Groq clients) and telemetry. These are external I/O. Their outcomes are inputs of the model.
- The interactive subcommands and `main`, whose work is prompts, spinners, the clipboard and process orchestration. One consequence: the pull-request `view` subcommand keeps the last matching pull request rather than the first. That loop is not modelled; `CliUtils.GetPrId` models the first-match scan of `utils.rs`.
- The concurrent fan-out of the pull-request list. Concurrency is outside the model.
- Reading and writing files (configuration, `package.json`, the formula) and the SHA-256 user id. Files are maps or results passed in, and the formula is a `FileWrite` value.
- Unicode: `\w`, `\d`, lower-casing, upper-casing and trimming are modelled on ASCII only.
- Real URL parsing and percent-encoding in `make_url`. A `Url` is the address string and the query pairs given to the parser.
- The fixed-width integers of the source. Numbers are unbounded naturals: usize overflow in the bumps and in `parse::<usize>` is not modelled.
- The test examples are stated as instances of general lemmas (the test branch as `CliUtils.TicketBranchTitle` and `CliUtils.TicketIdRoundTrip`, the test URL as `CliUtils.SlugUrlId`, the versions as `Manifests.ParseThree`). Long literal strings are not evaluated.
- TargetProcess.MakeUrl: the `UrlParsing` error of the URL parser is not modelled; the model builds the address and query without parsing them, so the only failure it models is the missing token. The base URL is assumed set: the source panics at `unwrap` when TARGET_PROCESS_API_BASE_URL is unset, in `make_url` (crates/target_process/src/lib.rs:64-66) and in `get_base_url` (crates/target_process/src/lib.rs:232-233), which Assignables.GetLink reads; the model makes the base a constant of the client and a parameter of GetLink.
- Assignables.GetLink: the base URL is a parameter that is always present; `get_base_url` (crates/target_process/src/lib.rs:232-233) panics when TARGET_PROCESS_API_BASE_URL is unset.
- BuildScript.FormulaOfTemplate: states the formula for the placeholder layout of `formula_template.rb`, with the text between the placeholders as parameters, not for the literal file text.
- BuildScript.GetProfile: requires a match in OUT_DIR; the source panics without one.
- CliUtils.BranchToTitle: requires a non-empty sanitized title; the source panics in `split_at(1)` otherwise (`CliUtils.EmptyTitleAfterDigits` names such branches).
- CliUtils.GrabTitle: with no title and no token it requires a non-empty sanitized title, for the same panic.
- Manifests.Version.FromStr: requires a '.' in the text; the source panics on `data.get(1).unwrap()` otherwise.
- Manifests.Parse: requires a '.' in the text, for the same panic.
- ReleaseStart.Start: requires a '.' in the version, for the same panic. Its "invalid version" error cannot occur, because `from_str` always returns Ok.
- CliUtils.GetRepository: the "unable to extract repository from origin" error cannot occur, because a split always has a last part.
- The `#[cached]` macro of `build_pr_link` is left out. The function is pure, so caching changes nothing observable.
- TargetProcess.Client.GetAssignable: the cache is per client object, not per process, and the remote answers are an oracle over the request and the number of earlier requests.

## Findings

| source | as written | input that shows it | evidently intended | confidence | as-written member | corrected member |
|---|---|---|---|---|---|---|
| crates/cli/utils.rs:110 | `(\d+)([\w+-]+)` requires at least one character after the id, so with nothing after the digits, `\d+` gives its last digit to the tail group | the link `get_link` prints for ticket 42, "https://acme.tpondemand.com/entity/42", reads back as "4"; ticket 7 reads as None, and the get-branch subcommand then looks the whole URL up as an id | the id is the whole digit run and the slug is optional: `(\d+)[\w+-]*` | not executed | CliUtils.LinkLosesLastDigit | CliUtils.LinkRoundTripFixed |
