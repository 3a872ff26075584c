# Commit conversation-context hook, in Dafny

A model of the decision logic of the `git-commit-conversation-context`
plugin's PreToolUse hook, `check-git-commit.js`. The hook runs before each tool call. It
reads one JSON event and decides whether a `git commit` may go ahead. The commit
is blocked (exit status 2) only when all of these hold:
- the tool is `Bash`;
- the command matches the git-commit pattern;
- the plugin's skill file is installed;
- no line of the command begins with `Conversation Context:`.

Every other path exits 0. This includes every internal failure: the hook fails open.

The project is organised as follows:

- `wrappers.dfy`, module `Wrappers`: `Option`. It stands for absent JSON fields, unset
  environment variables and operations that throw.
- `text.dfy`, module `Text`: ECMAScript's `\s` class and its line terminators.
  Also the shell separators `;`, `&` and `|`, and the greedy whitespace run.
- `commit_command.dfy`, module `CommitCommand`: the classifier regex
  `(^|[;&|]\s*|\s)git\s+commit(\s|$)`. `CommitPatternMatches` is a reference
  definition that follows the regex alternative by alternative, as an
  existential over match positions. `IsGitCommitText` is a scanner that looks at one
  character of left context and one greedy whitespace run. The two are proved equal on
  every input.
- `context_marker.dfy`, module `ContextMarker`: the multiline-anchored regex
  `^Conversation Context:`. `HasMarkerLine` is the reference definition: the marker
  sits at index 0 or right after a line terminator. `HasContextMarker` walks the
  text line by line and is proved equal to it.
- `skill_path.dfy`, module `SkillPath`: the `cwd` fallback and the choice
  between `<pluginRoot>/skills/git-commit-conversation-context/SKILL.md` and
  `<cwd>/.claude/skills/git-commit-conversation-context/SKILL.md`.
- `hook.dfy`, module `Hook`: the `Event`, `Env` and `Outcome` datatypes, the exit
  code, and the decision cascade `Decide`, plus lemmas for each of its branches.
- `scenarios.dfy`, module `Scenarios`: concrete commands at the edges of both
  patterns, and the hook's outcome on typical commands.

Inputs that the source reads from the process become parameters of `Decide`:
- the parsed payload is an `Option<Event>`, where `None` means reading or parsing failed;
- `SKIP_COMMIT_HOOK` and `CLAUDE_PLUGIN_ROOT` are the `Env` record;
- `process.cwd()` is an `Option<string>`, where `None` means the call throws;
- `existsSync` is a total function `string -> bool`.

Whitespace is the full ECMAScript `\s` set:
- tab, LF, VT, FF, CR and space;
- U+00A0, U+1680, U+2000–U+200A, U+2028, U+2029, U+202F, U+205F, U+3000 and U+FEFF.

The line terminators that a multiline `^` follows are LF, CR, U+2028 and U+2029.

Some consequences of the code that are easy to miss:
- The hook computes `hookInput.cwd || process.cwd()` at line 35, before it
  classifies the command. So when the event has no `cwd` and `process.cwd()`
  throws, even a call to another tool ends in the error handler: it is allowed
  with a diagnostic rather than silently. Likewise, a commit is blocked only when the
  working directory can be resolved. The model follows the code (`FailureConditions`,
  `BlockConditions`).
- A failing existence check is not an error: `existsSync` returns `false`
  instead of throwing, so the oracle answers a plain boolean and a failing
  check reads as "skill not installed".
- A JSON payload of `null` parses, but `hookInput.tool_input` then throws. This
  case joins the parse failures in `input == None`.

## Model

| member | source | states |
|---|---|---|
| Text.SkipSpaces | plugins/git-commit-conversation-context/hooks/check-git-commit.js:39 | The greedy `\s` run from a position ends at the end of the text or at a non-whitespace character, and everything it covers is whitespace. |
| CommitCommand.BoundaryBeforeIff | plugins/git-commit-conversation-context/hooks/check-git-commit.js:39 | The group `(^\|[;&\|]\s*\|\s)` can end at index i exactly when i is 0 or the character before i is whitespace or one of `;`, `&`, `\|`. |
| CommitCommand.WordsAtIff | plugins/git-commit-conversation-context/hooks/check-git-commit.js:39 | `git\s+commit(\s\|$)` matches at i exactly when `commit` follows the maximal whitespace run after `git` and is itself followed by whitespace or the end. |
| CommitCommand.MatchesAtExec | plugins/git-commit-conversation-context/hooks/check-git-commit.js:39 | The one-character boundary test plus the greedy word test agree with the regex match at that position. |
| CommitCommand.MatchFrom | plugins/git-commit-conversation-context/hooks/check-git-commit.js:39 | Scanning start positions from `from` onward finds a match iff the regex matches at some position at or after `from`. |
| CommitCommand.IsGitCommitText | plugins/git-commit-conversation-context/hooks/check-git-commit.js:39 | The classifier's pattern test is true exactly when the regex has a match in the command text. |
| CommitCommand.MatchesAfter | plugins/git-commit-conversation-context/hooks/check-git-commit.js:39 | `git`, a non-empty whitespace gap and `commit` match when they follow the start, whitespace or a separator and precede whitespace or the end. |
| ContextMarker.SingleLineMarker | plugins/git-commit-conversation-context/hooks/check-git-commit.js:56 | In a text without line terminators the marker counts only as a prefix; the marker later on the same line does not count. |
| ContextMarker.LineEnd | plugins/git-commit-conversation-context/hooks/check-git-commit.js:56 | Finds the first line terminator at or after a position, or the end of the text, with no terminator before it. |
| ContextMarker.MarkerFromLine | plugins/git-commit-conversation-context/hooks/check-git-commit.js:56 | Checking the line at `start` and then each following line finds the marker iff the marker begins some line at or after `start`. |
| ContextMarker.HasContextMarker | plugins/git-commit-conversation-context/hooks/check-git-commit.js:56 | The marker test is true exactly when `Conversation Context:` starts at index 0 or right after a line terminator. |
| SkillPath.EffectiveCwd | plugins/git-commit-conversation-context/hooks/check-git-commit.js:35 | The working directory is the event's `cwd` when it is non-empty, otherwise the process's; it is missing exactly when the event's `cwd` is absent or empty and `process.cwd()` throws. |
| SkillPath.SelectSkillPath | plugins/git-commit-conversation-context/hooks/check-git-commit.js:46-49 | With a non-empty plugin root the path ends in `/skills/git-commit-conversation-context/SKILL.md` and its directory reads back as the root. Otherwise it ends in `/.claude/skills/git-commit-conversation-context/SKILL.md` and its directory reads back as the working directory. |
| SkillPath.CwdFallback | plugins/git-commit-conversation-context/hooks/check-git-commit.js:35-49 | Without a plugin root the skill file lies under the event's `cwd` when non-empty, else under the process's working directory. With a plugin root it lies under the root. |
| Hook.Skipped | plugins/git-commit-conversation-context/hooks/check-git-commit.js:28 | The hook is switched off only when `SKIP_COMMIT_HOOK` is exactly `"1"`. |
| Hook.CommandText | plugins/git-commit-conversation-context/hooks/check-git-commit.js:34 | The command text is empty exactly when `tool_input.command` is absent or empty, and is that command otherwise. |
| Hook.IsGitCommitInvocation | plugins/git-commit-conversation-context/hooks/check-git-commit.js:37-39 | The event is a commit invocation exactly when the tool is `Bash` and the regex matches the command text. |
| Hook.ExitCode | plugins/git-commit-conversation-context/hooks/check-git-commit.js:69-73 | The exit status is 0 or 2, and 2 exactly for Block. |
| Hook.Decide | plugins/git-commit-conversation-context/hooks/check-git-commit.js:27-74 | Block iff all of these hold: not skipped, parsed, working directory resolved, tool `Bash`, regex matches, skill file exists, no marker line. AllowWithDiagnostic iff not skipped and parsing or the `process.cwd()` fallback failed. |
| Hook.SkipFlagAllows | plugins/git-commit-conversation-context/hooks/check-git-commit.js:28 | `SKIP_COMMIT_HOOK` equal to `"1"` yields Allow with exit 0 for every payload, environment and file system. |
| Hook.NonCommitAllows | plugins/git-commit-conversation-context/hooks/check-git-commit.js:37-44 | A tool other than `Bash`, or a command the regex does not match, is never blocked. It is allowed silently whenever the working directory resolves. |
| Hook.MissingSkillAllows | plugins/git-commit-conversation-context/hooks/check-git-commit.js:51-54 | When no file exists at the selected skill path, the event is allowed whatever its command. |
| Hook.MarkerAllows | plugins/git-commit-conversation-context/hooks/check-git-commit.js:56-60 | A command with a line starting with the marker is never blocked, and is allowed silently whenever the working directory resolves. |
| Hook.UnparsedInputFailsOpen | plugins/git-commit-conversation-context/hooks/check-git-commit.js:70-74 | A payload that cannot be read or parsed exits 0. Unless the hook is skipped, this is the diagnostic outcome. |
| Hook.ExitCodeTwoIffBlocked | plugins/git-commit-conversation-context/hooks/check-git-commit.js:28-74 | Exit status 2 happens exactly under the block conditions; every other path exits 0. |
| Scenarios.AcceptsAtStart | plugins/git-commit-conversation-context/hooks/check-git-commit.js:39 | `git commit -m x` is classified as a commit. |
| Scenarios.AcceptsAfterSeparator | plugins/git-commit-conversation-context/hooks/check-git-commit.js:39 | `a; git commit` is classified as a commit. |
| Scenarios.AcceptsDirectlyAfterAnd | plugins/git-commit-conversation-context/hooks/check-git-commit.js:39 | `a &&git commit` is classified as a commit. |
| Scenarios.AcceptsWideGap | plugins/git-commit-conversation-context/hooks/check-git-commit.js:39 | `git   commit` is classified as a commit. |
| Scenarios.RejectsWithoutBoundary | plugins/git-commit-conversation-context/hooks/check-git-commit.js:39 | Neither `mygit commit` nor `"git commit"` directly after a quote character is classified as a commit. |
| Scenarios.RejectsLongerWord | plugins/git-commit-conversation-context/hooks/check-git-commit.js:39 | `git commitx` is not classified as a commit. |
| Scenarios.RejectsOtherSubcommand | plugins/git-commit-conversation-context/hooks/check-git-commit.js:39 | `git log --oneline` is not classified as a commit. |
| Scenarios.MarkerAfterBlankLine | plugins/git-commit-conversation-context/hooks/check-git-commit.js:56 | The marker after a blank line begins a line and counts. |
| Scenarios.MarkerMidLineIgnored | plugins/git-commit-conversation-context/hooks/check-git-commit.js:56 | The marker after other text on the same line does not count. |
| Scenarios.PlainCommitMatches | plugins/git-commit-conversation-context/hooks/check-git-commit.js:39 | `git commit -m "fix bug"` is classified as a commit. |
| Scenarios.PlainCommitHasNoMarker | plugins/git-commit-conversation-context/hooks/check-git-commit.js:56 | `git commit -m "fix bug"` has no marker line. |
| Scenarios.ContextCommitMatches | plugins/git-commit-conversation-context/hooks/check-git-commit.js:39 | The commit whose message holds a `Conversation Context:` paragraph is classified as a commit. |
| Scenarios.ContextCommitHasMarker | plugins/git-commit-conversation-context/hooks/check-git-commit.js:56 | That commit's marker line is found. |
| Scenarios.PlainCommitBlocked | plugins/git-commit-conversation-context/hooks/check-git-commit.js:62-69 | With the skill installed, `git commit -m "fix bug"` is blocked with exit status 2. |
| Scenarios.PlainCommitWithoutSkillAllowed | plugins/git-commit-conversation-context/hooks/check-git-commit.js:51-54 | Without the skill file, the same commit is allowed. |
| Scenarios.ContextCommitAllowed | plugins/git-commit-conversation-context/hooks/check-git-commit.js:56-60 | With the skill installed, a commit with a marker line is allowed. |
| Scenarios.LogAllowed | plugins/git-commit-conversation-context/hooks/check-git-commit.js:37-44 | `git log --oneline` is allowed even with the skill installed. |

## Left out

- Reading standard input in chunks, and `JSON.parse`: the model takes the parsed payload,
  with `None` for a failed read, a failed parse or a `null` payload.
- Non-string JSON values in `tool_name`, `tool_input.command` or `cwd` (numbers,
  arrays, objects): fields are optional strings. JavaScript's coercion of such
  values (`String(value)` in the regex test, a `TypeError` in `path.join`) is not
  modelled.
- Reading `process.env`: `SKIP_COMMIT_HOOK` and `CLAUDE_PLUGIN_ROOT` are
  parameters.
- `existsSync`: it touches the file system, so it becomes an oracle parameter.
- `path.join` normalisation of `..`, `.` and repeated slashes: paths are plain
  concatenation with one `/`.
- The debug logger `log` and `DEBUG_HOOK`: a best-effort append to a log file,
  with a timestamp, that never affects the decision.
- The text written to standard error for a block or a diagnostic: only the
  outcome variant is kept.
- Failures of `stderr.write` itself.
- UTF-16 code units: Dafny characters are Unicode scalar values. Every character the two
  patterns mention lies in the Basic Multilingual Plane, so matching agrees. The
  difference would only show in indices, which the hook never exposes.
- Lone UTF-16 surrogates in the JSON payload (`"\ud800"`): a Dafny string of
  scalar values cannot hold them, so such payloads are outside the model.
- Decoding of standard input chunk by chunk (`inputData += chunk` at line 31): a
  multi-byte character split across two chunks, such as U+3000, decodes to
  U+FFFD and stops being whitespace. The model decides over the text as decoded.
