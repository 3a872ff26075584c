/** The decision of the PreToolUse hook `check-git-commit.js`, as a total
    function of its inputs. Reading standard input and parsing JSON, the
    environment, `process.cwd()` and the file-system existence check become
    parameters; the debug log and the wording of the messages written to the
    error stream are left out, only which outcome is produced is kept. */
module Hook {
  import opened Wrappers
  import opened CommitCommand
  import opened ContextMarker
  import opened SkillPath

  /** The fields of the parsed payload the hook reads: `tool_name`,
      `tool_input.command` and `cwd`. `None` is an absent (or null) field. */
  datatype Event = Event(toolName: Option<string>, command: Option<string>, cwd: Option<string>)

  /** The environment variables the decision consults: `SKIP_COMMIT_HOOK`
      and `CLAUDE_PLUGIN_ROOT`. `None` is an unset variable. */
  datatype Env = Env(skipCommitHook: Option<string>, pluginRoot: Option<string>)

  /** Allow silently, allow after writing a non-fatal diagnostic, or block. */
  datatype Outcome = Allow | AllowWithDiagnostic | Block

  /** The tool whose commands the hook inspects. */
  const ShellToolName: string := "Bash"

  /** The process exit status the hook ends with. */
  function ExitCode(o: Outcome): (code: nat)
    ensures code == 0 || code == 2
    ensures code == 2 <==> o == Block
  {
    match o
    case Block => 2
    case _ => 0
  }

  /** `SKIP_COMMIT_HOOK` is exactly `"1"`. */
  predicate Skipped(env: Env) {
    env.skipCommitHook == Some("1")
  }

  /** `hookInput.tool_input?.command || ""`: the command when it is present
      and non-empty, otherwise the empty text. */
  function CommandText(ev: Event): (text: string)
    ensures text == "" <==> ev.command == None || ev.command == Some("")
    ensures text != "" ==> ev.command == Some(text)
  {
    ev.command.GetOr("")
  }

  /** The classifier: the tool is the shell tool and the command text
      contains a `git commit` invocation. */
  predicate IsGitCommitInvocation(ev: Event)
    ensures IsGitCommitInvocation(ev) <==> ev.toolName == Some(ShellToolName) && CommitPatternMatches(CommandText(ev))
  {
    ev.toolName == Some(ShellToolName) && IsGitCommitText(CommandText(ev))
  }

  /** The conditions under which the hook blocks, stated with the regular
      expressions' own meaning rather than the scanners that test them. */
  ghost predicate BlockConditions(env: Env, input: Option<Event>, processCwd: Option<string>, fileExists: string -> bool) {
    && !Skipped(env)
    && input.Some?
    && EffectiveCwd(input.value.cwd, processCwd).Some?
    && input.value.toolName == Some(ShellToolName)
    && CommitPatternMatches(CommandText(input.value))
    && fileExists(SelectSkillPath(env.pluginRoot, EffectiveCwd(input.value.cwd, processCwd).value))
    && !HasMarkerLine(CommandText(input.value))
  }

  /** The conditions under which the hook's top-level handler catches an
      error: the payload could not be read or parsed (or was `null`), or the
      process's working directory was needed and could not be obtained. */
  predicate FailureConditions(env: Env, input: Option<Event>, processCwd: Option<string>) {
    && !Skipped(env)
    && (input.None? || EffectiveCwd(input.value.cwd, processCwd).None?)
  }

  /** The hook's decision. `input` is `None` when reading or parsing the
      payload failed; `processCwd` is `None` when `process.cwd()` throws;
      `fileExists` answers `existsSync`. */
  function Decide(env: Env, input: Option<Event>, processCwd: Option<string>, fileExists: string -> bool): (o: Outcome)
    ensures o == Block <==> BlockConditions(env, input, processCwd, fileExists)
    ensures o == AllowWithDiagnostic <==> FailureConditions(env, input, processCwd)
  {
    if Skipped(env) then Allow
    else match input
      case None => AllowWithDiagnostic
      case Some(ev) =>
        match EffectiveCwd(ev.cwd, processCwd)
        case None => AllowWithDiagnostic
        case Some(cwd) =>
          if !IsGitCommitInvocation(ev) then Allow
          else if !fileExists(SelectSkillPath(env.pluginRoot, cwd)) then Allow
          else if HasContextMarker(CommandText(ev)) then Allow
          else Block
  }

  /** With `SKIP_COMMIT_HOOK=1` the hook allows whatever the payload, the
      environment and the file system hold. */
  lemma SkipFlagAllows(env: Env, input: Option<Event>, processCwd: Option<string>, fileExists: string -> bool)
    requires Skipped(env)
    ensures Decide(env, input, processCwd, fileExists) == Allow
    ensures ExitCode(Decide(env, input, processCwd, fileExists)) == 0
  {
  }

  /** A call of any other tool, or a shell command the pattern does not
      match, is never blocked; it is allowed silently unless the working
      directory lookup, which happens before the classifier, fails. */
  lemma NonCommitAllows(env: Env, ev: Event, processCwd: Option<string>, fileExists: string -> bool)
    requires ev.toolName != Some(ShellToolName) || !CommitPatternMatches(CommandText(ev))
    ensures Decide(env, Some(ev), processCwd, fileExists) != Block
    ensures EffectiveCwd(ev.cwd, processCwd).Some? ==> Decide(env, Some(ev), processCwd, fileExists) == Allow
  {
  }

  /** When the skill file is not installed at the selected path the hook
      allows, whatever the command says. */
  lemma MissingSkillAllows(env: Env, ev: Event, processCwd: Option<string>, fileExists: string -> bool)
    requires EffectiveCwd(ev.cwd, processCwd).Some?
    requires !fileExists(SelectSkillPath(env.pluginRoot, EffectiveCwd(ev.cwd, processCwd).value))
    ensures Decide(env, Some(ev), processCwd, fileExists) == Allow
  {
  }

  /** A command with a line that begins with the marker is never blocked. */
  lemma MarkerAllows(env: Env, ev: Event, processCwd: Option<string>, fileExists: string -> bool)
    requires HasMarkerLine(CommandText(ev))
    ensures Decide(env, Some(ev), processCwd, fileExists) != Block
    ensures EffectiveCwd(ev.cwd, processCwd).Some? ==> Decide(env, Some(ev), processCwd, fileExists) == Allow
  {
  }

  /** Fail-open: a payload that cannot be read or parsed never blocks; the
      hook exits 0, with a diagnostic unless it was switched off. */
  lemma UnparsedInputFailsOpen(env: Env, processCwd: Option<string>, fileExists: string -> bool)
    ensures ExitCode(Decide(env, None, processCwd, fileExists)) == 0
    ensures !Skipped(env) ==> Decide(env, None, processCwd, fileExists) == AllowWithDiagnostic
  {
  }

  /** Exit status 2 is produced exactly on the block path; every other
      path exits 0. */
  lemma ExitCodeTwoIffBlocked(env: Env, input: Option<Event>, processCwd: Option<string>, fileExists: string -> bool)
    ensures ExitCode(Decide(env, input, processCwd, fileExists)) == 2 <==> BlockConditions(env, input, processCwd, fileExists)
    ensures ExitCode(Decide(env, input, processCwd, fileExists)) != 2 ==> ExitCode(Decide(env, input, processCwd, fileExists)) == 0
  {
  }
}
