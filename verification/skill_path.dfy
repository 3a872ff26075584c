/** Where the hook looks for the skill file whose presence switches
    enforcement on. `path.join` is modelled as concatenation with one `/`;
    its normalisation of `..` and repeated slashes is not modelled. */
module SkillPath {
  import opened Wrappers
  import opened Text

  /** The fixed skill name. */
  const SkillName: string := "git-commit-conversation-context"

  /** The skill file relative to the plugin root. */
  const PluginRelative: string := "skills/" + SkillName + "/SKILL.md"

  /** The tail shared by both locations. */
  const SkillFileTail: string := "/" + PluginRelative

  /** The skill file relative to the project directory. */
  const ProjectRelative: string := ".claude" + SkillFileTail

  /** `path.join(dir, rel)` without normalisation. */
  function Join(dir: string, rel: string): string {
    dir + "/" + rel
  }

  /** JavaScript truthiness of an optional string: present and non-empty. */
  predicate Truthy(v: Option<string>) {
    v.Some? && v.value != ""
  }

  /** `hookInput.cwd || process.cwd()`. `processCwd` is `None` when
      `process.cwd()` throws (its directory was removed); it is consulted only
      when the event's own `cwd` is absent or empty, so the lookup can fail
      only then. */
  function EffectiveCwd(eventCwd: Option<string>, processCwd: Option<string>): (cwd: Option<string>)
    ensures cwd == eventCwd || cwd == processCwd
    ensures cwd.Some? ==> cwd.value != "" || processCwd == Some("")
    ensures cwd.None? <==> !Truthy(eventCwd) && processCwd.None?
    ensures Truthy(eventCwd) ==> cwd == eventCwd
    ensures !Truthy(eventCwd) ==> cwd == processCwd
  {
    if Truthy(eventCwd) then eventCwd else processCwd
  }

  /** The skill file the hook checks: `<pluginRoot>/skills/<name>/SKILL.md`
      when the plugin root is set and non-empty, otherwise
      `<cwd>/.claude/skills/<name>/SKILL.md`. Every selected path names the
      skill's `SKILL.md`, and the directory it was chosen under can be read
      back from it. */
  function SelectSkillPath(pluginRoot: Option<string>, cwd: string): (p: string)
    ensures EndsWith(p, SkillFileTail)
    ensures Truthy(pluginRoot) ==> EndsWith(p, "/" + PluginRelative) && BaseDir(p, true) == pluginRoot.value
    ensures !Truthy(pluginRoot) ==> EndsWith(p, "/" + ProjectRelative) && BaseDir(p, false) == cwd
  {
    RelativeTails();
    if Truthy(pluginRoot) then
      JoinShape(pluginRoot.value, PluginRelative, SkillFileTail);
      JoinShape(pluginRoot.value, PluginRelative, "/" + PluginRelative);
      Join(pluginRoot.value, PluginRelative)
    else
      JoinShape(cwd, ProjectRelative, SkillFileTail);
      JoinShape(cwd, ProjectRelative, "/" + ProjectRelative);
      Join(cwd, ProjectRelative)
  }

  /** The directory a skill path was selected under, recovered from the path:
      the inverse of `SelectSkillPath` for a known kind of root. */
  function BaseDir(p: string, usesPluginRoot: bool): string {
    var rel := if usesPluginRoot then PluginRelative else ProjectRelative;
    if |rel| + 1 <= |p| then p[..|p| - |rel| - 1] else ""
  }

  /** A joined path ends with any tail of `"/" + rel`, and begins with its
      directory followed by the separator. */
  lemma JoinShape(dir: string, rel: string, tail: string)
    requires EndsWith("/" + rel, tail)
    ensures EndsWith(Join(dir, rel), tail)
    ensures |dir| + 1 + |rel| == |Join(dir, rel)|
    ensures Join(dir, rel)[..|dir|] == dir
  {
    var p := Join(dir, rel);
    assert p == dir + ("/" + rel);
    assert p[|p| - |tail|..] == ("/" + rel)[|"/" + rel| - |tail|..];
  }

  /** Both relative locations end in the shared tail. */
  lemma RelativeTails()
    ensures EndsWith("/" + PluginRelative, SkillFileTail)
    ensures EndsWith("/" + ProjectRelative, SkillFileTail)
  {
    EndsWithJoin("/", PluginRelative);
    EndsWithNested("/", ".claude", SkillFileTail);
  }

  /** Without a truthy plugin root the skill file lies under the event's
      `cwd` when that is non-empty, and under the process's working directory
      otherwise; with one, the working directory plays no part. */
  lemma CwdFallback(pluginRoot: Option<string>, eventCwd: Option<string>, processCwd: Option<string>)
    requires EffectiveCwd(eventCwd, processCwd).Some?
    ensures var p := SelectSkillPath(pluginRoot, EffectiveCwd(eventCwd, processCwd).value);
      && (!Truthy(pluginRoot) && Truthy(eventCwd) ==> BaseDir(p, false) == eventCwd.value)
      && (!Truthy(pluginRoot) && !Truthy(eventCwd) ==> BaseDir(p, false) == processCwd.value)
      && (Truthy(pluginRoot) ==> BaseDir(p, true) == pluginRoot.value)
  {
  }
}
