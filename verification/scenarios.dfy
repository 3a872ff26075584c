/** Concrete inputs at the edges of the two patterns, and the hook's outcome
    on typical commands. */
module Scenarios {
  import opened Wrappers
  import opened Text
  import opened CommitCommand
  import opened ContextMarker
  import opened SkillPath
  import opened Hook

  /** A command at the very start of the text is accepted. */
  lemma AcceptsAtStart()
    ensures CommitPatternMatches("git commit -m x")
  {
    assert "" + "git" + " " + "commit" + " -m x" == "git commit -m x";
    MatchesAfter("", " ", " -m x");
  }

  /** A command after a separator and a space is accepted. */
  lemma AcceptsAfterSeparator()
    ensures CommitPatternMatches("a; git commit")
  {
    assert "a; " + "git" + " " + "commit" + "" == "a; git commit";
    MatchesAfter("a; ", " ", "");
  }

  /** A command directly after `&&`, with no space, is accepted. */
  lemma AcceptsDirectlyAfterAnd()
    ensures CommitPatternMatches("a &&git commit")
  {
    assert "a &&" + "git" + " " + "commit" + "" == "a &&git commit";
    MatchesAfter("a &&", " ", "");
  }

  /** Several spaces between the two words are accepted. */
  lemma AcceptsWideGap()
    ensures CommitPatternMatches("git   commit")
  {
    assert "" + "git" + "   " + "commit" + "" == "git   commit";
    MatchesAfter("", "   ", "");
  }

  /** `git` directly after a letter or a quote character has no boundary
      before it, so neither command is classified as a commit. */
  lemma RejectsWithoutBoundary()
    ensures !CommitPatternMatches("mygit commit")
    ensures !CommitPatternMatches("\"git commit\"")
  {
    var s1 := "mygit commit";
    forall i | 0 <= i <= |s1| ensures !MatchesAt(s1, i) {
      BoundaryBeforeIff(s1, i);
      OccursAtFirst(s1, i, "git");
    }
    var s2 := "\"git commit\"";
    forall i | 0 <= i <= |s2| ensures !MatchesAt(s2, i) {
      BoundaryBeforeIff(s2, i);
      OccursAtFirst(s2, i, "git");
    }
  }

  /** `commit` must be followed by whitespace or the end of the text. */
  lemma RejectsLongerWord()
    ensures !CommitPatternMatches("git commitx")
  {
    var s := "git commitx";
    forall i, k | 0 <= i <= |s| && 0 <= k ensures !CommitWordsSplit(s, i, k) {
      OccursAtFirst(s, k, "commit");
    }
  }

  /** Another git subcommand is not a commit. */
  lemma RejectsOtherSubcommand()
    ensures !CommitPatternMatches("git log --oneline")
  {
    var s := "git log --oneline";
    NotAtAnyIndex(s, 'c');
    forall i, k | 0 <= i <= |s| && 0 <= k ensures !CommitWordsSplit(s, i, k) {
      OccursAtFirst(s, k, "commit");
    }
  }

  /** The marker after a blank line begins a line and counts. */
  lemma MarkerAfterBlankLine()
    ensures HasMarkerLine("fix bug\n\n" + Marker + " discussed in session")
  {
    OccursAtJoin("fix bug\n\n", Marker, " discussed in session");
    assert MarkerLineAt("fix bug\n\n" + Marker + " discussed in session", 9);
  }

  /** The marker after other text on the same line does not count. */
  lemma MarkerMidLineIgnored()
    ensures !HasMarkerLine("fix bug; " + Marker + " discussed")
  {
    var s := "fix bug; " + Marker + " discussed";
    SingleLineMarker(s);
    OccursAtFirst(s, 0, Marker);
  }

  /** A plain commit command with a one-line message. */
  const PlainCommit: string := "git commit -m \"fix bug\""

  /** The same commit with a conversation context paragraph. */
  const ContextCommit: string := "git commit -m \"fix bug\n\n" + Marker + " discussed in session\""

  lemma PlainCommitMatches()
    ensures CommitPatternMatches(PlainCommit)
  {
    assert "" + "git" + " " + "commit" + " -m \"fix bug\"" == PlainCommit;
    MatchesAfter("", " ", " -m \"fix bug\"");
  }

  lemma PlainCommitHasNoMarker()
    ensures !HasMarkerLine(PlainCommit)
  {
    NotAtAnyIndex(PlainCommit, 'C');
    forall i | 0 <= i <= |PlainCommit| ensures !MarkerLineAt(PlainCommit, i) {
      OccursAtFirst(PlainCommit, i, Marker);
    }
  }

  lemma ContextCommitMatches()
    ensures CommitPatternMatches(ContextCommit)
  {
    assert "" + "git" + " " + "commit" + " -m \"fix bug\n\n" == "git commit -m \"fix bug\n\n";
    assert "" + "git" + " " + "commit" + (" -m \"fix bug\n\n" + Marker + " discussed in session\"") == ContextCommit;
    MatchesAfter("", " ", " -m \"fix bug\n\n" + Marker + " discussed in session\"");
  }

  lemma ContextCommitHasMarker()
    ensures HasMarkerLine(ContextCommit)
  {
    var head := "git commit -m \"fix bug\n\n";
    OccursAtJoin(head, Marker, " discussed in session\"");
    assert ContextCommit == head + Marker + " discussed in session\"";
    assert MarkerLineAt(ContextCommit, |head|);
  }

  /** A file system on which only the given path exists. */
  function OnlyFile(path: string): string -> bool {
    p => p == path
  }

  /** The skill file of a project in `/repo` run without a plugin root,
      `/repo/.claude/skills/git-commit-conversation-context/SKILL.md`. */
  const RepoSkill: string := Join("/repo", ProjectRelative)

  /** A shell event in `/repo` running `command`. */
  function BashIn(command: string): Event {
    Event(Some("Bash"), Some(command), Some("/repo"))
  }

  /** A plain commit is blocked once the skill is installed. */
  lemma PlainCommitBlocked()
    ensures Decide(Env(None, None), Some(BashIn(PlainCommit)), None, OnlyFile(RepoSkill)) == Block
    ensures ExitCode(Decide(Env(None, None), Some(BashIn(PlainCommit)), None, OnlyFile(RepoSkill))) == 2
  {
    PlainCommitMatches();
    PlainCommitHasNoMarker();
  }

  /** The same commit passes when the skill is not installed. */
  lemma PlainCommitWithoutSkillAllowed()
    ensures Decide(Env(None, None), Some(BashIn(PlainCommit)), None, OnlyFile("")) == Allow
  {
    PlainCommitMatches();
    PlainCommitHasNoMarker();
  }

  /** A commit carrying the marker line passes. */
  lemma ContextCommitAllowed()
    ensures Decide(Env(None, None), Some(BashIn(ContextCommit)), None, OnlyFile(RepoSkill)) == Allow
  {
    ContextCommitMatches();
    ContextCommitHasMarker();
  }

  /** A command that is not a commit passes. */
  lemma LogAllowed()
    ensures Decide(Env(None, None), Some(BashIn("git log --oneline")), None, OnlyFile(RepoSkill)) == Allow
  {
    RejectsOtherSubcommand();
  }
}
