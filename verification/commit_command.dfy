/** The command classifier of the hook: does the shell command text contain a
    `git commit` invocation? The source tests the regular expression
    `(^|[;&|]\s*|\s)git\s+commit(\s|$)` (no flags, so `^` and `$` are the ends
    of the whole text). `CommitPatternMatches` states what that expression
    accepts, alternative by alternative; `IsGitCommitText` is a left-to-right
    scanner proved to agree with it on every input. */
module CommitCommand {
  import opened Text

  /** The group `(^|[;&|]\s*|\s)` can match a substring that ends at `i`:
      the start of the text, a separator followed by any whitespace, or one
      whitespace character. */
  ghost predicate LeftBoundary(s: string, i: nat)
    requires i <= |s|
  {
    || i == 0
    || (exists j :: 0 <= j < i && IsSeparator(s[j]) && AllSpace(s[j + 1..i]))
    || (0 < i && IsSpace(s[i - 1]))
  }

  /** `git\s+commit(\s|$)` can match a substring that starts at `i`; `k` is
      where `commit` begins. */
  ghost predicate CommitWordsAt(s: string, i: nat) {
    exists k :: CommitWordsSplit(s, i, k)
  }

  ghost predicate CommitWordsSplit(s: string, i: nat, k: nat) {
    && i + 3 < k
    && OccursAt(s, i, "git")
    && k <= |s|
    && AllSpace(s[i + 3..k])
    && OccursAt(s, k, "commit")
    && (k + 6 == |s| || IsSpace(s[k + 6]))
  }

  /** The whole expression matches with `git` at index `i`. */
  ghost predicate MatchesAt(s: string, i: nat) {
    i <= |s| && LeftBoundary(s, i) && CommitWordsAt(s, i)
  }

  /** The regular expression finds a match somewhere in `s`. */
  ghost predicate CommitPatternMatches(s: string) {
    exists i :: 0 <= i <= |s| && MatchesAt(s, i)
  }

  /** `git`, a non-empty whitespace gap and `commit` placed after a boundary
      character and before whitespace or the end form a match. */
  lemma MatchesAfter(prefix: string, gap: string, rest: string)
    requires prefix == [] || IsSpace(prefix[|prefix| - 1]) || IsSeparator(prefix[|prefix| - 1])
    requires 0 < |gap| && AllSpace(gap)
    requires rest == [] || IsSpace(rest[0])
    ensures CommitPatternMatches(prefix + "git" + gap + "commit" + rest)
  {
    var s := prefix + "git" + gap + "commit" + rest;
    var i := |prefix|;
    var k := i + 3 + |gap|;
    assert s[i..i + 3] == "git";
    assert s[i + 3..k] == gap;
    assert s[k..k + 6] == "commit";
    assert CommitWordsSplit(s, i, k);
    BoundaryBeforeIff(s, i);
    assert MatchesAt(s, i);
  }

  /** Executable left context: looks at the single character before `i`. */
  predicate BoundaryBefore(s: string, i: nat)
    requires i <= |s|
  {
    i == 0 || IsSpace(s[i - 1]) || IsSeparator(s[i - 1])
  }

  /** Executable right part: `git`, a greedy whitespace run, then `commit`
      ending at whitespace or at the end of the text. */
  predicate WordsAt(s: string, i: nat) {
    && OccursAt(s, i, "git")
    && var k := SkipSpaces(s, i + 3);
    && i + 3 < k
    && OccursAt(s, k, "commit")
    && (k + 6 == |s| || IsSpace(s[k + 6]))
  }

  /** Since a separator may be followed by zero whitespace characters and a
      whitespace character is itself an alternative, the left group reduces to
      a test of the one preceding character. */
  lemma BoundaryBeforeIff(s: string, i: nat)
    requires i <= |s|
    ensures BoundaryBefore(s, i) <==> LeftBoundary(s, i)
  {
    if 0 < i && IsSeparator(s[i - 1]) {
      assert AllSpace(s[i..i]);
      assert IsSeparator(s[i - 1]) && AllSpace(s[i - 1 + 1..i]);
    }
  }

  /** The greedy whitespace run is the only split `git\s+commit` can use,
      because `commit` does not begin with whitespace. */
  lemma WordsAtIff(s: string, i: nat)
    ensures WordsAt(s, i) <==> CommitWordsAt(s, i)
  {
    if WordsAt(s, i) {
      assert CommitWordsSplit(s, i, SkipSpaces(s, i + 3));
    }
    if CommitWordsAt(s, i) {
      var k: nat :| CommitWordsSplit(s, i, k);
      OccursAtFirst(s, k, "commit");
      SkipSpacesStopsAt(s, i + 3, k);
    }
  }

  /** Executable form of `MatchesAt`. */
  predicate MatchesAtExec(s: string, i: nat)
    requires i <= |s|
    ensures MatchesAtExec(s, i) <==> MatchesAt(s, i)
  {
    BoundaryBeforeIff(s, i);
    WordsAtIff(s, i);
    BoundaryBefore(s, i) && WordsAt(s, i)
  }

  /** Tries every start index from `from` onwards, as the regular expression
      engine does. */
  function MatchFrom(s: string, from: nat): (found: bool)
    requires from <= |s|
    ensures found <==> exists i :: from <= i <= |s| && MatchesAt(s, i)
    decreases |s| - from
  {
    if MatchesAtExec(s, from) then true
    else if from == |s| then false
    else MatchFrom(s, from + 1)
  }

  /** The classifier's pattern test on the command text. */
  function IsGitCommitText(s: string): (found: bool)
    ensures found <==> CommitPatternMatches(s)
  {
    MatchFrom(s, 0)
  }
}
