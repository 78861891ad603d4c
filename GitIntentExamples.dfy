/**
 * Worked messages for the git-intent extractor, showing the behaviour of the
 * code as written: no `break` inside a category, a checkout that captures the
 * first token after the trigger, and a commit pattern list in which the more
 * specific `git commit -m` pattern is the only one that fits.
 *
 * Each lemma takes the message as a parameter fixed by its `requires`, so the
 * verifier reasons about it step by step instead of unfolding every search.
 */
module GitIntentExamples {
  import opened Wrappers
  import opened Text
  import opened GitIntent

  /** A match of `pat` at `q` starts with the first character of its first word. */
  lemma FirstWordAt(s: string, q: nat, pat: Pattern)
    requires q <= |s| && WellFormed(pat)
    ensures MatchAt(s, q, pat).Some? ==> q < |s| && s[q] == pat.words[0][0]
  {
    if MatchAt(s, q, pat).Some? {
      assert s[q..q + |pat.words[0]|][0] == s[q];
    }
  }

  /** A pattern whose first letter never occurs cannot match anywhere. */
  lemma AbsentFirstLetter(s: string, pat: Pattern)
    requires WellFormed(pat)
    requires forall i :: 0 <= i < |s| ==> s[i] != pat.words[0][0]
    ensures Search(s, pat).None?
  {
    forall q: nat | q <= |s| ensures MatchAt(s, q, pat).None? {
      FirstWordAt(s, q, pat);
    }
    SearchLeftmost(s, pat);
  }

  /** A pattern whose first letter occurs only at `k`, and that does not match there, matches nowhere. */
  lemma OnlyCandidateFails(s: string, pat: Pattern, k: nat)
    requires WellFormed(pat) && k <= |s|
    requires forall i :: 0 <= i < |s| && s[i] == pat.words[0][0] ==> i == k
    requires MatchAt(s, k, pat).None?
    ensures Search(s, pat).None?
  {
    forall q: nat | q <= |s| ensures MatchAt(s, q, pat).None? {
      FirstWordAt(s, q, pat);
    }
    SearchLeftmost(s, pat);
  }

  /** When `k` is the first position where `pat` matches, `Search` strips that match's capture. */
  lemma LeftmostMatch(s: string, pat: Pattern, k: nat)
    requires WellFormed(pat) && k <= |s|
    requires forall q: nat :: q < k ==> MatchAt(s, q, pat).None?
    requires MatchAt(s, k, pat).Some?
    ensures Search(s, pat) == Some(Strip(MatchAt(s, k, pat).value))
  {
    SearchLeftmost(s, pat);
    var q: nat :| q <= |s| && MatchAt(s, q, pat).Some? &&
      Search(s, pat).value == Strip(MatchAt(s, q, pat).value) &&
      forall q': nat :: q' < q ==> MatchAt(s, q', pat).None?;
    assert q == k;
  }

  /** `c` does not occur in `s` (decided character by character). */
  lemma NoLetter(s: string, c: char)
    requires c !in s
    ensures forall i :: 0 <= i < |s| ==> s[i] != c
  {
  }

  /** `c` occurs in `s` at index `k` and nowhere else. */
  lemma OnlyAt(s: string, c: char, k: nat)
    requires k < |s| && s[k] == c && c !in s[..k] && c !in s[k + 1..]
    ensures forall i :: 0 <= i < |s| && s[i] == c ==> i == k
  {
    forall i | 0 <= i < |s| && i != k ensures s[i] != c {
      if i < k {
        assert s[..k][i] == s[i];
      } else {
        assert s[k + 1..][i - k - 1] == s[i];
      }
    }
  }

  // ---------------------------------------------------------------------------
  // "git clone x": two clones
  // ---------------------------------------------------------------------------

  lemma CloneTail(s: string)
    requires s == "git clone x"
    ensures TokenTail(s, 9) == Some("x")
  {
    assert SpaceRun(s, 10) == 0;
    assert SpaceRun(s, 9) == 1;
    assert TokenEnd(s, 11) == 11;
    assert TokenEnd(s, 10) == 11;
    assert s[10..11] == "x";
  }

  lemma CloneMatchAtFour(s: string)
    requires s == "git clone x"
    ensures MatchAt(s, 4, ClonePatterns[0]) == Some("x")
  {
    assert s[4..9] == "clone";
    assert MatchWords(s, 4, ["clone"]) == Some(9);
    CloneTail(s);
  }

  lemma CloneNotBeforeFour(s: string)
    requires s == "git clone x"
    ensures forall q: nat :: q < 4 ==> MatchAt(s, q, ClonePatterns[0]).None?
  {
    forall q: nat | q < 4 ensures MatchAt(s, q, ClonePatterns[0]).None? {
      FirstWordAt(s, q, ClonePatterns[0]);
    }
  }

  lemma CloneFoundAtFour(s: string)
    requires s == "git clone x"
    ensures Search(s, ClonePatterns[0]) == Some("x")
  {
    ClonePatternsWellFormed();
    CloneNotBeforeFour(s);
    CloneMatchAtFour(s);
    LeftmostMatch(s, ClonePatterns[0], 4);
    StripNoSpace("x");
  }

  lemma GitCloneWords(s: string)
    requires s == "git clone x"
    ensures MatchWords(s, 0, ["git", "clone"]) == Some(9)
  {
    assert s[0..3] == "git";
    assert s[4..9] == "clone";
    assert SpaceRun(s, 4) == 0;
    assert SpaceRun(s, 3) == 1;
    assert MatchWords(s, 4, ["clone"]) == Some(9);
    assert ["git", "clone"][1..] == ["clone"];
  }

  lemma GitCloneFoundAtZero(s: string)
    requires s == "git clone x"
    ensures Search(s, ClonePatterns[1]) == Some("x")
  {
    ClonePatternsWellFormed();
    GitCloneWords(s);
    CloneTail(s);
    assert MatchAt(s, 0, ClonePatterns[1]) == Some("x");
    LeftmostMatch(s, ClonePatterns[1], 0);
    StripNoSpace("x");
  }

  lemma PullDownAbsent(s: string)
    requires s == "git clone x"
    ensures Search(s, ClonePatterns[2]).None?
  {
    ClonePatternsWellFormed();
    NoLetter("git clone x", 'p');
    AbsentFirstLetter(s, ClonePatterns[2]);
  }

  /** Both `clone\s+...` and `git\s+clone\s+...` match, so "git clone x" asks for two clones. */
  lemma GitCloneYieldsTwoClones(s: string)
    requires s == "git clone x"
    ensures CloneOperations(s) ==
      [GitOperationRequest("clone", repoUrl := Some("x"), branch := Some("main")),
       GitOperationRequest("clone", repoUrl := Some("x"), branch := Some("main"))]
  {
    ClonePatternsWellFormed();
    CloneFoundAtFour(s);
    GitCloneFoundAtZero(s);
    PullDownAbsent(s);
    ThreePatterns(s, ClonePatterns, CloneCategory);
  }

  // ---------------------------------------------------------------------------
  // "checkout new feature-x": the branch is "new", and it is to be created
  // ---------------------------------------------------------------------------

  lemma CheckoutTail(s: string)
    requires s == "checkout new feature-x"
    ensures OptionalTokenTail(s, 8, Some("branch")) == Some("new")
  {
    assert SpaceRun(s, 9) == 0;
    assert SpaceRun(s, 8) == 1;
    assert s[9..15][0] == s[9] == 'n';
    assert !StartsAt(s, 9, "branch");
    assert TokenEnd(s, 12) == 12;
    assert TokenEnd(s, 9) == 12;
    assert s[9..12] == "new";
  }

  lemma CheckoutFoundAtZero(s: string)
    requires s == "checkout new feature-x"
    ensures Search(s, CheckoutPatterns[0]) == Some("new")
  {
    CheckoutPatternsWellFormed();
    assert s[..8] == "checkout";
    assert MatchWords(s, 0, ["checkout"]) == Some(8);
    CheckoutTail(s);
    assert MatchAt(s, 0, CheckoutPatterns[0]) == Some("new");
    LeftmostMatch(s, CheckoutPatterns[0], 0);
    StripNoSpace("new");
  }

  lemma SwitchAbsent(s: string)
    requires s == "checkout new feature-x"
    ensures Search(s, CheckoutPatterns[1]).None?
  {
    CheckoutPatternsWellFormed();
    NoLetter("checkout new feature-x", 's');
    AbsentFirstLetter(s, CheckoutPatterns[1]);
  }

  lemma GitCheckoutAbsent(s: string)
    requires s == "checkout new feature-x"
    ensures Search(s, CheckoutPatterns[2]).None?
  {
    CheckoutPatternsWellFormed();
    NoLetter("checkout new feature-x", 'g');
    AbsentFirstLetter(s, CheckoutPatterns[2]);
  }

  lemma CreateRequestedByNew(s: string)
    requires s == "checkout new feature-x"
    ensures CreateRequested(s)
  {
    assert StartsAt(s, 9, "new");
  }

  /**
   * The capture is the first token after `checkout`, so the branch is "new",
   * not "feature-x"; and since the message contains "new", `create` is set.
   */
  lemma CheckoutCapturesFirstToken(s: string)
    requires s == "checkout new feature-x"
    ensures CheckoutOperations(s) ==
      [GitOperationRequest("checkout", branch := Some("new"), create := true)]
  {
    CheckoutPatternsWellFormed();
    CheckoutFoundAtZero(s);
    SwitchAbsent(s);
    GitCheckoutAbsent(s);
    CreateRequestedByNew(s);
    ThreePatterns(s, CheckoutPatterns, CheckoutCategory);
  }

  // ---------------------------------------------------------------------------
  // "git commit -m 'fix bug'": one commit, from the second pattern only
  // ---------------------------------------------------------------------------

  lemma CommitWordAtFour(s: string)
    requires s == "git commit -m 'fix bug'"
    ensures MatchWords(s, 4, ["commit"]) == Some(10)
  {
    assert s[4..10] == "commit";
  }

  lemma SpaceAfterCommit(s: string)
    requires s == "git commit -m 'fix bug'"
    ensures SpaceRun(s, 10) == 1
  {
    assert SpaceRun(s, 11) == 0;
  }

  lemma DashIsNoQuote(s: string)
    requires s == "git commit -m 'fix bug'"
    ensures !StartsAt(s, 11, "with message")
    ensures QuotedAt(s, 11).None?
  {
    assert s[11..23][0] == s[11] == '-';
  }

  lemma PlainCommitFailsAtFour(s: string)
    requires s == "git commit -m 'fix bug'"
    ensures MatchAt(s, 4, CommitPatterns[0]).None?
  {
    CommitWordAtFour(s);
    SpaceAfterCommit(s);
    DashIsNoQuote(s);
    assert OptionalQuotedTail(s, 10, Some("with message")).None?;
  }

  lemma CommitLetterOnlyAtFour(s: string)
    requires s == "git commit -m 'fix bug'"
    ensures forall i :: 0 <= i < |s| && s[i] == 'c' ==> i == 4
  {
    assert s[..4] == "git " && s[5..] == "ommit -m 'fix bug'";
    OnlyAt(s, 'c', 4);
  }

  /** `commit\s+(?:with message\s+)?["']...` sees "-m" where it wants a quote. */
  lemma PlainCommitFails(s: string)
    requires s == "git commit -m 'fix bug'"
    ensures Search(s, CommitPatterns[0]).None?
  {
    CommitPatternsWellFormed();
    CommitLetterOnlyAtFour(s);
    PlainCommitFailsAtFour(s);
    OnlyCandidateFails(s, CommitPatterns[0], 4);
  }

  lemma DashMWordsFromFour(s: string)
    requires s == "git commit -m 'fix bug'"
    ensures MatchWords(s, 4, ["commit", "-m"]) == Some(13)
  {
    assert s[4..10] == "commit";
    assert s[11..13] == "-m";
    assert SpaceRun(s, 11) == 0;
    assert SpaceRun(s, 10) == 1;
    assert MatchWords(s, 11, ["-m"]) == Some(13);
    assert ["commit", "-m"][1..] == ["-m"];
  }

  lemma DashMWords(s: string)
    requires s == "git commit -m 'fix bug'"
    ensures MatchWords(s, 0, ["git", "commit", "-m"]) == Some(13)
  {
    assert s[0..3] == "git";
    assert SpaceRun(s, 4) == 0;
    assert SpaceRun(s, 3) == 1;
    DashMWordsFromFour(s);
    assert ["git", "commit", "-m"][1..] == ["commit", "-m"];
  }

  lemma SpaceAfterDashM(s: string)
    requires s == "git commit -m 'fix bug'"
    ensures SpaceRun(s, 13) == 1
  {
    assert SpaceRun(s, 14) == 0;
  }

  lemma FixBugQuoted(s: string)
    requires s == "git commit -m 'fix bug'"
    ensures QuotedAt(s, 14) == Some("fix bug")
  {
    assert QuoteOrNewline(s, 22) == 22;
    assert QuoteOrNewline(s, 16) == 22;
    assert s[15..22] == "fix bug";
  }

  lemma FixBugStripped()
    ensures Strip("fix bug") == "fix bug"
  {
    var s := "fix bug";
    assert SpaceRun(s, 0) == 0;
    assert SpaceSuffixStart(s, 7) == 7;
    assert s[0..7] == s;
  }

  lemma DashMMatchesAtStart(s: string)
    requires s == "git commit -m 'fix bug'"
    ensures WellFormed(CommitPatterns[1]) && MatchAt(s, 0, CommitPatterns[1]) == Some("fix bug")
  {
    CommitPatternsWellFormed();
    DashMWords(s);
    SpaceAfterDashM(s);
    FixBugQuoted(s);
    assert OptionalQuotedTail(s, 13, None) == QuotedAt(s, 14);
  }

  lemma DashMCommitFound(s: string)
    requires s == "git commit -m 'fix bug'"
    ensures Search(s, CommitPatterns[1]) == Some("fix bug")
  {
    DashMMatchesAtStart(s);
    LeftmostMatch(s, CommitPatterns[1], 0);
    FixBugStripped();
  }

  lemma SaveChangesAbsent(s: string)
    requires s == "git commit -m 'fix bug'"
    ensures Search(s, CommitPatterns[2]).None?
  {
    CommitPatternsWellFormed();
    NoLetter("git commit -m 'fix bug'", 's');
    AbsentFirstLetter(s, CommitPatterns[2]);
  }

  /** Only `git\s+commit\s+-m\s+["']...` fits, and the quoted text keeps its inner space. */
  lemma GitCommitYieldsOneCommit(s: string)
    requires s == "git commit -m 'fix bug'"
    ensures CommitOperations(s) == [GitOperationRequest("commit", message := Some("fix bug"))]
  {
    CommitPatternsWellFormed();
    PlainCommitFails(s);
    DashMCommitFound(s);
    SaveChangesAbsent(s);
    ThreePatterns(s, CommitPatterns, CommitCategory);
  }
}
