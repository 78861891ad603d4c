/**
 * Whole messages through `Detect`: the categories in their fixed order, the
 * keyword checks for push and status, and a message that asks for nothing.
 *
 * As in `GitIntentExamples`, each lemma fixes its message by a `requires` and
 * takes the search apart one pattern at a time.
 */
module DetectExamples {
  import opened Wrappers
  import opened Text
  import opened GitIntent
  import opened GitIntentExamples

  // ---------------------------------------------------------------------------
  // Helpers
  // ---------------------------------------------------------------------------

  /** A message without upper-case letters is its own lower-case form. */
  lemma LowerKeeps(s: string)
    requires forall c :: c in s ==> !IsUpper(c)
    ensures Lower(s) == s
  {
    forall i | 0 <= i < |s| ensures Lower(s)[i] == s[i] {
      assert s[i] in s;
    }
  }

  /** `w` does not start at `q` when its `i`-th character differs from the text's. */
  lemma MismatchAt(s: string, q: nat, w: string, i: nat)
    requires i < |w| && q + i < |s| && s[q + i] != w[i]
    ensures !StartsAt(s, q, w)
  {
    if q + |w| <= |s| {
      assert s[q..q + |w|][i] == s[q + i];
    }
  }

  /** A word with a letter the text lacks does not occur in it. */
  lemma AbsentWord(s: string, w: string, c: char)
    requires c in w && c !in s
    ensures !Contains(s, w)
  {
    var i :| 0 <= i < |w| && w[i] == c;
    forall j | 0 <= j <= |s| ensures !StartsAt(s, j, w) {
      if j + i < |s| {
        assert s[j + i] in s;
        MismatchAt(s, j, w, i);
      }
    }
  }

  /** A word that starts nowhere in the text, checked at the positions of its first letter only. */
  lemma AbsentAtCandidates(s: string, w: string, cands: set<nat>)
    requires w != []
    requires forall i :: 0 <= i < |s| && s[i] == w[0] ==> i in cands
    requires forall q :: q in cands ==> !StartsAt(s, q, w)
    ensures !Contains(s, w)
  {
    forall j | 0 <= j <= |s| && j !in cands ensures !StartsAt(s, j, w) {
      if j < |s| {
        MismatchAt(s, j, w, 0);
      }
    }
  }

  /** A pattern whose first word does not occur matches nowhere. */
  lemma FirstWordAbsent(s: string, pat: Pattern)
    requires WellFormed(pat) && !Contains(s, pat.words[0])
    ensures Search(s, pat).None?
  {
    forall q: nat | q <= |s| ensures MatchAt(s, q, pat).None? {
    }
    SearchLeftmost(s, pat);
  }

  // ---------------------------------------------------------------------------
  // "hello, how are you": no operation at all
  // ---------------------------------------------------------------------------

  lemma HelloLower(s: string)
    requires s == "hello, how are you"
    ensures Lower(s) == s
  {
    LowerKeeps(s);
  }

  lemma HelloNoClone(s: string)
    requires s == "hello, how are you"
    ensures CloneOperations(s) == []
  {
    ClonePatternsWellFormed();
    NoLetter(s, 'c');
    NoLetter(s, 'g');
    NoLetter(s, 'p');
    AbsentFirstLetter(s, ClonePatterns[0]);
    AbsentFirstLetter(s, ClonePatterns[1]);
    AbsentFirstLetter(s, ClonePatterns[2]);
    ThreePatterns(s, ClonePatterns, CloneCategory);
  }

  lemma HelloNoCheckout(s: string)
    requires s == "hello, how are you"
    ensures CheckoutOperations(s) == []
  {
    CheckoutPatternsWellFormed();
    NoLetter(s, 'c');
    NoLetter(s, 's');
    NoLetter(s, 'g');
    AbsentFirstLetter(s, CheckoutPatterns[0]);
    AbsentFirstLetter(s, CheckoutPatterns[1]);
    AbsentFirstLetter(s, CheckoutPatterns[2]);
    ThreePatterns(s, CheckoutPatterns, CheckoutCategory);
  }

  lemma HelloNoCommit(s: string)
    requires s == "hello, how are you"
    ensures CommitOperations(s) == []
  {
    CommitPatternsWellFormed();
    NoLetter(s, 'c');
    NoLetter(s, 'g');
    NoLetter(s, 's');
    AbsentFirstLetter(s, CommitPatterns[0]);
    AbsentFirstLetter(s, CommitPatterns[1]);
    AbsentFirstLetter(s, CommitPatterns[2]);
    ThreePatterns(s, CommitPatterns, CommitCategory);
  }

  lemma HelloNoPush(s: string)
    requires s == "hello, how are you"
    ensures !PushRequested(s)
  {
    AbsentWord(s, "push", 'p');
    AbsentWord(s, "upload", 'p');
    AbsentWord(s, "sync changes", 's');
  }

  lemma HelloNoStatus(s: string)
    requires s == "hello, how are you"
    ensures !StatusRequested(s)
  {
    AbsentWord(s, "status", 's');
    AbsentWord(s, "what changed", 'c');
    AbsentWord(s, "changes", 'c');
  }

  /** Small talk asks for nothing. */
  lemma SmallTalkYieldsNothing(s: string)
    requires s == "hello, how are you"
    ensures Detect(s) == []
  {
    HelloLower(s);
    HelloNoClone(s);
    HelloNoCheckout(s);
    HelloNoCommit(s);
    HelloNoPush(s);
    HelloNoStatus(s);
  }

  // ---------------------------------------------------------------------------
  // "clone https://x/y and push": a clone, then a push
  // ---------------------------------------------------------------------------

  lemma UrlLower(s: string)
    requires s == "clone https://x/y and push"
    ensures Lower(s) == s
  {
    LowerKeeps(s);
  }

  lemma UrlLetterC(s: string)
    requires s == "clone https://x/y and push"
    ensures forall i :: 0 <= i < |s| && s[i] == 'c' ==> i == 0
  {
  }

  lemma UrlLetterP(s: string)
    requires s == "clone https://x/y and push"
    ensures forall i :: 0 <= i < |s| && s[i] == 'p' ==> i == 9 || i == 22
  {
  }

  lemma UrlLetterS(s: string)
    requires s == "clone https://x/y and push"
    ensures forall i :: 0 <= i < |s| && s[i] == 's' ==> i == 10 || i == 24
  {
  }

  lemma UrlTail(s: string)
    requires s == "clone https://x/y and push"
    ensures TokenTail(s, 5) == Some("https://x/y")
  {
    assert SpaceRun(s, 6) == 0;
    assert SpaceRun(s, 5) == 1;
    assert TokenEnd(s, 17) == 17;
    assert TokenEnd(s, 6) == 17;
    assert s[6..17] == "https://x/y";
  }

  lemma UrlCloneFound(s: string)
    requires s == "clone https://x/y and push"
    ensures Search(s, ClonePatterns[0]) == Some("https://x/y")
  {
    ClonePatternsWellFormed();
    assert s[0..5] == "clone";
    assert MatchWords(s, 0, ["clone"]) == Some(5);
    UrlTail(s);
    assert MatchAt(s, 0, ClonePatterns[0]) == Some("https://x/y");
    LeftmostMatch(s, ClonePatterns[0], 0);
    StripNoSpace("https://x/y");
  }

  /** "pull" would need a 'p' followed by 'u' and two 'l's. */
  lemma UrlNoPull(s: string)
    requires s == "clone https://x/y and push"
    ensures !Contains(s, "pull")
  {
    UrlLetterP(s);
    MismatchAt(s, 9, "pull", 1);
    MismatchAt(s, 22, "pull", 2);
    AbsentAtCandidates(s, "pull", {9, 22});
  }

  lemma UrlOneClone(s: string)
    requires s == "clone https://x/y and push"
    ensures CloneOperations(s) ==
      [GitOperationRequest("clone", repoUrl := Some("https://x/y"), branch := Some("main"))]
  {
    ClonePatternsWellFormed();
    NoLetter(s, 'g');
    UrlCloneFound(s);
    AbsentFirstLetter(s, ClonePatterns[1]);
    UrlNoPull(s);
    FirstWordAbsent(s, ClonePatterns[2]);
    ThreePatterns(s, ClonePatterns, CloneCategory);
  }

  lemma UrlNoCheckout(s: string)
    requires s == "clone https://x/y and push"
    ensures CheckoutOperations(s) == []
  {
    CheckoutPatternsWellFormed();
    UrlLetterC(s);
    MismatchAt(s, 0, "checkout", 1);
    AbsentAtCandidates(s, "checkout", {0});
    UrlLetterS(s);
    MismatchAt(s, 10, "switch", 1);
    MismatchAt(s, 24, "switch", 1);
    AbsentAtCandidates(s, "switch", {10, 24});
    NoLetter(s, 'g');
    FirstWordAbsent(s, CheckoutPatterns[0]);
    FirstWordAbsent(s, CheckoutPatterns[1]);
    AbsentFirstLetter(s, CheckoutPatterns[2]);
    ThreePatterns(s, CheckoutPatterns, CheckoutCategory);
  }

  lemma UrlNoCommit(s: string)
    requires s == "clone https://x/y and push"
    ensures CommitOperations(s) == []
  {
    CommitPatternsWellFormed();
    UrlLetterC(s);
    MismatchAt(s, 0, "commit", 1);
    AbsentAtCandidates(s, "commit", {0});
    UrlLetterS(s);
    MismatchAt(s, 10, "save changes", 1);
    MismatchAt(s, 24, "save changes", 1);
    AbsentAtCandidates(s, "save changes", {10, 24});
    NoLetter(s, 'g');
    FirstWordAbsent(s, CommitPatterns[0]);
    AbsentFirstLetter(s, CommitPatterns[1]);
    FirstWordAbsent(s, CommitPatterns[2]);
    ThreePatterns(s, CommitPatterns, CommitCategory);
  }

  lemma UrlPush(s: string)
    requires s == "clone https://x/y and push"
    ensures PushRequested(s)
  {
    assert s[22..26] == "push";
    assert StartsAt(s, 22, "push");
  }

  lemma UrlNoStatusWord(s: string)
    requires s == "clone https://x/y and push"
    ensures !Contains(s, "status")
  {
    UrlLetterS(s);
    MismatchAt(s, 10, "status", 1);
    MismatchAt(s, 24, "status", 1);
    AbsentAtCandidates(s, "status", {10, 24});
  }

  lemma UrlNoChanges(s: string)
    requires s == "clone https://x/y and push"
    ensures !Contains(s, "changes")
  {
    UrlLetterC(s);
    MismatchAt(s, 0, "changes", 1);
    AbsentAtCandidates(s, "changes", {0});
  }

  lemma UrlNoStatus(s: string)
    requires s == "clone https://x/y and push"
    ensures !StatusRequested(s)
  {
    UrlNoStatusWord(s);
    AbsentWord(s, "what changed", 'w');
    UrlNoChanges(s);
  }

  /** The clone comes from `clone\s+...` alone, and "push" adds a push after it. */
  lemma CloneAndPushYieldsTwo(s: string)
    requires s == "clone https://x/y and push"
    ensures Detect(s) ==
      [GitOperationRequest("clone", repoUrl := Some("https://x/y"), branch := Some("main")),
       GitOperationRequest("push")]
  {
    UrlLower(s);
    UrlOneClone(s);
    UrlNoCheckout(s);
    UrlNoCommit(s);
    UrlPush(s);
    UrlNoStatus(s);
  }

  // ---------------------------------------------------------------------------
  // "git checkout x": two checkouts of the same branch
  // ---------------------------------------------------------------------------

  lemma CheckoutLower(s: string)
    requires s == "git checkout x"
    ensures Lower(s) == s
  {
    LowerKeeps(s);
  }

  lemma CheckoutLetterC(s: string)
    requires s == "git checkout x"
    ensures forall i :: 0 <= i < |s| && s[i] == 'c' ==> i == 4 || i == 7
  {
  }

  lemma CheckoutLetterG(s: string)
    requires s == "git checkout x"
    ensures forall i :: 0 <= i < |s| && s[i] == 'g' ==> i == 0
  {
  }

  lemma BranchTail(s: string)
    requires s == "git checkout x"
    ensures TokenTail(s, 12) == Some("x")
    ensures OptionalTokenTail(s, 12, Some("branch")) == Some("x")
  {
    assert SpaceRun(s, 13) == 0;
    assert SpaceRun(s, 12) == 1;
    assert TokenEnd(s, 14) == 14;
    assert TokenEnd(s, 13) == 14;
    assert s[13..14] == "x";
  }

  lemma CheckoutWords(s: string)
    requires s == "git checkout x"
    ensures MatchWords(s, 4, ["checkout"]) == Some(12)
    ensures MatchWords(s, 0, ["git", "checkout"]) == Some(12)
  {
    assert s[0..3] == "git";
    assert s[4..12] == "checkout";
    assert SpaceRun(s, 4) == 0;
    assert SpaceRun(s, 3) == 1;
    assert ["git", "checkout"][1..] == ["checkout"];
  }

  lemma CheckoutNotBeforeFour(s: string)
    requires s == "git checkout x"
    ensures forall q: nat :: q < 4 ==> MatchAt(s, q, CheckoutPatterns[0]).None?
  {
    CheckoutPatternsWellFormed();
    forall q: nat | q < 4 ensures MatchAt(s, q, CheckoutPatterns[0]).None? {
      FirstWordAt(s, q, CheckoutPatterns[0]);
    }
  }

  lemma PlainCheckoutFound(s: string)
    requires s == "git checkout x"
    ensures Search(s, CheckoutPatterns[0]) == Some("x")
  {
    CheckoutPatternsWellFormed();
    CheckoutWords(s);
    BranchTail(s);
    assert MatchAt(s, 4, CheckoutPatterns[0]) == Some("x");
    CheckoutNotBeforeFour(s);
    LeftmostMatch(s, CheckoutPatterns[0], 4);
    StripNoSpace("x");
  }

  lemma GitCheckoutFound(s: string)
    requires s == "git checkout x"
    ensures Search(s, CheckoutPatterns[2]) == Some("x")
  {
    CheckoutPatternsWellFormed();
    CheckoutWords(s);
    BranchTail(s);
    assert MatchAt(s, 0, CheckoutPatterns[2]) == Some("x");
    LeftmostMatch(s, CheckoutPatterns[2], 0);
    StripNoSpace("x");
  }

  lemma NothingToCreate(s: string)
    requires s == "git checkout x"
    ensures !CreateRequested(s)
  {
    AbsentWord(s, "create", 'r');
    AbsentWord(s, "new", 'n');
  }

  /** Both `checkout\s+...` and `git\s+checkout\s+...` match, so the branch is checked out twice. */
  lemma GitCheckoutYieldsTwoCheckouts(s: string)
    requires s == "git checkout x"
    ensures CheckoutOperations(s) ==
      [GitOperationRequest("checkout", branch := Some("x"), create := false),
       GitOperationRequest("checkout", branch := Some("x"), create := false)]
  {
    CheckoutPatternsWellFormed();
    NoLetter(s, 's');
    PlainCheckoutFound(s);
    AbsentFirstLetter(s, CheckoutPatterns[1]);
    GitCheckoutFound(s);
    NothingToCreate(s);
    ThreePatterns(s, CheckoutPatterns, CheckoutCategory);
  }

  /** "git" followed by "checkout" is not followed by "clone" or "commit". */
  lemma GitNotCloneOrCommit(s: string)
    requires s == "git checkout x"
    ensures MatchWords(s, 0, ["git", "clone"]).None?
    ensures MatchWords(s, 0, ["git", "commit", "-m"]).None?
  {
    assert s[0..3] == "git";
    assert SpaceRun(s, 4) == 0;
    assert SpaceRun(s, 3) == 1;
    MismatchAt(s, 4, "clone", 1);
    MismatchAt(s, 4, "commit", 1);
    assert ["git", "clone"][1..] == ["clone"];
    assert ["git", "commit", "-m"][1..] == ["commit", "-m"];
  }

  lemma CheckoutNoClone(s: string)
    requires s == "git checkout x"
    ensures CloneOperations(s) == []
  {
    ClonePatternsWellFormed();
    CheckoutLetterC(s);
    MismatchAt(s, 4, "clone", 1);
    MismatchAt(s, 7, "clone", 1);
    AbsentAtCandidates(s, "clone", {4, 7});
    GitNotCloneOrCommit(s);
    CheckoutLetterG(s);
    NoLetter(s, 'p');
    FirstWordAbsent(s, ClonePatterns[0]);
    OnlyCandidateFails(s, ClonePatterns[1], 0);
    AbsentFirstLetter(s, ClonePatterns[2]);
    ThreePatterns(s, ClonePatterns, CloneCategory);
  }

  lemma CheckoutNoCommit(s: string)
    requires s == "git checkout x"
    ensures CommitOperations(s) == []
  {
    CommitPatternsWellFormed();
    CheckoutLetterC(s);
    MismatchAt(s, 4, "commit", 1);
    MismatchAt(s, 7, "commit", 1);
    AbsentAtCandidates(s, "commit", {4, 7});
    GitNotCloneOrCommit(s);
    CheckoutLetterG(s);
    NoLetter(s, 's');
    FirstWordAbsent(s, CommitPatterns[0]);
    OnlyCandidateFails(s, CommitPatterns[1], 0);
    AbsentFirstLetter(s, CommitPatterns[2]);
    ThreePatterns(s, CommitPatterns, CommitCategory);
  }

  lemma CheckoutNoPush(s: string)
    requires s == "git checkout x"
    ensures !PushRequested(s)
  {
    AbsentWord(s, "push", 'p');
    AbsentWord(s, "upload", 'p');
    AbsentWord(s, "sync changes", 's');
  }

  /** "changes" would need "ch" followed by 'a': "checkout" has "che". */
  lemma CheckoutNoChanges(s: string)
    requires s == "git checkout x"
    ensures !Contains(s, "changes")
  {
    CheckoutLetterC(s);
    MismatchAt(s, 4, "changes", 2);
    MismatchAt(s, 7, "changes", 1);
    AbsentAtCandidates(s, "changes", {4, 7});
  }

  lemma CheckoutNoStatus(s: string)
    requires s == "git checkout x"
    ensures !StatusRequested(s)
  {
    AbsentWord(s, "status", 's');
    AbsentWord(s, "what changed", 'w');
    CheckoutNoChanges(s);
  }

  /** "git checkout x" asks for the same checkout twice and nothing else. */
  lemma GitCheckoutDetected(s: string)
    requires s == "git checkout x"
    ensures Detect(s) ==
      [GitOperationRequest("checkout", branch := Some("x"), create := false),
       GitOperationRequest("checkout", branch := Some("x"), create := false)]
  {
    CheckoutLower(s);
    CheckoutNoClone(s);
    CheckoutNoCommit(s);
    GitCheckoutYieldsTwoCheckouts(s);
    CheckoutNoPush(s);
    CheckoutNoStatus(s);
  }
}
