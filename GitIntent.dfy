/**
 * The git-intent extractor `detect_git_operations`: the message is lower-cased
 * once, nine fixed regular expressions are searched (three per category, each
 * matching one contributing one operation), and two keyword tests add at most
 * one push and one status.
 *
 * The regular expressions are not interpreted by a general engine. Each of the
 * nine has the same shape,
 *
 *     w1 \s+ w2 ... \s+ wn \s+ (?:o\s+)? CAPTURE
 *
 * with literal words w1..wn and an optional literal o, where CAPTURE is either
 * `(.+?)(?:\s+|$)` (a token) or `["'](.+?)["']` (a quoted text). The functions
 * below compute what Python's `re.search` returns for this shape: the leftmost
 * start position, and at that position the parse Python's backtracking order
 * prefers (greedy `\s+` tried longest first, the optional group tried before
 * skipping it, lazy `.+?` tried shortest first).
 */
module GitIntent {
  import opened Wrappers
  import opened Text

  /** The pydantic model `GitOperationRequest`: only `operation` is required. */
  datatype GitOperationRequest = GitOperationRequest(
    operation: string,
    repoUrl: Option<string> := None,
    branch: Option<string> := None,
    message: Option<string> := None,
    files: Option<seq<string>> := None,
    projectName: Option<string> := None,
    create: bool := false)

  // ---------------------------------------------------------------------------
  // The nine patterns
  // ---------------------------------------------------------------------------

  datatype Capture = Token | Quoted

  /** `words[0] \s+ words[1] ... \s+ words[n-1] \s+ (?:optional\s+)? capture` */
  datatype Pattern = Pattern(words: seq<string>, optional: Option<string>, capture: Capture)

  /** `clone\s+(.+?)(?:\s+|$)`, `git\s+clone\s+(.+?)(?:\s+|$)`, `pull\s+down\s+(.+?)(?:\s+|$)` */
  const ClonePatterns: seq<Pattern> := [
    Pattern(["clone"], None, Token),
    Pattern(["git", "clone"], None, Token),
    Pattern(["pull", "down"], None, Token)
  ]

  /** `checkout\s+(?:branch\s+)?(.+?)(?:\s+|$)`, `switch\s+to\s+(?:branch\s+)?(.+?)(?:\s+|$)`,
      `git\s+checkout\s+(.+?)(?:\s+|$)` */
  const CheckoutPatterns: seq<Pattern> := [
    Pattern(["checkout"], Some("branch"), Token),
    Pattern(["switch", "to"], Some("branch"), Token),
    Pattern(["git", "checkout"], None, Token)
  ]

  /** `commit\s+(?:with message\s+)?["'](.+?)["']`, `git\s+commit\s+-m\s+["'](.+?)["']`,
      `save changes\s+(?:with message\s+)?["'](.+?)["']` */
  const CommitPatterns: seq<Pattern> := [
    Pattern(["commit"], Some("with message"), Quoted),
    Pattern(["git", "commit", "-m"], None, Quoted),
    Pattern(["save changes"], Some("with message"), Quoted)
  ]

  // ---------------------------------------------------------------------------
  // Matching one pattern at one position
  // ---------------------------------------------------------------------------

  /**
   * `w1 \s+ w2 ... \s+ wn` at `p`, giving the index just after `wn`. Every word
   * starts with a non-space character, so each `\s+` between two words can only
   * take the whole run of whitespace: backtracking into it never succeeds.
   */
  function MatchWords(s: string, p: nat, words: seq<string>): (r: Option<nat>)
    requires p <= |s|
    decreases |words|
    ensures r.Some? ==> p <= r.value <= |s|
    ensures r.Some? && words != [] ==> StartsAt(s, p, words[0])
    ensures r.Some? && |words| == 1 ==> r.value == p + |words[0]|
  {
    if words == [] then Some(p)
    else if !StartsAt(s, p, words[0]) then None
    else if |words| == 1 then Some(p + |words[0]|)
    else
      var q := p + |words[0]|;
      var gap := SpaceRun(s, q);
      if gap == 0 then None else MatchWords(s, q + gap, words[1..])
  }

  /** `s[i..i+n]` is whitespace. */
  ghost predicate SpacesAt(s: string, i: nat, n: nat) {
    i + n <= |s| && forall k :: i <= k < i + n ==> IsSpace(s[k])
  }

  /** One way for `w1 \s+ w2 ... \s+ wn` to match at `p` and end at `q`. */
  ghost predicate WordsParse(s: string, p: nat, words: seq<string>, q: nat)
    decreases |words|
  {
    if words == [] then q == p
    else if |words| == 1 then StartsAt(s, p, words[0]) && q == p + |words[0]|
    else
      && StartsAt(s, p, words[0])
      && exists m: nat :: p + |words[0]| < m <= |s| && (forall i :: p + |words[0]| <= i < m ==> IsSpace(s[i])) &&
           WordsParse(s, m, words[1..], q)
  }

  /** Words that all start with a non-space character. */
  ghost predicate WordsWellFormed(words: seq<string>) {
    forall i :: 0 <= i < |words| ==> words[i] != [] && !IsSpace(words[i][0])
  }

  /** `MatchWords` finds the one way the words match, and nothing exactly when there is none. */
  lemma {:induction false} MatchWordsIsParse(s: string, p: nat, words: seq<string>)
    requires p <= |s| && WordsWellFormed(words)
    decreases |words|
    ensures forall q: nat :: WordsParse(s, p, words, q) <==> MatchWords(s, p, words) == Some(q)
  {
    if |words| > 1 && StartsAt(s, p, words[0]) {
      var q0 := p + |words[0]|;
      var gap := SpaceRun(s, q0);
      WordsParseStep(s, p, words);
      if gap > 0 {
        MatchWordsStep(s, p, words);
        WordsWellFormedTail(words);
        MatchWordsIsParse(s, q0 + gap, words[1..]);
      }
    } else {
      MatchWordsBase(s, p, words);
    }
  }

  lemma WordsWellFormedTail(words: seq<string>)
    requires words != [] && WordsWellFormed(words)
    ensures WordsWellFormed(words[1..])
  {
    forall i | 0 <= i < |words[1..]| ensures words[1..][i] != [] && !IsSpace(words[1..][i][0]) {
      assert words[1..][i] == words[i + 1];
    }
  }

  /** No words, one word, or a first word that is not there. */
  lemma MatchWordsBase(s: string, p: nat, words: seq<string>)
    requires p <= |s| && !(|words| > 1 && StartsAt(s, p, words[0]))
    ensures forall q: nat :: WordsParse(s, p, words, q) <==> MatchWords(s, p, words) == Some(q)
  {
    if |words| > 1 {
      assert forall q: nat :: !WordsParse(s, p, words, q);
    } else if words == [] {
      assert WordsParse(s, p, words, p);
    } else if StartsAt(s, p, words[0]) {
      assert WordsParse(s, p, words, p + |words[0]|);
    }
  }

  /** After the first word and a non-empty run of whitespace, `MatchWords` goes on with the rest. */
  lemma MatchWordsStep(s: string, p: nat, words: seq<string>)
    requires p <= |s| && |words| > 1 && StartsAt(s, p, words[0]) && SpaceRun(s, p + |words[0]|) > 0
    ensures MatchWords(s, p, words) == MatchWords(s, p + |words[0]| + SpaceRun(s, p + |words[0]|), words[1..])
  {
  }

  /** The words match at `p` exactly when the first does and the rest match after the whole run of whitespace. */
  lemma WordsParseStep(s: string, p: nat, words: seq<string>)
    requires p <= |s| && |words| > 1 && StartsAt(s, p, words[0]) && words[1] != [] && !IsSpace(words[1][0])
    ensures forall q: nat :: WordsParse(s, p, words, q) <==>
      SpaceRun(s, p + |words[0]|) > 0 && WordsParse(s, p + |words[0]| + SpaceRun(s, p + |words[0]|), words[1..], q)
  {
    var q0 := p + |words[0]|;
    var gap := SpaceRun(s, q0);
    forall q: nat | WordsParse(s, p, words, q)
      ensures gap > 0 && WordsParse(s, q0 + gap, words[1..], q)
    {
      var m := NextWordStart(s, p, words, q);
      GapIsMaximal(s, q0, m, words[1..], q);
    }
    forall q: nat | gap > 0 && WordsParse(s, q0 + gap, words[1..], q)
      ensures WordsParse(s, p, words, q)
    {
      assert q0 < q0 + gap <= |s| && (forall i :: q0 <= i < q0 + gap ==> IsSpace(s[i]));
    }
  }

  /** Where the second word of a parse starts. */
  lemma NextWordStart(s: string, p: nat, words: seq<string>, q: nat) returns (m: nat)
    requires |words| > 1 && WordsParse(s, p, words, q)
    ensures p + |words[0]| < m <= |s| && (forall i :: p + |words[0]| <= i < m ==> IsSpace(s[i]))
    ensures WordsParse(s, m, words[1..], q)
  {
    m :| p + |words[0]| < m <= |s| && (forall i :: p + |words[0]| <= i < m ==> IsSpace(s[i])) &&
      WordsParse(s, m, words[1..], q);
  }

  /** The whitespace between two words is the whole run: the next word starts with a non-space. */
  lemma GapIsMaximal(s: string, q0: nat, m: nat, rest: seq<string>, q: nat)
    requires q0 < m <= |s| && (forall i :: q0 <= i < m ==> IsSpace(s[i]))
    requires rest != [] && rest[0] != [] && !IsSpace(rest[0][0])
    requires WordsParse(s, m, rest, q)
    ensures m == q0 + SpaceRun(s, q0)
  {
    assert StartsAt(s, m, rest[0]);
    assert s[m] == s[m..m + |rest[0]|][0] == rest[0][0];
  }

  /** One way for `\s+(.+?)(?:\s+|$)` to match at `r`: `k` whitespace characters,
      the capture `s[r+k..e]` (no newline, since `.` does not match one), then
      whitespace or the end of the string. */
  ghost predicate TokenParse(s: string, r: nat, k: nat, e: nat) {
    && 1 <= k
    && r + k < e <= |s|
    && (forall i :: r <= i < r + k ==> IsSpace(s[i]))
    && (forall i :: r + k <= i < e ==> s[i] != '\n')
    && (e == |s| || IsSpace(s[e]))
  }

  /** The parse Python picks among those: the longest `\s+`, then the shortest capture. */
  ghost predicate PreferredTokenParse(s: string, r: nat, k: nat, e: nat) {
    && TokenParse(s, r, k, e)
    && (forall k': nat, e': nat :: TokenParse(s, r, k', e') ==> k' <= k)
    && (forall e': nat :: TokenParse(s, r, k, e') ==> e <= e')
  }

  /** Largest index in `[lo, hi)` that does not hold a newline. */
  function LastNonNewline(s: string, lo: nat, hi: nat): (j: Option<nat>)
    requires hi <= |s|
    decreases hi
    ensures j.None? <==> forall i :: lo <= i < hi ==> s[i] == '\n'
    ensures j.Some? ==> lo <= j.value < hi && s[j.value] != '\n'
    ensures j.Some? ==> forall i :: j.value < i < hi ==> s[i] == '\n'
  {
    if hi <= lo then None
    else if s[hi - 1] != '\n' then Some(hi - 1)
    else LastNonNewline(s, lo, hi - 1)
  }

  /**
   * `\s+(.+?)(?:\s+|$)` at `r`. When something other than whitespace follows
   * the whitespace, the capture is that token. When only whitespace is left,
   * Python backtracks into `\s+` and captures the last whitespace character
   * that is not a newline (and that leaves at least one character to `\s+`).
   */
  function TokenTail(s: string, r: nat): (c: Option<string>)
    requires r <= |s|
    ensures c.Some? ==> c.value != []
    ensures c.Some? ==>
      (forall i :: 0 <= i < |c.value| ==> !IsSpace(c.value[i])) ||
      (|c.value| == 1 && IsSpace(c.value[0]))
  {
    var n := SpaceRun(s, r);
    if n == 0 then
      None
    else if r + n < |s| then
      Some(s[r + n..TokenEnd(s, r + n)])
    else
      match LastNonNewline(s, r + 1, |s|)
      case None => None
      case Some(j) => Some(s[j..j + 1])
  }

  /** `TokenTail` is the parse Python prefers, and it gives nothing exactly when no parse exists. */
  lemma TokenTailIsPreferredParse(s: string, r: nat)
    requires r <= |s|
    ensures TokenTail(s, r).None? <==> forall k: nat, e: nat :: !TokenParse(s, r, k, e)
    ensures TokenTail(s, r).Some? ==>
      exists k: nat, e: nat :: PreferredTokenParse(s, r, k, e) && TokenTail(s, r).value == s[r + k..e]
  {
    var n := SpaceRun(s, r);
    TokenParseFacts(s, r);
    if n > 0 {
      if r + n < |s| {
        assert IsSpace('\n');
        assert PreferredTokenParse(s, r, n, TokenEnd(s, r + n));
      } else if LastNonNewline(s, r + 1, |s|).Some? {
        var j := LastNonNewline(s, r + 1, |s|).value;
        assert PreferredTokenParse(s, r, j - r, j + 1);
      }
    }
  }

  /** Every parse starts with a whitespace character and captures a non-newline one after it. */
  lemma TokenParseFacts(s: string, r: nat)
    ensures forall k: nat, e: nat :: TokenParse(s, r, k, e) ==>
      r + k < |s| && IsSpace(s[r]) && s[r + k] != '\n'
  {
  }

  /**
   * `\s+(?:o\s+)?(.+?)(?:\s+|$)` at `r`. At the longest `\s+` the optional
   * group is tried first; if the rest then fails, the group is skipped and the
   * capture is the token right after the whitespace (the literal `o` itself,
   * say). When only whitespace follows `r`, the group cannot match and the
   * result is that of `\s+(.+?)(?:\s+|$)`.
   */
  function OptionalTokenTail(s: string, r: nat, optional: Option<string>): (c: Option<string>)
    requires r <= |s|
    requires optional.Some? ==> optional.value != [] && !IsSpace(optional.value[0])
    ensures optional.None? ==> c == TokenTail(s, r)
    ensures c.Some? <==> TokenTail(s, r).Some?
    ensures c.Some? ==> c.value != []
    ensures c.Some? ==>
      (forall i :: 0 <= i < |c.value| ==> !IsSpace(c.value[i])) ||
      (|c.value| == 1 && IsSpace(c.value[0]))
  {
    var n := SpaceRun(s, r);
    if n == 0 then
      None
    else if r + n < |s| then
      var x := r + n;
      var afterOptional :=
        if optional.Some? && StartsAt(s, x, optional.value)
        then TokenTail(s, x + |optional.value|) else None;
      if afterOptional.Some? then afterOptional else Some(s[x..TokenEnd(s, x)])
    else
      TokenTail(s, r)
  }

  /**
   * One way for `\s+(?:o\s+)?(.+?)(?:\s+|$)` to match at `r`: `k` whitespace
   * characters, then either the group skipped (`g == 0`) and the token tail
   * right there, or the literal `o` and the token tail after it, whose own
   * `\s+` takes `g` characters. The capture ends at `e`.
   */
  ghost predicate OptTokenParse(s: string, r: nat, optional: Option<string>, k: nat, g: nat, e: nat) {
    if g == 0 then TokenParse(s, r, k, e)
    else
      && optional.Some?
      && 1 <= k && SpacesAt(s, r, k)
      && StartsAt(s, r + k, optional.value)
      && TokenParse(s, r + k + |optional.value|, g, e)
  }

  /** Where the capture of a parse with `k` and `g` begins. */
  function CaptureStart(r: nat, optional: Option<string>, k: nat, g: nat): nat {
    if g == 0 || optional.None? then r + k else r + k + |optional.value| + g
  }

  /** The parse Python picks: the longest first `\s+`, then the group taken with its longest `\s+`, then the shortest capture. */
  ghost predicate PreferredOptTokenParse(s: string, r: nat, optional: Option<string>, k: nat, g: nat, e: nat) {
    && OptTokenParse(s, r, optional, k, g, e)
    && (forall k': nat, g': nat, e': nat :: OptTokenParse(s, r, optional, k', g', e') ==> k' <= k)
    && (forall g': nat, e': nat :: OptTokenParse(s, r, optional, k, g', e') ==> g' <= g)
    && (forall e': nat :: OptTokenParse(s, r, optional, k, g, e') ==> e <= e')
  }

  /** `OptionalTokenTail` is the parse Python prefers, and it gives nothing exactly when no parse exists. */
  lemma OptionalTokenTailIsPreferredParse(s: string, r: nat, optional: Option<string>)
    requires r <= |s|
    requires optional.Some? ==> optional.value != [] && !IsSpace(optional.value[0])
    ensures OptionalTokenTail(s, r, optional).None? <==>
      forall k: nat, g: nat, e: nat :: !OptTokenParse(s, r, optional, k, g, e)
    ensures OptionalTokenTail(s, r, optional).Some? ==>
      exists k: nat, g: nat, e: nat :: PreferredOptTokenParse(s, r, optional, k, g, e) &&
        CaptureStart(r, optional, k, g) <= e <= |s| &&
        OptionalTokenTail(s, r, optional).value == s[CaptureStart(r, optional, k, g)..e]
  {
    var n := SpaceRun(s, r);
    var x := r + n;
    if n > 0 && x < |s| {
      var k: nat, g: nat, e: nat;
      if TokenAfterGroup(s, r, optional) {
        k, g, e := GroupTaken(s, r, optional);
      } else {
        k, g, e := GroupSkipped(s, r, optional);
      }
      assert OptTokenParse(s, r, optional, k, g, e);
    } else {
      var k, e := GroupImpossible(s, r, optional);
    }
  }

  /** Every parse starts with the run of whitespace at `r`; the group is only taken after the whole run. */
  lemma OptTokenParseFacts(s: string, r: nat, optional: Option<string>)
    requires r <= |s|
    requires optional.Some? ==> optional.value != [] && !IsSpace(optional.value[0])
    ensures forall k: nat, g: nat, e: nat :: OptTokenParse(s, r, optional, k, g, e) ==>
      1 <= k <= SpaceRun(s, r) && (g > 0 ==> k == SpaceRun(s, r) && r + k < |s|)
  {
    forall k: nat, g: nat, e: nat | OptTokenParse(s, r, optional, k, g, e) && g > 0
      ensures r + k < |s| && !IsSpace(s[r + k])
    {
      assert s[r + k] == s[r + k..r + k + |optional.value|][0];
    }
  }

  /** The whole run of whitespace at `r` is followed by `o` and a token tail after it. */
  ghost predicate TokenAfterGroup(s: string, r: nat, optional: Option<string>)
    requires r <= |s|
  {
    var x := r + SpaceRun(s, r);
    && optional.Some?
    && SpaceRun(s, r) > 0 && x < |s|
    && StartsAt(s, x, optional.value)
    && TokenTail(s, x + |optional.value|).Some?
  }

  /** When the group is followed by a token tail, `OptionalTokenTail` is that tail. */
  lemma TokenTailAfterGroup(s: string, r: nat, optional: Option<string>)
    requires r <= |s|
    requires optional.Some? && optional.value != [] && !IsSpace(optional.value[0])
    requires TokenAfterGroup(s, r, optional)
    ensures OptionalTokenTail(s, r, optional) == TokenTail(s, r + SpaceRun(s, r) + |optional.value|)
  {
  }

  /** The preferred parse behind a token tail, as a witness. */
  lemma PreferredToken(s: string, y: nat) returns (k: nat, e: nat)
    requires y <= |s| && TokenTail(s, y).Some?
    ensures PreferredTokenParse(s, y, k, e) && y + k <= e <= |s|
    ensures TokenTail(s, y) == Some(s[y + k..e])
  {
    TokenTailIsPreferredParse(s, y);
    k, e :| PreferredTokenParse(s, y, k, e) && TokenTail(s, y).value == s[y + k..e];
  }

  /** After the whole run of whitespace, `o` and a token tail after it: that tail's preferred parse wins. */
  lemma GroupTaken(s: string, r: nat, optional: Option<string>) returns (k: nat, g: nat, e: nat)
    requires r <= |s|
    requires optional.Some? && optional.value != [] && !IsSpace(optional.value[0])
    requires TokenAfterGroup(s, r, optional)
    ensures PreferredOptTokenParse(s, r, optional, k, g, e)
    ensures CaptureStart(r, optional, k, g) <= e <= |s|
    ensures OptionalTokenTail(s, r, optional) == Some(s[CaptureStart(r, optional, k, g)..e])
  {
    var n := SpaceRun(s, r);
    var y := r + n + |optional.value|;
    TokenTailAfterGroup(s, r, optional);
    var k2, e2 := PreferredToken(s, y);
    TakenTokenIsPreferred(s, r, optional, k2, e2);
    assert OptionalTokenTail(s, r, optional) == Some(s[y + k2..e2]);
    k, g, e := n, k2, e2;
    assert CaptureStart(r, optional, k, g) == y + k2;
  }

  /** The preferred parse of the token tail after the group is the preferred parse of the whole. */
  lemma TakenTokenIsPreferred(s: string, r: nat, optional: Option<string>, k2: nat, e2: nat)
    requires r <= |s|
    requires optional.Some? && optional.value != [] && !IsSpace(optional.value[0])
    requires TokenAfterGroup(s, r, optional)
    requires PreferredTokenParse(s, r + SpaceRun(s, r) + |optional.value|, k2, e2)
    ensures PreferredOptTokenParse(s, r, optional, SpaceRun(s, r), k2, e2)
  {
    var n := SpaceRun(s, r);
    var y := r + n + |optional.value|;
    OptTokenParseFacts(s, r, optional);
    assert OptTokenParse(s, r, optional, n, k2, e2);
    forall g': nat, e': nat | OptTokenParse(s, r, optional, n, g', e')
      ensures g' <= k2
    {
      if g' > 0 {
        assert TokenParse(s, y, g', e');
      }
    }
    forall e': nat | OptTokenParse(s, r, optional, n, k2, e')
      ensures e2 <= e'
    {
      assert TokenParse(s, y, k2, e');
    }
  }

  /** When the group cannot be followed by a token tail, the capture is the token right after the whitespace. */
  lemma GroupSkipped(s: string, r: nat, optional: Option<string>) returns (k: nat, g: nat, e: nat)
    requires r <= |s|
    requires optional.Some? ==> optional.value != [] && !IsSpace(optional.value[0])
    requires SpaceRun(s, r) > 0 && r + SpaceRun(s, r) < |s|
    requires !TokenAfterGroup(s, r, optional)
    ensures PreferredOptTokenParse(s, r, optional, k, g, e)
    ensures CaptureStart(r, optional, k, g) <= e <= |s|
    ensures OptionalTokenTail(s, r, optional) == Some(s[CaptureStart(r, optional, k, g)..e])
  {
    var n := SpaceRun(s, r);
    var x := r + n;
    OptTokenParseFacts(s, r, optional);
    if optional.Some? && StartsAt(s, x, optional.value) {
      TokenTailIsPreferredParse(s, x + |optional.value|);
    }
    assert IsSpace('\n');
    k, g, e := n, 0, TokenEnd(s, x);
    assert TokenParse(s, r, n, e);
    assert forall e': nat :: OptTokenParse(s, r, optional, n, 0, e') ==> e <= e';
  }

  /** With no non-space character right after the whitespace the group cannot match: only the token tail is left. */
  lemma GroupImpossible(s: string, r: nat, optional: Option<string>) returns (k: nat, e: nat)
    requires r <= |s|
    requires optional.Some? ==> optional.value != [] && !IsSpace(optional.value[0])
    requires SpaceRun(s, r) == 0 || r + SpaceRun(s, r) == |s|
    ensures OptionalTokenTail(s, r, optional) == TokenTail(s, r)
    ensures TokenTail(s, r).None? <==> forall k: nat, g: nat, e: nat :: !OptTokenParse(s, r, optional, k, g, e)
    ensures TokenTail(s, r).Some? ==>
      PreferredOptTokenParse(s, r, optional, k, 0, e) && r + k <= e <= |s| && TokenTail(s, r).value == s[r + k..e]
  {
    OptTokenParseFacts(s, r, optional);
    TokenTailIsPreferredParse(s, r);
    if TokenTail(s, r).Some? {
      k, e :| PreferredTokenParse(s, r, k, e) && TokenTail(s, r).value == s[r + k..e];
      assert OptTokenParse(s, r, optional, k, 0, e);
    } else {
      k, e := 0, 0;
    }
  }

  /** One way for `["'](.+?)["']` to match at `y`: an opening quote, the capture
      `s[y+1..e]` (at least one character, no newline) and a closing quote at `e`. */
  ghost predicate QuotedParse(s: string, y: nat, e: nat) {
    && y + 2 <= e < |s|
    && IsQuote(s[y])
    && IsQuote(s[e])
    && (forall i :: y < i < e ==> s[i] != '\n')
  }

  /** Scan for the first index from `i` on that holds a quote or a newline (or the end). */
  function QuoteScan(s: string, i: nat): (e: nat)
    requires i <= |s|
    decreases |s| - i
    ensures i <= e <= |s|
  {
    if i == |s| || IsQuote(s[i]) || s[i] == '\n' then i else QuoteScan(s, i + 1)
  }

  /** `QuoteScan` stops at the first quote or newline. */
  lemma {:induction false} QuoteScanIsFirst(s: string, i: nat)
    requires i <= |s|
    decreases |s| - i
    ensures forall k :: i <= k < QuoteScan(s, i) ==> !IsQuote(s[k]) && s[k] != '\n'
    ensures QuoteScan(s, i) == |s| || IsQuote(s[QuoteScan(s, i)]) || s[QuoteScan(s, i)] == '\n'
  {
    if !(i == |s| || IsQuote(s[i]) || s[i] == '\n') {
      QuoteScanIsFirst(s, i + 1);
    }
  }

  /** First index from `i` on that holds a quote or a newline (or the end). */
  function QuoteOrNewline(s: string, i: nat): (e: nat)
    requires i <= |s|
    ensures i <= e <= |s|
    ensures forall k :: i <= k < e ==> !IsQuote(s[k]) && s[k] != '\n'
    ensures e == |s| || IsQuote(s[e]) || s[e] == '\n'
  {
    QuoteScanIsFirst(s, i);
    QuoteScan(s, i)
  }

  /** `["'](.+?)["']` at `y`: the shortest quoted text, closed by either kind of quote.
      Its first character may itself be a quote, since `.+?` takes at least one. */
  function QuotedAt(s: string, y: nat): (c: Option<string>)
    requires y <= |s|
    ensures c.Some? ==> c.value != []
  {
    if y + 1 < |s| && IsQuote(s[y]) && s[y + 1] != '\n' then
      var e := QuoteOrNewline(s, y + 2);
      if e < |s| && IsQuote(s[e]) then Some(s[y + 1..e]) else None
    else
      None
  }

  /** `QuotedAt` takes the shortest quoted parse, and gives nothing exactly when none exists. */
  lemma QuotedAtIsShortestParse(s: string, y: nat)
    requires y <= |s|
    ensures QuotedAt(s, y).None? <==> forall e: nat :: !QuotedParse(s, y, e)
    ensures QuotedAt(s, y).Some? ==>
      var e := y + 1 + |QuotedAt(s, y).value|;
      QuotedParse(s, y, e) && QuotedAt(s, y).value == s[y + 1..e] &&
      forall e': nat :: QuotedParse(s, y, e') ==> e <= e'
  {
    if y + 1 < |s| && IsQuote(s[y]) && s[y + 1] != '\n' {
      var e := QuoteOrNewline(s, y + 2);
      if e < |s| && IsQuote(s[e]) {
        assert QuotedParse(s, y, e);
      }
    }
  }

  /**
   * `\s+(?:o\s+)?["'](.+?)["']` at `r`. The optional group is tried first; the
   * text right after the whitespace is tried when it fails. (Giving back
   * whitespace to a shorter `\s+` never helps: a quote or `o` must come next.)
   */
  function OptionalQuotedTail(s: string, r: nat, optional: Option<string>): (c: Option<string>)
    requires r <= |s|
    ensures c.Some? ==> SpaceRun(s, r) > 0
    ensures optional.None? ==> c == (if SpaceRun(s, r) == 0 then None else QuotedAt(s, r + SpaceRun(s, r)))
  {
    var n := SpaceRun(s, r);
    if n == 0 then
      None
    else
      var x := r + n;
      var afterOptional :=
        if optional.Some? && StartsAt(s, x, optional.value) && SpaceRun(s, x + |optional.value|) > 0
        then QuotedAt(s, x + |optional.value| + SpaceRun(s, x + |optional.value|))
        else None;
      if afterOptional.Some? then afterOptional else QuotedAt(s, x)
  }

  /**
   * One way for `\s+(?:o\s+)?["'](.+?)["']` to match at `r`: `k` whitespace
   * characters, then either the group skipped (`g == 0`) and the opening quote
   * right there, or the literal `o`, `g` more whitespace characters and the
   * opening quote after them. The closing quote is at `e`.
   */
  ghost predicate OptQuotedParse(s: string, r: nat, optional: Option<string>, k: nat, g: nat, e: nat) {
    && 1 <= k && SpacesAt(s, r, k)
    && if g == 0 then QuotedParse(s, r + k, e)
       else
         && optional.Some?
         && StartsAt(s, r + k, optional.value)
         && SpacesAt(s, r + k + |optional.value|, g)
         && QuotedParse(s, r + k + |optional.value| + g, e)
  }

  /** The parse Python picks: the longest first `\s+`, then the group taken with its longest `\s+`, then the shortest capture. */
  ghost predicate PreferredOptQuotedParse(s: string, r: nat, optional: Option<string>, k: nat, g: nat, e: nat) {
    && OptQuotedParse(s, r, optional, k, g, e)
    && (forall k': nat, g': nat, e': nat :: OptQuotedParse(s, r, optional, k', g', e') ==> k' <= k)
    && (forall g': nat, e': nat :: OptQuotedParse(s, r, optional, k, g', e') ==> g' <= g)
    && (forall e': nat :: OptQuotedParse(s, r, optional, k, g, e') ==> e <= e')
  }

  /** `OptionalQuotedTail` gives nothing exactly when `\s+(?:o\s+)?["'](.+?)["']` has no parse at `r`. */
  lemma OptionalQuotedTailFailsIffNoParse(s: string, r: nat, optional: Option<string>)
    requires r <= |s|
    requires optional.Some? ==> optional.value != [] && !IsSpace(optional.value[0])
    ensures OptionalQuotedTail(s, r, optional).None? <==>
      forall k: nat, g: nat, e: nat :: !OptQuotedParse(s, r, optional, k, g, e)
  {
    if OptionalQuotedTail(s, r, optional).Some? {
      var k, g, e := QuotedTailParse(s, r, optional);
    } else {
      QuotedTailMissing(s, r, optional);
    }
  }

  /**
   * A capture of `OptionalQuotedTail` comes from the parse Python prefers: the
   * opening quote right after the whitespace, or after `o` and whitespace when a
   * quoted text follows there, and the capture runs to the next quote.
   */
  lemma OptionalQuotedTailIsPreferredParse(s: string, r: nat, optional: Option<string>)
    requires r <= |s|
    requires optional.Some? ==> optional.value != [] && !IsSpace(optional.value[0])
    ensures OptionalQuotedTail(s, r, optional).Some? ==>
      exists k: nat, g: nat, e: nat {:trigger PreferredOptQuotedParse(s, r, optional, k, g, e)} ::
        PreferredOptQuotedParse(s, r, optional, k, g, e) &&
        CaptureStart(r, optional, k, g) < e < |s| &&
        OptionalQuotedTail(s, r, optional).value == s[CaptureStart(r, optional, k, g) + 1..e]
  {
    var k := SpaceRun(s, r);
    if OptionalQuotedTail(s, r, optional).Some? && QuotedAfterGroup(s, r, optional) {
      var g := SpaceRun(s, r + k + |optional.value|);
      var y := r + k + |optional.value| + g;
      QuotedTailAfterGroup(s, r, optional);
      var e := ShortestQuoted(s, y);
      TakenIsPreferred(s, r, optional, k, g, y, e);
      assert CaptureStart(r, optional, k, g) == y;
      assert OptionalQuotedTail(s, r, optional).value == s[y + 1..e];
    } else if OptionalQuotedTail(s, r, optional).Some? {
      QuotedTailWithoutGroup(s, r, optional);
      var e := ShortestQuoted(s, r + k);
      SkippedIsPreferred(s, r, optional, k, r + k, e);
      assert CaptureStart(r, optional, k, 0) == r + k;
      assert OptionalQuotedTail(s, r, optional).value == s[r + k + 1..e];
    }
  }

  /** A quoted capture has a parse behind it. */
  lemma QuotedTailParse(s: string, r: nat, optional: Option<string>) returns (k: nat, g: nat, e: nat)
    requires r <= |s|
    requires OptionalQuotedTail(s, r, optional).Some?
    ensures OptQuotedParse(s, r, optional, k, g, e)
  {
    k := SpaceRun(s, r);
    assert SpacesAt(s, r, k);
    if QuotedAfterGroup(s, r, optional) {
      var x := r + k + |optional.value|;
      g := SpaceRun(s, x);
      assert SpacesAt(s, x, g);
      e := ShortestQuoted(s, x + g);
      assert StartsAt(s, r + k, optional.value);
    } else {
      g := 0;
      QuotedTailWithoutGroup(s, r, optional);
      e := ShortestQuoted(s, r + k);
    }
  }

  /** No quoted capture means no parse at all. */
  lemma QuotedTailMissing(s: string, r: nat, optional: Option<string>)
    requires r <= |s|
    requires optional.Some? ==> optional.value != [] && !IsSpace(optional.value[0])
    requires OptionalQuotedTail(s, r, optional).None?
    ensures forall k: nat, g: nat, e: nat :: !OptQuotedParse(s, r, optional, k, g, e)
  {
    var x := r + SpaceRun(s, r);
    OptQuotedParseFacts(s, r, optional);
    forall k: nat, g: nat, e: nat | OptQuotedParse(s, r, optional, k, g, e)
      ensures false
    {
      if g > 0 {
        QuotedAtIsShortestParse(s, x + |optional.value| + g);
      } else {
        QuotedAtIsShortestParse(s, x);
      }
    }
  }

  /** Both the quote and `o` start with a non-space, so every parse takes both runs of whitespace whole. */
  lemma OptQuotedParseFacts(s: string, r: nat, optional: Option<string>)
    requires r <= |s|
    requires optional.Some? ==> optional.value != [] && !IsSpace(optional.value[0])
    ensures forall k: nat, g: nat, e: nat :: OptQuotedParse(s, r, optional, k, g, e) ==>
      k == SpaceRun(s, r) && r + k < |s| &&
      (g > 0 ==> optional.Some? && r + k + |optional.value| <= |s| &&
                 g == SpaceRun(s, r + k + |optional.value|))
  {
    forall k: nat, g: nat, e: nat | OptQuotedParse(s, r, optional, k, g, e)
      ensures r + k < |s| && !IsSpace(s[r + k])
    {
      if g > 0 {
        assert s[r + k] == s[r + k..r + k + |optional.value|][0];
      }
    }
  }

  /** The group can be taken: `o`, whitespace and a quoted text follow the first run of whitespace. */
  ghost predicate QuotedAfterGroup(s: string, r: nat, optional: Option<string>)
    requires r <= |s|
  {
    var x := r + SpaceRun(s, r);
    optional.Some? && StartsAt(s, x, optional.value) && SpaceRun(s, x + |optional.value|) > 0 &&
    QuotedAt(s, x + |optional.value| + SpaceRun(s, x + |optional.value|)).Some?
  }

  /** When the group fits, `OptionalQuotedTail` is the quoted text after it. */
  lemma QuotedTailAfterGroup(s: string, r: nat, optional: Option<string>)
    requires r <= |s| && SpaceRun(s, r) > 0 && QuotedAfterGroup(s, r, optional)
    ensures var x := r + SpaceRun(s, r);
      OptionalQuotedTail(s, r, optional) == QuotedAt(s, x + |optional.value| + SpaceRun(s, x + |optional.value|))
  {
  }

  /** Otherwise it is the quoted text right after the whitespace. */
  lemma QuotedTailWithoutGroup(s: string, r: nat, optional: Option<string>)
    requires r <= |s| && SpaceRun(s, r) > 0 && !QuotedAfterGroup(s, r, optional)
    ensures OptionalQuotedTail(s, r, optional) == QuotedAt(s, r + SpaceRun(s, r))
  {
  }

  /** The shortest quoted parse at `y`, which `QuotedAt` captures. */
  lemma ShortestQuoted(s: string, y: nat) returns (e: nat)
    requires y <= |s| && QuotedAt(s, y).Some?
    ensures QuotedParse(s, y, e) && QuotedAt(s, y) == Some(s[y + 1..e])
    ensures forall e': nat :: QuotedParse(s, y, e') ==> e <= e'
  {
    QuotedAtIsShortestParse(s, y);
    e := y + 1 + |QuotedAt(s, y).value|;
  }

  /** Taking both runs of whitespace whole and the shortest quoted text after the group is the preferred parse. */
  lemma TakenIsPreferred(s: string, r: nat, optional: Option<string>, k: nat, g: nat, y: nat, e: nat)
    requires r <= |s| && optional.Some? && optional.value != [] && !IsSpace(optional.value[0])
    requires k == SpaceRun(s, r) && 0 < k && StartsAt(s, r + k, optional.value)
    requires g == SpaceRun(s, r + k + |optional.value|) && 0 < g && y == r + k + |optional.value| + g
    requires QuotedParse(s, y, e) && forall e': nat :: QuotedParse(s, y, e') ==> e <= e'
    ensures OptQuotedParse(s, r, optional, k, g, e) && PreferredOptQuotedParse(s, r, optional, k, g, e)
  {
    OptQuotedParseFacts(s, r, optional);
    assert OptQuotedParse(s, r, optional, k, g, e);
  }

  /** When the group does not fit, the shortest quoted text right after the whitespace is the preferred parse. */
  lemma SkippedIsPreferred(s: string, r: nat, optional: Option<string>, k: nat, y: nat, e: nat)
    requires r <= |s| && (optional.Some? ==> optional.value != [] && !IsSpace(optional.value[0]))
    requires k == SpaceRun(s, r) && 0 < k && y == r + k && !QuotedAfterGroup(s, r, optional)
    requires QuotedParse(s, y, e) && forall e': nat :: QuotedParse(s, y, e') ==> e <= e'
    ensures OptQuotedParse(s, r, optional, k, 0, e) && PreferredOptQuotedParse(s, r, optional, k, 0, e)
  {
    OptQuotedParseFacts(s, r, optional);
    assert OptQuotedParse(s, r, optional, k, 0, e);
    forall g': nat, e': nat | OptQuotedParse(s, r, optional, k, g', e')
      ensures g' == 0
    {
      if g' > 0 {
        QuotedAtIsShortestParse(s, y + |optional.value| + g');
      }
    }
  }

  /** The nine patterns have non-empty words and optional literals that start with a letter. */
  ghost predicate WellFormed(pat: Pattern) {
    && pat.words != []
    && (forall i :: 0 <= i < |pat.words| ==> pat.words[i] != [] && !IsSpace(pat.words[i][0]))
    && (pat.optional.Some? ==> pat.optional.value != [] && !IsSpace(pat.optional.value[0]))
  }

  /** Group 1 of a match of `pat` that starts at `p`, before `.strip()`. */
  function MatchAt(s: string, p: nat, pat: Pattern): (c: Option<string>)
    requires p <= |s|
    requires WellFormed(pat)
    ensures c.Some? ==> StartsAt(s, p, pat.words[0])
  {
    match MatchWords(s, p, pat.words)
    case None => None
    case Some(r) =>
      if pat.capture == Token then OptionalTokenTail(s, r, pat.optional)
      else OptionalQuotedTail(s, r, pat.optional)
  }

  /** `re.search` from position `p`: the leftmost position where `pat` matches, with its group. */
  function SearchFrom(s: string, pat: Pattern, p: nat): (r: Option<(nat, string)>)
    requires p <= |s|
    requires WellFormed(pat)
    decreases |s| - p
  {
    match MatchAt(s, p, pat)
    case Some(c) => Some((p, c))
    case None => if p == |s| then None else SearchFrom(s, pat, p + 1)
  }

  /** No position in `[lo, hi)` matches. */
  ghost predicate NoMatchIn(s: string, pat: Pattern, lo: nat, hi: nat)
    requires WellFormed(pat) && hi <= |s| + 1
  {
    forall q: nat :: lo <= q < hi ==> MatchAt(s, q, pat).None?
  }

  lemma NoMatchStep(s: string, pat: Pattern, p: nat, hi: nat)
    requires WellFormed(pat) && p < hi <= |s| + 1
    requires MatchAt(s, p, pat).None? && NoMatchIn(s, pat, p + 1, hi)
    ensures NoMatchIn(s, pat, p, hi)
  {
  }

  /** When `SearchFrom` finds nothing, no position from `p` on matches. */
  lemma {:induction false} SearchFromFindsNone(s: string, pat: Pattern, p: nat)
    requires p <= |s| && WellFormed(pat)
    decreases |s| - p
    ensures SearchFrom(s, pat, p).None? ==> NoMatchIn(s, pat, p, |s| + 1)
  {
    if SearchFrom(s, pat, p).None? && p < |s| {
      assert MatchAt(s, p, pat).None?;
      SearchFromFindsNone(s, pat, p + 1);
      NoMatchStep(s, pat, p, |s| + 1);
    }
  }

  /** When `SearchFrom` finds a match, it is one, and no position between `p` and it matches. */
  lemma {:induction false} SearchFromFindsFirst(s: string, pat: Pattern, p: nat)
    requires p <= |s| && WellFormed(pat)
    decreases |s| - p
    ensures var r := SearchFrom(s, pat, p);
      r.Some? ==>
        p <= r.value.0 <= |s| && MatchAt(s, r.value.0, pat) == Some(r.value.1) && NoMatchIn(s, pat, p, r.value.0)
  {
    if MatchAt(s, p, pat).None? && p < |s| {
      SearchFromFindsFirst(s, pat, p + 1);
      var r := SearchFrom(s, pat, p + 1);
      if r.Some? {
        NoMatchStep(s, pat, p, r.value.0);
      }
    }
  }

  /** `re.search(pattern, s)` followed by `match.group(1).strip()`. */
  function Search(s: string, pat: Pattern): Option<string>
    requires WellFormed(pat)
  {
    match SearchFrom(s, pat, 0)
    case Some((_, c)) => Some(Strip(c))
    case None => None
  }

  /** `Search` finds nothing exactly when no position matches, and otherwise takes the leftmost match. */
  lemma SearchLeftmost(s: string, pat: Pattern)
    requires WellFormed(pat)
    ensures Search(s, pat).None? <==> forall q: nat :: q <= |s| ==> MatchAt(s, q, pat).None?
    ensures Search(s, pat).Some? ==> exists q: nat ::
      (q <= |s| && MatchAt(s, q, pat).Some? &&
       Search(s, pat).value == Strip(MatchAt(s, q, pat).value) &&
       forall q': nat :: q' < q ==> MatchAt(s, q', pat).None?)
  {
    SearchFromFindsNone(s, pat, 0);
    SearchFromFindsFirst(s, pat, 0);
    var r := SearchFrom(s, pat, 0);
    if r.Some? {
      assert MatchAt(s, r.value.0, pat).Some?;
    }
  }

  // ---------------------------------------------------------------------------
  // Building the operations
  // ---------------------------------------------------------------------------

  datatype Category = CloneCategory | CheckoutCategory | CommitCategory

  function Tag(cat: Category): string {
    match cat
    case CloneCategory => "clone"
    case CheckoutCategory => "checkout"
    case CommitCategory => "commit"
  }

  /** `'create' in message_lower or 'new' in message_lower` */
  predicate CreateRequested(m: string) {
    Contains(m, "create") || Contains(m, "new")
  }

  /** The operation one matching pattern of a category contributes; `m` is the lower-cased message. */
  function OperationFor(cat: Category, value: string, m: string): (op: GitOperationRequest)
    ensures op.operation == Tag(cat)
  {
    match cat
    case CloneCategory => GitOperationRequest("clone", repoUrl := Some(value), branch := Some("main"))
    case CheckoutCategory => GitOperationRequest("checkout", branch := Some(value), create := CreateRequested(m))
    case CommitCategory => GitOperationRequest("commit", message := Some(value))
  }

  ghost predicate AllWellFormed(pats: seq<Pattern>) {
    forall i :: 0 <= i < |pats| ==> WellFormed(pats[i])
  }

  /** One operation per pattern of `pats` that matches `m`, in the order of `pats`. */
  function MatchedOperations(m: string, pats: seq<Pattern>, cat: Category): (ops: seq<GitOperationRequest>)
    requires AllWellFormed(pats)
  {
    if pats == [] then []
    else
      var init := pats[..|pats| - 1];
      var rest := MatchedOperations(m, init, cat);
      match Search(m, pats[|pats| - 1])
      case Some(v) => rest + [OperationFor(cat, v, m)]
      case None => rest
  }

  predicate PushRequested(m: string) {
    Contains(m, "push") || Contains(m, "upload") || Contains(m, "sync changes")
  }

  predicate StatusRequested(m: string) {
    Contains(m, "status") || Contains(m, "what changed") || Contains(m, "changes")
  }

  function CloneOperations(m: string): seq<GitOperationRequest> {
    ClonePatternsWellFormed();
    MatchedOperations(m, ClonePatterns, CloneCategory)
  }

  function CheckoutOperations(m: string): seq<GitOperationRequest> {
    CheckoutPatternsWellFormed();
    MatchedOperations(m, CheckoutPatterns, CheckoutCategory)
  }

  function CommitOperations(m: string): seq<GitOperationRequest> {
    CommitPatternsWellFormed();
    MatchedOperations(m, CommitPatterns, CommitCategory)
  }

  function PushOperations(m: string): seq<GitOperationRequest> {
    if PushRequested(m) then [GitOperationRequest("push")] else []
  }

  function StatusOperations(m: string): seq<GitOperationRequest> {
    if StatusRequested(m) then [GitOperationRequest("status")] else []
  }

  /** What `detect_git_operations(message)` returns. */
  function Detect(message: string): seq<GitOperationRequest> {
    var m := Lower(message);
    CloneOperations(m) + CheckoutOperations(m) + CommitOperations(m) + PushOperations(m) + StatusOperations(m)
  }

  /**
   * One per-category loop of `detect_git_operations`: every pattern is
   * searched in turn and each one that matches appends its operation (there is
   * no `break`, so several patterns of one category can all contribute).
   */
  method AppendMatches(operations: seq<GitOperationRequest>, m: string, patterns: seq<Pattern>, cat: Category)
    returns (result: seq<GitOperationRequest>)
    requires AllWellFormed(patterns)
    ensures result == operations + MatchedOperations(m, patterns, cat)
  {
    result := operations;
    for i := 0 to |patterns|
      invariant result == operations + MatchedOperations(m, patterns[..i], cat)
    {
      ghost var before := result;
      var found := Search(m, patterns[i]);
      if found.Some? {
        result := result + [OperationFor(cat, found.value, m)];
      }
      AppendStep(operations, m, patterns, cat, i, before, result);
    }
    assert patterns[..|patterns|] == patterns;
  }

  /** One turn of the loop in `AppendMatches`: the pattern at `i` adds what it contributes. */
  lemma AppendStep(operations: seq<GitOperationRequest>, m: string, patterns: seq<Pattern>, cat: Category,
                   i: nat, before: seq<GitOperationRequest>, after: seq<GitOperationRequest>)
    requires AllWellFormed(patterns) && i < |patterns|
    requires before == operations + MatchedOperations(m, patterns[..i], cat)
    requires after == before + Contributed(m, patterns[i], cat)
    ensures after == operations + MatchedOperations(m, patterns[..i + 1], cat)
  {
    var prefix := patterns[..i + 1];
    assert prefix[..i] == patterns[..i] && prefix[i] == patterns[i];
    MatchedSnoc(m, prefix, cat);
  }

  /**
   * `detect_git_operations`: the clone, checkout and commit loops, then the
   * push and status keyword tests, all on the lower-cased message.
   */
  method DetectGitOperations(message: string) returns (operations: seq<GitOperationRequest>)
    ensures operations == Detect(message)
    ensures CategoryOrdered(operations)
    ensures forall i :: 0 <= i < |operations| ==> operations[i].operation in KnownOperations
  {
    PatternsWellFormed();
    var m := Lower(message);
    operations := AppendMatches([], m, ClonePatterns, CloneCategory);
    assert operations == CloneOperations(m);
    ghost var clones := operations;
    operations := AppendMatches(operations, m, CheckoutPatterns, CheckoutCategory);
    assert operations == clones + CheckoutOperations(m);
    ghost var checkouts := operations;
    operations := AppendMatches(operations, m, CommitPatterns, CommitCategory);
    assert operations == checkouts + CommitOperations(m);
    ghost var patterned := operations;
    if Contains(m, "push") || Contains(m, "upload") || Contains(m, "sync changes") {
      operations := operations + [GitOperationRequest("push")];
    }
    assert operations == patterned + PushOperations(m);
    if Contains(m, "status") || Contains(m, "what changed") || Contains(m, "changes") {
      operations := operations + [GitOperationRequest("status")];
    }
    assert operations == patterned + PushOperations(m) + StatusOperations(m);
    DetectIsCategoryOrdered(message);
  }

  // ---------------------------------------------------------------------------
  // Properties of the extractor
  // ---------------------------------------------------------------------------

  lemma PatternsWellFormed()
    ensures AllWellFormed(ClonePatterns)
    ensures AllWellFormed(CheckoutPatterns)
    ensures AllWellFormed(CommitPatterns)
  {
    ClonePatternsWellFormed();
    CheckoutPatternsWellFormed();
    CommitPatternsWellFormed();
  }

  lemma ClonePatternsWellFormed()
    ensures AllWellFormed(ClonePatterns)
  {
    assert WellFormed(ClonePatterns[0]);
    assert WellFormed(ClonePatterns[1]);
    assert WellFormed(ClonePatterns[2]);
  }

  lemma CheckoutPatternsWellFormed()
    ensures AllWellFormed(CheckoutPatterns)
  {
    assert WellFormed(CheckoutPatterns[0]);
    assert WellFormed(CheckoutPatterns[1]);
    assert WellFormed(CheckoutPatterns[2]);
  }

  lemma CommitPatternsWellFormed()
    ensures AllWellFormed(CommitPatterns)
  {
    assert WellFormed(CommitPatterns[0]);
    assert WellFormed(CommitPatterns[1]);
    assert WellFormed(CommitPatterns[2]);
  }

  const KnownOperations: set<string> := {"clone", "checkout", "status", "commit", "push"}

  /** Position of a tag in the category order clone, checkout, commit, push, status. */
  function Rank(operation: string): nat {
    if operation == "clone" then 0
    else if operation == "checkout" then 1
    else if operation == "commit" then 2
    else if operation == "push" then 3
    else 4
  }

  ghost predicate CategoryOrdered(ops: seq<GitOperationRequest>) {
    forall i, j :: 0 <= i < j < |ops| ==> Rank(ops[i].operation) <= Rank(ops[j].operation)
  }

  ghost predicate AllTagged(ops: seq<GitOperationRequest>, tag: string) {
    forall i :: 0 <= i < |ops| ==> ops[i].operation == tag
  }

  /** `op` is what some pattern of `pats` that matches `m` contributes. */
  ghost predicate Produced(m: string, pats: seq<Pattern>, cat: Category, op: GitOperationRequest)
    requires AllWellFormed(pats)
  {
    exists j :: 0 <= j < |pats| && Search(m, pats[j]).Some? && op == OperationFor(cat, Search(m, pats[j]).value, m)
  }

  /** Each operation of a category comes from one matching pattern of it, so there are at most as
      many operations as patterns. */
  lemma {:induction false} MatchedOperationsShape(m: string, pats: seq<Pattern>, cat: Category)
    requires AllWellFormed(pats)
    ensures |MatchedOperations(m, pats, cat)| <= |pats|
    ensures forall i :: 0 <= i < |MatchedOperations(m, pats, cat)| ==> Produced(m, pats, cat, MatchedOperations(m, pats, cat)[i])
  {
    if pats != [] {
      var init := pats[..|pats| - 1];
      var last := pats[|pats| - 1];
      MatchedOperationsShape(m, init, cat);
      MatchedSnoc(m, pats, cat);
      var ops := MatchedOperations(m, pats, cat);
      var rest := MatchedOperations(m, init, cat);
      assert ops == rest + Contributed(m, last, cat);
      forall i | 0 <= i < |ops| ensures Produced(m, pats, cat, ops[i]) {
        if i < |rest| {
          assert Produced(m, init, cat, rest[i]);
          var j :| 0 <= j < |init| && Search(m, init[j]).Some? &&
            rest[i] == OperationFor(cat, Search(m, init[j]).value, m);
          assert init[j] == pats[j];
        } else {
          assert ops[i] == OperationFor(cat, Search(m, last).value, m);
        }
      }
    }
  }

  lemma {:induction false} MatchedOperationsTagged(m: string, pats: seq<Pattern>, cat: Category)
    requires AllWellFormed(pats)
    ensures AllTagged(MatchedOperations(m, pats, cat), Tag(cat))
  {
    MatchedOperationsShape(m, pats, cat);
  }

  ghost predicate RanksAtMost(ops: seq<GitOperationRequest>, bound: nat) {
    forall i :: 0 <= i < |ops| ==> Rank(ops[i].operation) <= bound && ops[i].operation in KnownOperations
  }

  /** Appending a block of one known tag, ranked no lower than what precedes it, keeps the order. */
  lemma {:induction false} AppendCategory(ops: seq<GitOperationRequest>, block: seq<GitOperationRequest>, tag: string)
    requires tag in KnownOperations
    requires CategoryOrdered(ops) && RanksAtMost(ops, Rank(tag)) && AllTagged(block, tag)
    ensures CategoryOrdered(ops + block) && RanksAtMost(ops + block, Rank(tag))
  {
    var all := ops + block;
    forall i | 0 <= i < |all|
      ensures all[i] == (if i < |ops| then ops[i] else block[i - |ops|])
    {
    }
  }

  /**
   * Operations come out grouped by category, in the order clone, checkout,
   * commit, push, status, whatever their order in the message; every tag is
   * one the executor knows.
   */
  lemma {:induction false} DetectIsCategoryOrdered(message: string)
    ensures CategoryOrdered(Detect(message))
    ensures forall i :: 0 <= i < |Detect(message)| ==> Detect(message)[i].operation in KnownOperations
  {
    PatternsWellFormed();
    var m := Lower(message);
    MatchedOperationsTagged(m, ClonePatterns, CloneCategory);
    MatchedOperationsTagged(m, CheckoutPatterns, CheckoutCategory);
    MatchedOperationsTagged(m, CommitPatterns, CommitCategory);
    BlocksOrdered(CloneOperations(m), CheckoutOperations(m), CommitOperations(m),
      PushOperations(m), StatusOperations(m));
  }

  lemma {:induction false} BlocksOrdered(a: seq<GitOperationRequest>, b: seq<GitOperationRequest>,
    c: seq<GitOperationRequest>, d: seq<GitOperationRequest>, e: seq<GitOperationRequest>)
    requires AllTagged(a, "clone") && AllTagged(b, "checkout") && AllTagged(c, "commit")
    requires AllTagged(d, "push") && AllTagged(e, "status")
    ensures CategoryOrdered(a + b + c + d + e) && RanksAtMost(a + b + c + d + e, 4)
  {
    AppendCategory([], a, "clone");
    assert [] + a == a;
    AppendCategory(a, b, "checkout");
    AppendCategory(a + b, c, "commit");
    AppendCategory(a + b + c, d, "push");
    AppendCategory(a + b + c + d, e, "status");
  }

  /** At most three operations per pattern category, at most one push and at most one status. */
  lemma DetectCounts(message: string)
    ensures var m := Lower(message);
      |CloneOperations(m)| <= 3 && |CheckoutOperations(m)| <= 3 && |CommitOperations(m)| <= 3 &&
      |PushOperations(m)| <= 1 && |StatusOperations(m)| <= 1
    ensures |Detect(message)| <= 11
  {
    PatternsWellFormed();
    var m := Lower(message);
    MatchedOperationsShape(m, ClonePatterns, CloneCategory);
    MatchedOperationsShape(m, CheckoutPatterns, CheckoutCategory);
    MatchedOperationsShape(m, CommitPatterns, CommitCategory);
  }

  /** Every checkout produced from one message carries the same `create` flag:
      whether "create" or "new" occurs anywhere in the lower-cased message. */
  lemma {:induction false} CheckoutCreateFlag(message: string)
    ensures var m := Lower(message);
      forall i :: 0 <= i < |CheckoutOperations(m)| ==>
        CheckoutOperations(m)[i].operation == "checkout" &&
        CheckoutOperations(m)[i].create == (Contains(m, "create") || Contains(m, "new"))
  {
    PatternsWellFormed();
    CategoryFields(Lower(message), CheckoutPatterns, CheckoutCategory);
  }

  /** Clones always ask for branch "main"; commits carry only a message. */
  lemma {:induction false} CloneAndCommitFields(message: string)
    ensures var m := Lower(message);
      forall i :: 0 <= i < |CloneOperations(m)| ==>
        CloneOperations(m)[i].branch == Some("main") && CloneOperations(m)[i].repoUrl.Some?
    ensures var m := Lower(message);
      forall i :: 0 <= i < |CommitOperations(m)| ==>
        CommitOperations(m)[i].message.Some? && CommitOperations(m)[i].files.None?
  {
    PatternsWellFormed();
    CategoryFields(Lower(message), ClonePatterns, CloneCategory);
    CategoryFields(Lower(message), CommitPatterns, CommitCategory);
  }

  /** The fields every operation of one category carries. */
  ghost predicate FieldsOf(op: GitOperationRequest, cat: Category, m: string) {
    match cat
    case CloneCategory => op.operation == "clone" && op.repoUrl.Some? && op.branch == Some("main")
    case CheckoutCategory => op.operation == "checkout" && op.branch.Some? && op.create == CreateRequested(m)
    case CommitCategory => op.operation == "commit" && op.message.Some? && op.files.None?
  }

  lemma {:induction false} CategoryFields(m: string, pats: seq<Pattern>, cat: Category)
    requires AllWellFormed(pats)
    ensures forall i :: 0 <= i < |MatchedOperations(m, pats, cat)| ==> FieldsOf(MatchedOperations(m, pats, cat)[i], cat, m)
  {
    MatchedOperationsShape(m, pats, cat);
  }

  /** The operations one pattern contributes: one if it matches, none otherwise. */
  function Contributed(m: string, pat: Pattern, cat: Category): (ops: seq<GitOperationRequest>)
    requires WellFormed(pat)
    ensures |ops| <= 1
    ensures ops != [] <==> Search(m, pat).Some?
  {
    match Search(m, pat)
    case Some(v) => [OperationFor(cat, v, m)]
    case None => []
  }

  lemma MatchedSnoc(m: string, pats: seq<Pattern>, cat: Category)
    requires pats != [] && AllWellFormed(pats)
    ensures MatchedOperations(m, pats, cat) ==
      MatchedOperations(m, pats[..|pats| - 1], cat) + Contributed(m, pats[|pats| - 1], cat)
  {
  }

  lemma OnePattern(m: string, pats: seq<Pattern>, cat: Category)
    requires |pats| == 1 && AllWellFormed(pats)
    ensures MatchedOperations(m, pats, cat) == Contributed(m, pats[0], cat)
  {
    assert pats[..0] == [];
    MatchedSnoc(m, pats, cat);
  }

  lemma TwoPatterns(m: string, pats: seq<Pattern>, cat: Category)
    requires |pats| == 2 && AllWellFormed(pats)
    ensures MatchedOperations(m, pats, cat) == Contributed(m, pats[0], cat) + Contributed(m, pats[1], cat)
  {
    var one := pats[..1];
    assert one[0] == pats[0];
    OnePattern(m, one, cat);
    MatchedSnoc(m, pats, cat);
  }

  /** A category of three patterns contributes, in pattern order, what each pattern contributes. */
  lemma ThreePatterns(m: string, pats: seq<Pattern>, cat: Category)
    requires |pats| == 3 && AllWellFormed(pats)
    ensures MatchedOperations(m, pats, cat) ==
      Contributed(m, pats[0], cat) + Contributed(m, pats[1], cat) + Contributed(m, pats[2], cat)
  {
    var two := pats[..2];
    assert two[0] == pats[0] && two[1] == pats[1];
    TwoPatterns(m, two, cat);
    MatchedSnoc(m, pats, cat);
  }

  predicate NoSpace(v: string) {
    forall i :: 0 <= i < |v| ==> !IsSpace(v[i])
  }

  /** Before `.strip()`, a token capture is a whitespace-free token or one whitespace character. */
  lemma MatchAtTokenShape(s: string, p: nat, pat: Pattern)
    requires p <= |s| && WellFormed(pat) && pat.capture == Token
    ensures MatchAt(s, p, pat).Some? ==>
      NoSpace(MatchAt(s, p, pat).value) ||
      (|MatchAt(s, p, pat).value| == 1 && IsSpace(MatchAt(s, p, pat).value[0]))
  {
  }

  /**
   * A clone URL or a branch name is a single token: after `.strip()` it holds
   * no whitespace (the one-character capture Python makes of trailing
   * whitespace strips to the empty string).
   */
  lemma TokenCaptureHasNoSpace(m: string, pat: Pattern)
    requires WellFormed(pat) && pat.capture == Token
    ensures Search(m, pat).Some? ==> NoSpace(Search(m, pat).value)
  {
    SearchLeftmost(m, pat);
    if Search(m, pat).Some? {
      var q: nat :| q <= |m| && MatchAt(m, q, pat).Some? &&
        Search(m, pat).value == Strip(MatchAt(m, q, pat).value);
      MatchAtTokenShape(m, q, pat);
      var c := MatchAt(m, q, pat).value;
      if NoSpace(c) {
        StripNoSpace(c);
      } else {
        StripAllSpace(c);
      }
    }
  }

  /** The value an operation of a pattern category carries. */
  function Captured(op: GitOperationRequest, cat: Category): string {
    match cat
    case CloneCategory => op.repoUrl.GetOr("")
    case CheckoutCategory => op.branch.GetOr("")
    case CommitCategory => op.message.GetOr("")
  }

  lemma {:induction false} MatchedTokens(m: string, pats: seq<Pattern>, cat: Category)
    requires AllWellFormed(pats)
    requires forall j :: 0 <= j < |pats| ==> pats[j].capture == Token
    ensures forall i :: 0 <= i < |MatchedOperations(m, pats, cat)| ==>
      NoSpace(Captured(MatchedOperations(m, pats, cat)[i], cat))
  {
    forall j | 0 <= j < |pats|
      ensures Search(m, pats[j]).Some? ==> NoSpace(Search(m, pats[j]).value)
    {
      TokenCaptureHasNoSpace(m, pats[j]);
    }
    MatchedOperationsShape(m, pats, cat);
  }

  /** Every clone URL and every branch name is a whitespace-free token. */
  lemma {:induction false} ClonesAndCheckoutsAreTokens(message: string)
    ensures var m := Lower(message);
      forall i :: 0 <= i < |CloneOperations(m)| ==> NoSpace(CloneOperations(m)[i].repoUrl.GetOr(""))
    ensures var m := Lower(message);
      forall i :: 0 <= i < |CheckoutOperations(m)| ==> NoSpace(CheckoutOperations(m)[i].branch.GetOr(""))
  {
    PatternsWellFormed();
    MatchedTokens(Lower(message), ClonePatterns, CloneCategory);
    MatchedTokens(Lower(message), CheckoutPatterns, CheckoutCategory);
  }

  /** "sync changes" both asks for a push and, containing "changes", for a status. */
  lemma SyncChangesPushesAndReportsStatus(message: string)
    requires Contains(Lower(message), "sync changes")
    ensures PushOperations(Lower(message)) == [GitOperationRequest("push")]
    ensures StatusOperations(Lower(message)) == [GitOperationRequest("status")]
  {
    ContainsInner(Lower(message), "sync changes", 5, "changes");
  }

  /** A pattern only matches a message that contains its first word. */
  lemma SearchNeedsFirstWord(m: string, pat: Pattern)
    requires WellFormed(pat)
    ensures Search(m, pat).Some? ==> Contains(m, pat.words[0])
  {
    SearchLeftmost(m, pat);
    if Search(m, pat).Some? {
      var q: nat :| q <= |m| && MatchAt(m, q, pat).Some?;
      assert StartsAt(m, q, pat.words[0]);
    }
  }

  /** A message the "save changes" commit pattern matches also asks for a status. */
  lemma SaveChangesReportsStatus(m: string)
    ensures WellFormed(CommitPatterns[2])
    ensures Search(m, CommitPatterns[2]).Some? ==> StatusOperations(m) == [GitOperationRequest("status")]
  {
    CommitPatternsWellFormed();
    SearchNeedsFirstWord(m, CommitPatterns[2]);
    if Contains(m, "save changes") {
      ContainsInner(m, "save changes", 5, "changes");
    }
  }
}
