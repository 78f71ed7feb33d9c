/**
 * The commit-message cleaner of lib/lint.js: `msg.replace(/^[A-Z]*\-[0-9]*.-./, "")`.
 *
 * Only this one fixed pattern is modelled, by a dedicated matcher that follows
 * the backtracking order of a JavaScript regular expression: the greedy
 * `[A-Z]*` is tried from its longest run down, and for each of those the greedy
 * `[0-9]*` from its longest run down; the first alternative for which the rest
 * matches is taken.  Without the `g` flag at most one match is replaced, and
 * without the `m` flag `^` only matches at index 0.
 */
module TicketPrefix {
  import opened Wrappers
  import opened Digits

  /** The characters `.` does not match in a JavaScript regex without the `s` flag. */
  predicate IsLineTerminator(c: char) {
    c == '\n' || c == '\r' || c == '\U{2028}' || c == '\U{2029}'
  }

  /** The class `[A-Z]`. */
  predicate IsUpper(c: char) {
    'A' <= c <= 'Z'
  }

  /** The tail `.-.` of the pattern matches the three characters at `p`. */
  predicate TailAt(s: string, p: nat) {
    p + 3 <= |s| && !IsLineTerminator(s[p]) && s[p + 1] == '-' && !IsLineTerminator(s[p + 2])
  }

  /**
   * The whole pattern matches at index 0 with `[A-Z]*` taking `u` characters
   * and `[0-9]*` taking `k`: the match is then `s[..u + k + 4]`.
   */
  predicate Shape(s: string, u: nat, k: nat) {
    TailAt(s, u + 1 + k)
    && (forall i :: 0 <= i < u ==> IsUpper(s[i]))
    && s[u] == '-'
    && (forall i :: u + 1 <= i < u + 1 + k ==> IsDigit(s[i]))
  }

  /** `(u, k)` comes before `(u', k')` in the backtracking order of the regex. */
  predicate TriedBefore(u: nat, k: nat, u': nat, k': nat) {
    u > u' || (u == u' && k > k')
  }

  /** The length of the longest run of upper-case letters at the start of `s`. */
  function UpperRun(s: string): (n: nat)
    ensures n <= |s|
    ensures forall i :: 0 <= i < n ==> IsUpper(s[i])
    ensures n == |s| || !IsUpper(s[n])
  {
    if |s| > 0 && IsUpper(s[0]) then 1 + UpperRun(s[1..]) else 0
  }

  /**
   * Backtracking over the digit run: the tail is tried right after `k` digits,
   * then after `k - 1`, ..., then after none.  The result is the first digit
   * count for which the tail matches.
   */
  function BacktrackDigits(s: string, start: nat, k: nat): (r: Option<nat>)
    ensures r.Some? ==> r.value <= k && TailAt(s, start + r.value)
    ensures r.Some? ==> forall p :: start + r.value < p <= start + k ==> !TailAt(s, p)
    ensures r.None? ==> forall p :: start <= p <= start + k ==> !TailAt(s, p)
  {
    if TailAt(s, start + k) then Some(k)
    else if k == 0 then None
    else BacktrackDigits(s, start, k - 1)
  }

  /** The match of the pattern at index 0, as the lengths taken by `[A-Z]*` and `[0-9]*`. */
  datatype Prefix = Prefix(upper: nat, digits: nat) {
    /** The number of characters the match covers. */
    function Length(): nat { upper + digits + 4 }
  }

  /** The regex engine's match of the pattern against `s`, if any. */
  function FindPrefix(s: string): (r: Option<Prefix>)
    ensures r.Some? ==> Shape(s, r.value.upper, r.value.digits)
  {
    var u := UpperRun(s);
    if u < |s| && s[u] == '-' then
      match BacktrackDigits(s, u + 1, DigitRun(s, u + 1))
      case Some(k) => Some(Prefix(u, k))
      case None => None
    else
      None
  }

  /** `cleanMessage` (lib/lint.js:43-45): the message with its ticket prefix, if any, removed. */
  function CleanMessage(msg: string): (r: string)
    ensures |r| <= |msg| && r == msg[|msg| - |r|..]
    ensures r == msg <==> FindPrefix(msg).None?
    ensures r != msg ==> |msg| - |r| >= 4
  {
    match FindPrefix(msg)
    case Some(m) => msg[m.Length()..]
    case None => msg
  }

  /** Any match of the pattern has `[A-Z]*` take the whole leading run of capitals. */
  lemma ShapeUsesWholeUpperRun(s: string, u: nat, k: nat)
    requires Shape(s, u, k)
    ensures u == UpperRun(s)
    ensures k <= DigitRun(s, u + 1)
  {
    UpperRunIs(s, u);
    DigitRunCovers(s, u + 1, k);
  }

  /** The run length is pinned down by its two defining facts. */
  lemma UpperRunIs(s: string, n: nat)
    requires n < |s| && !IsUpper(s[n])
    requires forall i :: 0 <= i < n ==> IsUpper(s[i])
    ensures UpperRun(s) == n
  {
  }

  /**
   * FindPrefix is the regex's match: it reports a match exactly when one
   * exists, and the one it reports is the first alternative the backtracking
   * order tries.
   */
  lemma FindPrefixIsFirstMatch(s: string)
    ensures FindPrefix(s).None? <==> forall u: nat, k: nat :: !Shape(s, u, k)
    ensures FindPrefix(s).Some? ==>
      var m := FindPrefix(s).value;
      forall u: nat, k: nat :: Shape(s, u, k) && (u, k) != (m.upper, m.digits) ==>
        TriedBefore(m.upper, m.digits, u, k)
  {
    forall u: nat, k: nat | Shape(s, u, k)
      ensures FindPrefix(s).Some?
      ensures FindPrefix(s).Some? ==> FindPrefix(s).value.upper == u && k <= FindPrefix(s).value.digits
    {
      ShapeUsesWholeUpperRun(s, u, k);
      var d := DigitRun(s, u + 1);
      assert TailAt(s, u + 1 + k);
      var r := BacktrackDigits(s, u + 1, d);
      assert r.Some?;
    }
  }

  /** The result of CleanMessage in terms of the pattern alone. */
  lemma CleanMessageMeaning(msg: string)
    ensures (forall u: nat, k: nat :: !Shape(msg, u, k)) ==> CleanMessage(msg) == msg
    ensures CleanMessage(msg) != msg ==>
      exists u: nat, k: nat :: Shape(msg, u, k) && CleanMessage(msg) == msg[u + k + 4..]
  {
    FindPrefixIsFirstMatch(msg);
    if CleanMessage(msg) != msg {
      var m := FindPrefix(msg).value;
      assert Shape(msg, m.upper, m.digits) && CleanMessage(msg) == msg[m.upper + m.digits + 4..];
    }
  }

  /** A message that does not start with a ticket prefix is a fixed point. */
  lemma CleanMessageIdempotentWithoutPrefix(msg: string)
    requires forall u: nat, k: nat :: !Shape(msg, u, k)
    ensures CleanMessage(CleanMessage(msg)) == CleanMessage(msg)
  {
    FindPrefixIsFirstMatch(msg);
  }

  /** The pattern ends in `.-.`, so a colon separator is not stripped. */
  lemma ColonSeparatorIsKept()
    ensures CleanMessage("JIRA-42: fix bug") == "JIRA-42: fix bug"
  {
    var s := "JIRA-42: fix bug";
    assert UpperRun(s) == 4 && DigitRun(s, 5) == 2 && BacktrackDigits(s, 5, 2) == None;
    assert FindPrefix(s) == None;
  }

  /** A spaced hyphen after the number is removed together with the space after it. */
  lemma SpacedHyphenIsStripped()
    ensures CleanMessage("ABC-123 - fix") == "fix"
  {
    var s := "ABC-123 - fix";
    assert UpperRun(s) == 3 && DigitRun(s, 4) == 3 && BacktrackDigits(s, 4, 3) == Some(3);
    assert FindPrefix(s) == Some(Prefix(3, 3));
    assert s[10..] == "fix";
  }

  /** Backtracking: the tail `.-.` may start inside the digit run. */
  lemma TailInsideDigits()
    ensures CleanMessage("A-12-3x") == "x"
  {
    var s := "A-12-3x";
    assert UpperRun(s) == 1 && DigitRun(s, 2) == 2;
    assert BacktrackDigits(s, 2, 1) == Some(1);
    assert BacktrackDigits(s, 2, 2) == Some(1);
    assert FindPrefix(s) == Some(Prefix(1, 1));
    assert s[6..] == "x";
  }

  /** Without the `g` flag only the first of two prefixes is removed... */
  lemma OnlyFirstPrefixRemoved()
    ensures CleanMessage("A-1-xB-2-y") == "B-2-y"
  {
    var s := "A-1-xB-2-y";
    assert UpperRun(s) == 1 && DigitRun(s, 2) == 1;
    assert BacktrackDigits(s, 2, 0) == Some(0);
    assert BacktrackDigits(s, 2, 1) == Some(0);
    assert FindPrefix(s) == Some(Prefix(1, 0));
    assert s[5..] == "B-2-y";
  }

  /** ...although what is left starts with a prefix of its own, so cleaning is not idempotent. */
  lemma SecondPrefixRemains()
    ensures CleanMessage("B-2-y") == ""
  {
    var t := "B-2-y";
    assert UpperRun(t) == 1 && DigitRun(t, 2) == 1;
    assert BacktrackDigits(t, 2, 0) == Some(0);
    assert BacktrackDigits(t, 2, 1) == Some(0);
    assert FindPrefix(t) == Some(Prefix(1, 0));
    assert t[5..] == "";
  }

  /** A space, a dot and a space after the number: `.-.` never matches, nothing is removed. */
  lemma DotSeparatorIsKept()
    ensures CleanMessage("ABC-1 . bad") == "ABC-1 . bad"
  {
    var s := "ABC-1 . bad";
    assert UpperRun(s) == 3 && DigitRun(s, 4) == 1 && BacktrackDigits(s, 4, 1) == None;
    assert FindPrefix(s) == None;
  }

  /** A message without a leading hyphenated ticket is left alone. */
  lemma PlainMessageIsKept()
    ensures CleanMessage("good: fine") == "good: fine"
  {
    var s := "good: fine";
    assert UpperRun(s) == 0 && s[0] != '-';
    assert FindPrefix(s) == None;
  }
}
