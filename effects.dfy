/**
 * The calls the bot makes to the hosting platform, as an ordered trace of
 * abstract actions (lib/lint.js:26-30, 67-91), and what those calls do to
 * the pull request's status check and bot comment.
 */
module Effects {
  import opened Wrappers
  import Decimal
  import Digits
  import opened Aggregate

  /** The id of an issue comment. */
  type CommentId = nat

  /** The states a commit status can be set to. */
  datatype State = Pending | Success | Failure

  /** One call to the hosting platform. */
  datatype Action =
    | CreateStatus(sha: string, context: string, state: State, description: string)
    | CreateComment(body: string)
    | EditComment(id: CommentId, body: string)
    | DeleteComment(id: CommentId)

  /** The name under which the status check is published (lib/lint.js:23). */
  const StatusContext: string := "commitlint"

  /** The description of the initial status (lib/lint.js:29). */
  const PendingDescription: string := "Waiting for the status to be reported"

  /** The status published before any commit is fetched (lib/lint.js:26-30). */
  function PendingStatus(sha: string): Action {
    CreateStatus(sha, StatusContext, Pending, PendingDescription)
  }

  /** The description of a terminal status (lib/lint.js:70). */
  function Description(errors: nat, warnings: nat): string {
    "found " + Decimal.ToDecimal(errors) + " problems, " + Decimal.ToDecimal(warnings) + " warnings"
  }

  /** The terminal status of one page (lib/lint.js:67-71). */
  function TerminalStatus(sha: string, rs: seq<CommitResult>): Action {
    CreateStatus(sha, StatusContext, if AllValid(rs) then Success else Failure,
                 Description(TotalErrors(rs), TotalWarnings(rs)))
  }

  /** The comment call of one page, if any (lib/lint.js:77-91). */
  function CommentActions(comment: Option<CommentId>, counted: bool, body: string): seq<Action> {
    if counted then
      match comment
      case Some(id) => [EditComment(id, body)]
      case None => [CreateComment(body)]
    else
      match comment
      case Some(id) => [DeleteComment(id)]
      case None => []
  }

  /** Some error or some warning was counted on the page (lib/lint.js:77). */
  predicate Counted(rs: seq<CommitResult>) {
    TotalErrors(rs) > 0 || TotalWarnings(rs) > 0
  }

  /**
   * The calls made for one page of commits: the terminal status, then the
   * comment call.  `comment` is what the lookup of an earlier bot comment
   * returned; `format` renders the report.
   */
  function PageTrace(sha: string, rs: seq<CommitResult>, comment: Option<CommentId>,
                     format: seq<ReportEntry> -> string): seq<Action> {
    [TerminalStatus(sha, rs)] + CommentActions(comment, Counted(rs), format(Findings(rs)))
  }

  /** The calls made for a sequence of pages, each page handled on its own. */
  function PagesTrace(sha: string, pages: seq<seq<CommitResult>>, comments: seq<Option<CommentId>>,
                      format: seq<ReportEntry> -> string): seq<Action>
    requires |comments| == |pages|
  {
    if pages == [] then []
    else
      var n := |pages| - 1;
      PagesTrace(sha, pages[..n], comments[..n], format) + PageTrace(sha, pages[n], comments[n], format)
  }

  /** The calls made by one run of the bot (lib/lint.js:13-93). */
  function RunTrace(sha: string, pages: seq<seq<CommitResult>>, comments: seq<Option<CommentId>>,
                    format: seq<ReportEntry> -> string): seq<Action>
    requires |comments| == |pages|
  {
    [PendingStatus(sha)] + PagesTrace(sha, pages, comments, format)
  }

  /** The action publishes a pending status. */
  predicate IsPendingWrite(a: Action) {
    a.CreateStatus? && a.state == Pending
  }

  /** No action of the trace publishes a pending status. */
  predicate NoPendingWrite(t: seq<Action>) {
    forall i :: 0 <= i < |t| ==> !IsPendingWrite(t[i])
  }

  /** A run starts with the pending status, and handling one more page appends that page's calls. */
  lemma RunTraceStep(sha: string, pages: seq<seq<CommitResult>>, comments: seq<Option<CommentId>>,
                     format: seq<ReportEntry> -> string, p: nat)
    requires |comments| == |pages| && p < |pages|
    ensures RunTrace(sha, pages[..0], comments[..0], format) == [PendingStatus(sha)]
    ensures RunTrace(sha, pages[..p + 1], comments[..p + 1], format) ==
      RunTrace(sha, pages[..p], comments[..p], format) + PageTrace(sha, pages[p], comments[p], format)
  {
    assert pages[..0] == [];
    assert pages[..p + 1][..p] == pages[..p] && comments[..p + 1][..p] == comments[..p];
    var a := PagesTrace(sha, pages[..p], comments[..p], format);
    var b := PageTrace(sha, pages[p], comments[p], format);
    assert PagesTrace(sha, pages[..p + 1], comments[..p + 1], format) == a + b;
    assert [PendingStatus(sha)] + (a + b) == ([PendingStatus(sha)] + a) + b;
  }

  /** The number of status writes in a trace. */
  function StatusWrites(t: seq<Action>): nat {
    if t == [] then 0 else StatusWrites(t[..|t| - 1]) + (if t[|t| - 1].CreateStatus? then 1 else 0)
  }

  /** The last status written in a trace, which is what the status check shows afterwards. */
  function LastStatus(t: seq<Action>): Option<Action> {
    if t == [] then None
    else if t[|t| - 1].CreateStatus? then Some(t[|t| - 1])
    else LastStatus(t[..|t| - 1])
  }

  /** The bot's comment on the pull request. */
  datatype BotComment = BotComment(id: CommentId, body: string)

  /**
   * What a call does to the bot comment: a created comment gets the id
   * `newId`; editing or deleting acts only on the comment with that id.
   */
  function Apply(c: Option<BotComment>, a: Action, newId: CommentId): Option<BotComment> {
    match a
    case CreateStatus(_, _, _, _) => c
    case CreateComment(body) => Some(BotComment(newId, body))
    case EditComment(id, body) => if c.Some? && c.value.id == id then Some(BotComment(id, body)) else c
    case DeleteComment(id) => if c.Some? && c.value.id == id then None else c
  }

  /** The bot comment after a whole trace. */
  function ApplyAll(c: Option<BotComment>, t: seq<Action>, newId: CommentId): Option<BotComment>
    decreases |t|
  {
    if t == [] then c else ApplyAll(Apply(c, t[0], newId), t[1..], newId)
  }

  /** The lookup of the bot comment reports the comment that is there. */
  function Lookup(c: Option<BotComment>): Option<CommentId> {
    match c
    case Some(b) => Some(b.id)
    case None => None
  }

  /**
   * The calls of one page in terms of what its loop leaves behind: the
   * report's validity and list of commits, and the two counters.
   */
  lemma PageTraceFromLoop(sha: string, rs: seq<CommitResult>, comment: Option<CommentId>,
                          format: seq<ReportEntry> -> string, valid: bool, commits: seq<ReportEntry>,
                          errorsCount: nat, warnsCount: nat)
    requires valid == AllValid(rs) && commits == Findings(rs)
    requires errorsCount == TotalErrors(rs) && warnsCount == TotalWarnings(rs)
    ensures PageTrace(sha, rs, comment, format) ==
      [CreateStatus(sha, StatusContext, if valid then Success else Failure, Description(errorsCount, warnsCount))]
      + CommentActions(comment, errorsCount > 0 || warnsCount > 0, format(commits))
  {
  }

  /** The description names both counts, and different counts give different descriptions. */
  lemma DescriptionInjective(e1: nat, w1: nat, e2: nat, w2: nat)
    requires Description(e1, w1) == Description(e2, w2)
    ensures e1 == e2 && w1 == w2
  {
    var a1, a2 := Decimal.ToDecimal(e1), Decimal.ToDecimal(e2);
    var b1, b2 := Decimal.ToDecimal(w1), Decimal.ToDecimal(w2);
    var s1, s2 := Description(e1, w1), Description(e2, w2);
    assert s1 == "found " + a1 + " problems, " + b1 + " warnings";
    assert s2 == "found " + a2 + " problems, " + b2 + " warnings";
    Digits.DigitRunIs(s1, 6, |a1|);
    Digits.DigitRunIs(s2, 6, |a2|);
    assert a1 == s1[6..6 + |a1|] == s2[6..6 + |a2|] == a2;
    Decimal.ToDecimalInjective(e1, e2);
    assert |b1| == |b2|;
    var k := 6 + |a1| + 11;
    assert b1 == s1[k..k + |b1|] == s2[k..k + |b2|] == b2;
    Decimal.ToDecimalInjective(w1, w2);
  }

  /**
   * One page: a terminal status first, success exactly when every commit was
   * valid, carrying both counters; then at most one comment call, chosen by
   * the counters and the lookup alone.
   */
  lemma PageTraceShape(sha: string, rs: seq<CommitResult>, comment: Option<CommentId>,
                       format: seq<ReportEntry> -> string)
    ensures var t := PageTrace(sha, rs, comment, format);
      1 <= |t| <= 2
      && t[0].CreateStatus? && t[0].sha == sha && t[0].context == StatusContext
      && (t[0].state == Success <==> forall i :: 0 <= i < |rs| ==> rs[i].outcome.valid)
      && (t[0].state == Failure <==> exists i :: 0 <= i < |rs| && !rs[i].outcome.valid)
      && t[0].description == Description(TotalErrors(rs), TotalWarnings(rs))
      && (forall i :: 1 <= i < |t| ==> !t[i].CreateStatus?)
  {
  }

  /**
   * Under commitlint's convention that a message is valid exactly when it has
   * no errors, a page with warnings but no errors is published as success,
   * its warnings still counted in the description.
   */
  lemma WarningsOnlyIsSuccess(sha: string, rs: seq<CommitResult>)
    requires forall i :: 0 <= i < |rs| ==> ValidMeansNoErrors(rs[i].outcome)
    requires TotalErrors(rs) == 0
    ensures TerminalStatus(sha, rs) == CreateStatus(sha, StatusContext, Success, Description(0, TotalWarnings(rs)))
  {
    ValidIffNoErrors(rs);
  }

  /**
   * The four-way decision of lib/lint.js:77-91, keyed on whether the report
   * lists any commit (equivalently, whether anything was counted) and on
   * whether a bot comment was found.
   */
  lemma CommentDecision(sha: string, rs: seq<CommitResult>, comment: Option<CommentId>,
                        format: seq<ReportEntry> -> string)
    ensures var t := PageTrace(sha, rs, comment, format);
      var body := format(Findings(rs));
      (Findings(rs) != [] && comment.Some? ==> t[1..] == [EditComment(comment.value, body)])
      && (Findings(rs) != [] && comment.None? ==> t[1..] == [CreateComment(body)])
      && (Findings(rs) == [] && comment.Some? ==> t[1..] == [DeleteComment(comment.value)])
      && (Findings(rs) == [] && comment.None? ==> t[1..] == [])
  {
    FindingsNonEmptyIff(rs);
  }

  /**
   * Whatever the page held, afterwards the pull request carries a bot
   * comment exactly when the page had findings, holding the formatted report;
   * an existing comment is edited in place rather than replaced.
   */
  lemma PageReconcilesComment(sha: string, rs: seq<CommitResult>, c: Option<BotComment>,
                              newId: CommentId, format: seq<ReportEntry> -> string)
    ensures var after := ApplyAll(c, PageTrace(sha, rs, Lookup(c), format), newId);
      (after.Some? <==> Findings(rs) != [])
      && (after.Some? ==> after.value.body == format(Findings(rs)))
      && (after.Some? && c.Some? ==> after.value.id == c.value.id)
  {
    FindingsNonEmptyIff(rs);
    var t := PageTrace(sha, rs, Lookup(c), format);
    assert ApplyAll(c, t, newId) == ApplyAll(c, t[1..], newId);
    if |t| == 2 {
      assert t[1..][1..] == [];
    }
  }

  /** The status check shows the terminal status of the page afterwards. */
  lemma PageLastStatus(sha: string, rs: seq<CommitResult>, comment: Option<CommentId>,
                       format: seq<ReportEntry> -> string)
    ensures LastStatus(PageTrace(sha, rs, comment, format)) == Some(TerminalStatus(sha, rs))
    ensures StatusWrites(PageTrace(sha, rs, comment, format)) == 1
  {
    var t := PageTrace(sha, rs, comment, format);
    assert t[..1] == [TerminalStatus(sha, rs)];
    assert t[..1][..0] == [];
    assert StatusWrites(t[..1]) == 1;
    if |t| == 2 {
      assert t[..|t| - 1] == t[..1];
      assert !t[1].CreateStatus?;
    }
  }

  lemma {:induction false} StatusWritesConcat(a: seq<Action>, b: seq<Action>)
    ensures StatusWrites(a + b) == StatusWrites(a) + StatusWrites(b)
  {
    if b != [] {
      StatusWritesConcat(a, b[..|b| - 1]);
      assert (a + b)[..|a + b| - 1] == a + b[..|b| - 1];
    } else {
      assert a + b == a;
    }
  }

  lemma {:induction false} LastStatusConcat(a: seq<Action>, b: seq<Action>)
    ensures LastStatus(a + b) == if LastStatus(b).Some? then LastStatus(b) else LastStatus(a)
  {
    if b != [] {
      LastStatusConcat(a, b[..|b| - 1]);
      assert (a + b)[..|a + b| - 1] == a + b[..|b| - 1];
    } else {
      assert a + b == a;
    }
  }

  /** Each page writes exactly one status. */
  lemma {:induction false} PagesStatusWrites(sha: string, pages: seq<seq<CommitResult>>,
                                             comments: seq<Option<CommentId>>,
                                             format: seq<ReportEntry> -> string)
    requires |comments| == |pages|
    ensures StatusWrites(PagesTrace(sha, pages, comments, format)) == |pages|
  {
    if pages != [] {
      var n := |pages| - 1;
      PagesStatusWrites(sha, pages[..n], comments[..n], format);
      PageLastStatus(sha, pages[n], comments[n], format);
      StatusWritesConcat(PagesTrace(sha, pages[..n], comments[..n], format),
                         PageTrace(sha, pages[n], comments[n], format));
    }
  }

  /** No page writes a pending status. */
  lemma {:induction false} PagesNeverPending(sha: string, pages: seq<seq<CommitResult>>,
                                             comments: seq<Option<CommentId>>,
                                             format: seq<ReportEntry> -> string)
    requires |comments| == |pages|
    ensures NoPendingWrite(PagesTrace(sha, pages, comments, format))
  {
    if pages != [] {
      var n := |pages| - 1;
      var pp, cc := pages[..n], comments[..n];
      PagesNeverPending(sha, pp, cc, format);
      var a := PagesTrace(sha, pp, cc, format);
      var b := PageTrace(sha, pages[n], comments[n], format);
      assert NoPendingWrite(b);
      assert PagesTrace(sha, pages, comments, format) == a + b;
      assert forall i :: 0 <= i < |a + b| ==> (a + b)[i] == if i < |a| then a[i] else b[i - |a|];
    }
  }

  /**
   * A run writes the pending status first and never again, then one
   * terminal status per page: 1 + |pages| status writes in all.
   */
  lemma RunStatusWrites(sha: string, pages: seq<seq<CommitResult>>,
                        comments: seq<Option<CommentId>>, format: seq<ReportEntry> -> string)
    requires |comments| == |pages|
    ensures var t := RunTrace(sha, pages, comments, format);
      t[0] == PendingStatus(sha)
      && (forall i :: 1 <= i < |t| ==> !IsPendingWrite(t[i]))
      && StatusWrites(t) == 1 + |pages|
  {
    var rest := PagesTrace(sha, pages, comments, format);
    PagesNeverPending(sha, pages, comments, format);
    PagesStatusWrites(sha, pages, comments, format);
    StatusWritesConcat([PendingStatus(sha)], rest);
    assert StatusWrites([PendingStatus(sha)]) == 1;
    var t := RunTrace(sha, pages, comments, format);
    assert forall i :: 1 <= i < |t| ==> t[i] == rest[i - 1];
  }

  /** After a run, the status check shows what the LAST page reported, or still pending. */
  lemma {:induction false} RunLastStatus(sha: string, pages: seq<seq<CommitResult>>,
                                         comments: seq<Option<CommentId>>,
                                         format: seq<ReportEntry> -> string)
    requires |comments| == |pages|
    ensures LastStatus(RunTrace(sha, pages, comments, format)) ==
      if pages == [] then Some(PendingStatus(sha)) else Some(TerminalStatus(sha, pages[|pages| - 1]))
  {
    if pages == [] {
      assert RunTrace(sha, pages, comments, format) == [PendingStatus(sha)];
    } else {
      var n := |pages| - 1;
      PageLastStatus(sha, pages[n], comments[n], format);
      LastStatusConcat([PendingStatus(sha)] + PagesTrace(sha, pages[..n], comments[..n], format),
                       PageTrace(sha, pages[n], comments[n], format));
      assert RunTrace(sha, pages, comments, format) ==
        ([PendingStatus(sha)] + PagesTrace(sha, pages[..n], comments[..n], format))
        + PageTrace(sha, pages[n], comments[n], format);
    }
  }
}
