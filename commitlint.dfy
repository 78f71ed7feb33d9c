/**
 * The `commitlint` handler of lib/lint.js as the step-by-step program it is:
 * a pending status, then for each page of commits a loop that mutates the
 * report and the two counters, a terminal status and the comment call.
 * The hosting platform is a log of the calls made to it.
 */
module Commitlint {
  import opened Wrappers
  import opened TicketPrefix
  import opened Aggregate
  import opened Effects

  /** The hosting platform's API, recording every call in order. */
  class Hosting {
    var calls: seq<Action>

    constructor ()
      ensures calls == []
    {
      calls := [];
    }

    /** `repos.createStatus` with the run's status info. */
    method CreateStatus(sha: string, state: State, description: string)
      modifies this
      ensures calls == old(calls) + [Action.CreateStatus(sha, StatusContext, state, description)]
    {
      calls := calls + [Action.CreateStatus(sha, StatusContext, state, description)];
    }

    /** `issues.createComment` on the pull request. */
    method CreateComment(body: string)
      modifies this
      ensures calls == old(calls) + [Action.CreateComment(body)]
    {
      calls := calls + [Action.CreateComment(body)];
    }

    /** `issues.editComment` on the pull request. */
    method EditComment(id: CommentId, body: string)
      modifies this
      ensures calls == old(calls) + [Action.EditComment(id, body)]
    {
      calls := calls + [Action.EditComment(id, body)];
    }

    /** `issues.deleteComment` on the pull request. */
    method DeleteComment(id: CommentId)
      modifies this
      ensures calls == old(calls) + [Action.DeleteComment(id)]
    {
      calls := calls + [Action.DeleteComment(id)];
    }
  }

  /** The summary `{ valid, commits }` that the page loop updates in place. */
  class Report {
    var valid: bool
    var commits: seq<ReportEntry>

    constructor ()
      ensures valid && commits == []
    {
      valid := true;
      commits := [];
    }
  }

  /**
   * The loop of lib/lint.js:35-64 over one page `data`: a fresh report and
   * counters, then every commit's cleaned message linted and folded in.
   * `lint` is the rule engine with the loaded rules.
   */
  method LintPage(data: seq<Commit>, lint: string -> LintOutcome)
    returns (valid: bool, commits: seq<ReportEntry>, errorsCount: nat, warnsCount: nat)
    ensures valid == AllValid(LintAll(data, lint))
    ensures commits == Findings(LintAll(data, lint))
    ensures errorsCount == TotalErrors(LintAll(data, lint))
    ensures warnsCount == TotalWarnings(LintAll(data, lint))
  {
    var report := new Report();
    errorsCount, warnsCount := 0, 0;
    ghost var rs := LintAll(data, lint);

    for i := 0 to |data|
      invariant report.valid == AllValid(rs[..i])
      invariant report.commits == Findings(rs[..i])
      invariant errorsCount == TotalErrors(rs[..i]) && warnsCount == TotalWarnings(rs[..i])
      invariant (errorsCount > 0 || warnsCount > 0) <==> report.commits != []
    {
      var d := data[i];
      var outcome := lint(CleanMessage(d.message));
      assert rs[i].outcome == outcome && rs[i].sha == d.sha;
      FoldStep(rs, i);
      if !outcome.valid {
        report.valid := false;
      }
      if |outcome.errors| > 0 || |outcome.warnings| > 0 {
        errorsCount := errorsCount + |outcome.errors|;
        warnsCount := warnsCount + |outcome.warnings|;
        report.commits := report.commits + [ReportEntry(d.sha, outcome.errors, outcome.warnings)];
      }
      FindingsNonEmptyIff(rs[..i + 1]);
    }
    assert rs[..|data|] == rs;
    valid, commits := report.valid, report.commits;
  }

  /**
   * What lib/lint.js:67-91 does with the loop's outcome: the terminal status,
   * then the comment call chosen by the counters and the lookup `comment`.
   */
  method PublishPage(gh: Hosting, sha: string, valid: bool, commits: seq<ReportEntry>,
                     errorsCount: nat, warnsCount: nat, comment: Option<CommentId>,
                     format: seq<ReportEntry> -> string)
    modifies gh
    ensures gh.calls == old(gh.calls)
      + [Action.CreateStatus(sha, StatusContext, if valid then Success else Failure,
                             Description(errorsCount, warnsCount))]
      + CommentActions(comment, errorsCount > 0 || warnsCount > 0, format(commits))
  {
    gh.CreateStatus(sha, if valid then Success else Failure, Description(errorsCount, warnsCount));
    if errorsCount > 0 || warnsCount > 0 {
      var message := format(commits);
      if comment.Some? {
        gh.EditComment(comment.value, message);
      } else {
        gh.CreateComment(message);
      }
    } else {
      if comment.Some? {
        gh.DeleteComment(comment.value);
      }
    }
  }

  /**
   * The paginate callback (lib/lint.js:33-92) on one page `data`: the loop,
   * the terminal status, then the comment call.  `comment` is what the
   * lookup of the bot comment returns, `format` the report formatter.
   */
  method HandlePage(gh: Hosting, sha: string, data: seq<Commit>, lint: string -> LintOutcome,
                    comment: Option<CommentId>, format: seq<ReportEntry> -> string)
    modifies gh
    ensures gh.calls == old(gh.calls) + PageTrace(sha, LintAll(data, lint), comment, format)
  {
    var valid, commits, errorsCount, warnsCount := LintPage(data, lint);
    PageTraceFromLoop(sha, LintAll(data, lint), comment, format, valid, commits, errorsCount, warnsCount);
    PublishPage(gh, sha, valid, commits, errorsCount, warnsCount, comment, format);
  }

  /**
   * `commitlint` (lib/lint.js:13-93): the pending status, then every page in
   * turn; `comments[p]` is what the comment lookup returns on page `p`.
   */
  method Run(gh: Hosting, sha: string, pages: seq<seq<Commit>>, lint: string -> LintOutcome,
             comments: seq<Option<CommentId>>, format: seq<ReportEntry> -> string)
    requires |comments| == |pages|
    modifies gh
    ensures gh.calls == old(gh.calls) + RunTrace(sha, LintPages(pages, lint), comments, format)
  {
    gh.CreateStatus(sha, Pending, PendingDescription);
    ghost var rss := LintPages(pages, lint);
    assert rss[..0] == [] && comments[..0] == [];
    assert RunTrace(sha, rss[..0], comments[..0], format) == [PendingStatus(sha)];
    for p := 0 to |pages|
      invariant gh.calls == old(gh.calls) + RunTrace(sha, rss[..p], comments[..p], format)
    {
      HandlePage(gh, sha, pages[p], lint, comments[p], format);
      assert rss[p] == LintAll(pages[p], lint);
      RunTraceStep(sha, rss, comments, format, p);
    }
    assert rss[..|pages|] == rss && comments[..|pages|] == comments;
  }

  /** The scenario's page, linted: A's message and B's message are both left as they are. */
  lemma ScenarioLint(lint: string -> LintOutcome, e: Problem)
    requires lint("ABC-1 . bad") == LintOutcome(false, [e], [])
    requires lint("good: fine") == LintOutcome(true, [], [])
    ensures LintAll([Commit("A", "ABC-1 . bad"), Commit("B", "good: fine")], lint) ==
      [CommitResult("A", LintOutcome(false, [e], [])), CommitResult("B", LintOutcome(true, [], []))]
  {
    DotSeparatorIsKept();
    PlainMessageIsKept();
  }

  /** The fold over the scenario's results. */
  lemma ScenarioFold(e: Problem)
    ensures var rs := [CommitResult("A", LintOutcome(false, [e], [])), CommitResult("B", LintOutcome(true, [], []))];
      !AllValid(rs) && Findings(rs) == [ReportEntry("A", [e], [])]
      && TotalErrors(rs) == 1 && TotalWarnings(rs) == 0
  {
    var a := CommitResult("A", LintOutcome(false, [e], []));
    var b := CommitResult("B", LintOutcome(true, [], []));
    assert [a, b][..1] == [a] && [a][..0] == [];
    assert Findings([a]) == Findings([]) + [EntryOf(a)];
    assert Findings([a, b]) == Findings([a]) + [];
    assert TotalErrors([a, b]) == TotalErrors([a]) + 0;
    assert TotalWarnings([a, b]) == TotalWarnings([a]) + 0;
    assert ![a, b][0].outcome.valid;
  }

  /**
   * A pull request of two commits on one page: A's message still fails
   * after cleaning, with one error; B's passes without findings.  The run
   * publishes pending, then failure with the counts 1 and 0, then creates
   * the comment listing A alone.
   */
  lemma EndToEndScenario(sha: string, lint: string -> LintOutcome, format: seq<ReportEntry> -> string,
                         e: Problem)
    requires lint("ABC-1 . bad") == LintOutcome(false, [e], [])
    requires lint("good: fine") == LintOutcome(true, [], [])
    ensures RunTrace(sha, LintPages([[Commit("A", "ABC-1 . bad"), Commit("B", "good: fine")]], lint), [None], format)
      == [PendingStatus(sha),
          Action.CreateStatus(sha, StatusContext, Failure, "found 1 problems, 0 warnings"),
          Action.CreateComment(format([ReportEntry("A", [e], [])]))]
  {
    var page := [Commit("A", "ABC-1 . bad"), Commit("B", "good: fine")];
    var rs := LintAll(page, lint);
    ScenarioLint(lint, e);
    ScenarioFold(e);
    assert LintPages([page], lint) == [rs];
    assert Description(1, 0) == "found 1 problems, 0 warnings";
    var none: seq<Option<CommentId>> := [None];
    assert [rs][..0] == [] && none[..0] == [];
    assert PagesTrace(sha, [rs], none, format) == PageTrace(sha, rs, None, format);
  }
}
