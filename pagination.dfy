/**
 * What the per-page reset of lib/lint.js:35-40 means for a pull request
 * whose commits span several pages, and the run that folds all pages into
 * one report before publishing.
 */
module Pagination {
  import opened Wrappers
  import opened Aggregate
  import opened Effects

  /** A commit that fails one rule. */
  const Bad: CommitResult := CommitResult("a", LintOutcome(false, [Problem("type-empty", "type may not be empty")], []))

  /** A commit without findings. */
  const Good: CommitResult := CommitResult("b", LintOutcome(true, [], []))

  /** A pull request whose first page holds Bad and whose second page holds Good. */
  const TwoPages: seq<seq<CommitResult>> := [[Bad], [Good]]

  /** The commits of the two pages, in order. */
  lemma FlattenTwoPages()
    ensures Flatten(TwoPages) == [Bad, Good]
  {
    assert TwoPages[..1] == [[Bad]];
    assert [[Bad]][..0] == [];
    assert Flatten(TwoPages[..1]) == Flatten([]) + [Bad];
  }

  /** The fold over each page and over both. */
  lemma TwoPagesFacts()
    ensures Flatten(TwoPages) == [Bad, Good]
    ensures !AllValid([Bad, Good]) && Findings([Bad, Good]) == [EntryOf(Bad)]
    ensures TotalErrors([Bad, Good]) == 1 && TotalWarnings([Bad, Good]) == 0
    ensures AllValid([Good]) && Findings([Good]) == [] && TotalErrors([Good]) == 0 && TotalWarnings([Good]) == 0
    ensures Findings([Bad]) == [EntryOf(Bad)] && TotalErrors([Bad]) == 1 && TotalWarnings([Bad]) == 0
  {
    FlattenTwoPages();
    assert [Bad, Good][..1] == [Bad];
    assert [Bad][..0] == [] && [Good][..0] == [];
    assert Findings([Bad]) == Findings([]) + [EntryOf(Bad)];
    assert Findings([Bad, Good]) == Findings([Bad]) + [];
    assert ![Bad, Good][0].outcome.valid;
    assert TotalErrors([Bad]) == TotalErrors([]) + 1;
    assert TotalWarnings([Bad]) == TotalWarnings([]) + 0;
    assert TotalErrors([Bad, Good]) == TotalErrors([Bad]) + 0;
    assert TotalWarnings([Bad, Good]) == TotalWarnings([Bad]) + 0;
  }

  /** The calls of the run on the two pages: the pending status, then each page's calls. */
  lemma TwoPagesTrace(sha: string, format: seq<ReportEntry> -> string)
    ensures RunTrace(sha, TwoPages, [None, Some(7)], format) ==
      [PendingStatus(sha)] + PageTrace(sha, [Bad], None, format) + PageTrace(sha, [Good], Some(7), format)
  {
    var comments: seq<Option<CommentId>> := [None, Some(7)];
    RunTraceStep(sha, TwoPages, comments, format, 0);
    RunTraceStep(sha, TwoPages, comments, format, 1);
    assert TwoPages[..2] == TwoPages && comments[..2] == comments;
  }

  /** The first page creates the comment listing Bad; the second deletes the comment it finds. */
  lemma TwoPagesCommentCalls(sha: string, format: seq<ReportEntry> -> string)
    ensures PageTrace(sha, [Bad], None, format) == [TerminalStatus(sha, [Bad]), CreateComment(format([EntryOf(Bad)]))]
    ensures PageTrace(sha, [Good], Some(7), format) == [TerminalStatus(sha, [Good]), DeleteComment(7)]
  {
    TwoPagesFacts();
  }

  /**
   * As written, the status check ends up describing only the last page: an
   * invalid commit on the first page is overwritten by the second page's
   * success.
   */
  lemma LastPageHidesEarlierFailure(sha: string, format: seq<ReportEntry> -> string)
    ensures !AllValid(Flatten(TwoPages))
    ensures LastStatus(RunTrace(sha, TwoPages, [None, Some(7)], format)) ==
      Some(CreateStatus(sha, StatusContext, Success, Description(0, 0)))
  {
    TwoPagesFacts();
    RunLastStatus(sha, TwoPages, [None, Some(7)], format);
  }

  /**
   * As written, the comment the first page creates (here with id 7, which
   * the second page's lookup finds) is deleted by the second page, although
   * the pull request has a commit with findings.
   */
  lemma LastPageDeletesEarlierComment(sha: string, format: seq<ReportEntry> -> string)
    ensures Findings(Flatten(TwoPages)) != []
    ensures ApplyAll(None, RunTrace(sha, TwoPages, [None, Some(7)], format), 7) == None
  {
    TwoPagesFacts();
    TwoPagesTrace(sha, format);
    TwoPagesCommentCalls(sha, format);
    var t := RunTrace(sha, TwoPages, [None, Some(7)], format);
    var body := format([EntryOf(Bad)]);
    var kept := Some(BotComment(7, body));
    assert t == [PendingStatus(sha), TerminalStatus(sha, [Bad]), CreateComment(body),
                 TerminalStatus(sha, [Good]), DeleteComment(7)];
    assert Apply(None, t[2], 7) == kept && Apply(kept, t[3], 7) == kept && Apply(kept, t[4], 7) == None;
    assert t[4..][1..] == [] && t[3..][1..] == t[4..] && t[2..][1..] == t[3..] && t[1..][1..] == t[2..];
    assert ApplyAll(kept, t[4..], 7) == None;
    assert ApplyAll(kept, t[3..], 7) == ApplyAll(kept, t[4..], 7);
    assert ApplyAll(None, t[2..], 7) == ApplyAll(kept, t[3..], 7);
    assert ApplyAll(None, t[1..], 7) == ApplyAll(None, t[2..], 7);
  }

  /** The corrected run: one report for the whole pull request, published once after the last page. */
  function CorrectedRunTrace(sha: string, pages: seq<seq<CommitResult>>, comment: Option<CommentId>,
                             format: seq<ReportEntry> -> string): seq<Action> {
    [PendingStatus(sha)] + PageTrace(sha, Flatten(pages), comment, format)
  }

  /**
   * In the corrected run the status check ends up reporting every commit of
   * every page, and the bot comment exists exactly when some page had
   * findings; the pending status and the terminal one are the only status
   * writes.
   */
  lemma CorrectedRunCoversAllPages(sha: string, pages: seq<seq<CommitResult>>, c: Option<BotComment>,
                                   newId: CommentId, format: seq<ReportEntry> -> string)
    ensures var t := CorrectedRunTrace(sha, pages, Lookup(c), format);
      var all := Flatten(pages);
      StatusWrites(t) == 2
      && LastStatus(t) == Some(CreateStatus(sha, StatusContext,
           if forall p :: 0 <= p < |pages| ==> AllValid(pages[p]) then Success else Failure,
           Description(TotalErrors(all), TotalWarnings(all))))
      && (ApplyAll(c, t, newId).Some? <==> exists p :: 0 <= p < |pages| && Findings(pages[p]) != [])
  {
    var all := Flatten(pages);
    var page := PageTrace(sha, all, Lookup(c), format);
    FlattenValid(pages);
    FlattenFindings(pages);
    PageLastStatus(sha, all, Lookup(c), format);
    PageReconcilesComment(sha, all, c, newId, format);
    LastStatusConcat([PendingStatus(sha)], page);
    StatusWritesConcat([PendingStatus(sha)], page);
    assert StatusWrites([PendingStatus(sha)]) == 1;
    assert ApplyAll(c, [PendingStatus(sha)] + page, newId) == ApplyAll(c, page, newId) by {
      assert ([PendingStatus(sha)] + page)[1..] == page;
    }
  }

  /** On the two pages above, the corrected run reports the failure of the first page. */
  lemma CorrectedRunKeepsEarlierFailure(sha: string, format: seq<ReportEntry> -> string)
    ensures LastStatus(CorrectedRunTrace(sha, TwoPages, None, format)) ==
      Some(CreateStatus(sha, StatusContext, Failure, Description(1, 0)))
  {
    TwoPagesFacts();
    CorrectedRunCoversAllPages(sha, TwoPages, None, 0, format);
    assert !AllValid(TwoPages[0]);
  }
}
