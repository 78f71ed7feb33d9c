/**
 * What the per-page loop of lib/lint.js:35-64 computes, as functions of the
 * lint results of the page's commits: the overall validity, the list of
 * commits with findings that is handed to the formatter, and the error and
 * warning counters.
 */
module Aggregate {
  import TicketPrefix

  /** One error or warning reported by the linter: the rule and its message. */
  datatype Problem = Problem(name: string, message: string)

  /** The linter's verdict on one message: `{ valid, errors, warnings }`. */
  datatype LintOutcome = LintOutcome(valid: bool, errors: seq<Problem>, warnings: seq<Problem>)

  /** One commit of a page: its SHA and its full message. */
  datatype Commit = Commit(sha: string, message: string)

  /** A commit together with the linter's verdict on its cleaned message. */
  datatype CommitResult = CommitResult(sha: string, outcome: LintOutcome)

  /** An element of `report.commits`: `{ sha, errors, warnings }`. */
  datatype ReportEntry = ReportEntry(sha: string, errors: seq<Problem>, warnings: seq<Problem>)

  /** The linter run on every commit of a page, each message cleaned first (lib/lint.js:49-52). */
  function LintAll(page: seq<Commit>, lint: string -> LintOutcome): (rs: seq<CommitResult>)
    ensures |rs| == |page|
    ensures forall i :: 0 <= i < |page| ==> rs[i].sha == page[i].sha
  {
    seq(|page|, i requires 0 <= i < |page| =>
      CommitResult(page[i].sha, lint(TicketPrefix.CleanMessage(page[i].message))))
  }

  /** The commit produced at least one error or warning. */
  predicate HasFindings(o: LintOutcome) {
    |o.errors| > 0 || |o.warnings| > 0
  }

  /** The report entry a commit contributes when it has findings. */
  function EntryOf(r: CommitResult): ReportEntry {
    ReportEntry(r.sha, r.outcome.errors, r.outcome.warnings)
  }

  /** Every commit of the page was judged valid. */
  predicate AllValid(rs: seq<CommitResult>) {
    forall i :: 0 <= i < |rs| ==> rs[i].outcome.valid
  }

  /** `report.commits` after the loop: the entries of the commits with findings, in order. */
  function Findings(rs: seq<CommitResult>): seq<ReportEntry> {
    if rs == [] then []
    else
      var last := rs[|rs| - 1];
      Findings(rs[..|rs| - 1]) + (if HasFindings(last.outcome) then [EntryOf(last)] else [])
  }

  /** The number of errors over every commit of the page. */
  function TotalErrors(rs: seq<CommitResult>): nat {
    if rs == [] then 0 else TotalErrors(rs[..|rs| - 1]) + |rs[|rs| - 1].outcome.errors|
  }

  /** The number of warnings over every commit of the page. */
  function TotalWarnings(rs: seq<CommitResult>): nat {
    if rs == [] then 0 else TotalWarnings(rs[..|rs| - 1]) + |rs[|rs| - 1].outcome.warnings|
  }

  /** The number of errors listed in report entries. */
  function ErrorsIn(es: seq<ReportEntry>): nat {
    if es == [] then 0 else ErrorsIn(es[..|es| - 1]) + |es[|es| - 1].errors|
  }

  /** The number of warnings listed in report entries. */
  function WarningsIn(es: seq<ReportEntry>): nat {
    if es == [] then 0 else WarningsIn(es[..|es| - 1]) + |es[|es| - 1].warnings|
  }

  /** The positions, in increasing order, of exactly the commits with findings. */
  function FindingIndices(rs: seq<CommitResult>): (idx: seq<nat>)
    ensures forall j :: 0 <= j < |idx| ==> idx[j] < |rs|
    ensures forall j, j' :: 0 <= j < j' < |idx| ==> idx[j] < idx[j']
    ensures forall i :: 0 <= i < |rs| ==> (HasFindings(rs[i].outcome) <==> i in idx)
  {
    if rs == [] then []
    else
      var n := |rs| - 1;
      FindingIndices(rs[..n]) + (if HasFindings(rs[n].outcome) then [n] else [])
  }

  /**
   * `report.commits` is an order-preserving filter: its j-th entry is the
   * entry of the j-th commit with findings, with that commit's own SHA, errors
   * and warnings.
   */
  lemma {:induction false} FindingsInOrder(rs: seq<CommitResult>)
    ensures |Findings(rs)| == |FindingIndices(rs)|
    ensures forall j :: 0 <= j < |Findings(rs)| ==>
      Findings(rs)[j] == EntryOf(rs[FindingIndices(rs)[j]])
  {
    if rs != [] {
      var n := |rs| - 1;
      var init := rs[..n];
      FindingsInOrder(init);
      var f, idx := Findings(init), FindingIndices(init);
      var tail := if HasFindings(rs[n].outcome) then [EntryOf(rs[n])] else [];
      assert Findings(rs) == f + tail;
      assert FindingIndices(rs) == idx + (if HasFindings(rs[n].outcome) then [n] else []);
      forall j | 0 <= j < |f|
        ensures Findings(rs)[j] == EntryOf(rs[FindingIndices(rs)[j]])
      {
        assert init[idx[j]] == rs[idx[j]];
      }
    }
  }

  /** The counters agree with what the report lists. */
  lemma {:induction false} CountsMatchReport(rs: seq<CommitResult>)
    ensures TotalErrors(rs) == ErrorsIn(Findings(rs))
    ensures TotalWarnings(rs) == WarningsIn(Findings(rs))
  {
    if rs != [] {
      var n := |rs| - 1;
      CountsMatchReport(rs[..n]);
      var last := rs[n];
      var es := Findings(rs);
      if HasFindings(last.outcome) {
        assert es == Findings(rs[..n]) + [EntryOf(last)];
        assert es[..|es| - 1] == Findings(rs[..n]);
      } else {
        assert es == Findings(rs[..n]);
      }
    }
  }

  /** The report lists something exactly when some error or warning was counted (lib/lint.js:77). */
  lemma {:induction false} FindingsNonEmptyIff(rs: seq<CommitResult>)
    ensures (TotalErrors(rs) > 0 || TotalWarnings(rs) > 0) <==> Findings(rs) != []
  {
    if rs != [] {
      FindingsNonEmptyIff(rs[..|rs| - 1]);
    }
  }

  /** `@commitlint/core`'s convention: a message is valid exactly when it has no errors. */
  predicate ValidMeansNoErrors(o: LintOutcome) {
    o.valid <==> |o.errors| == 0
  }

  /**
   * Under that convention the page is valid exactly when no error was counted;
   * warnings alone never make it invalid.
   */
  lemma {:induction false} ValidIffNoErrors(rs: seq<CommitResult>)
    requires forall i :: 0 <= i < |rs| ==> ValidMeansNoErrors(rs[i].outcome)
    ensures AllValid(rs) <==> TotalErrors(rs) == 0
  {
    if rs != [] {
      var n := |rs| - 1;
      assert forall i :: 0 <= i < n ==> rs[..n][i] == rs[i];
      ValidIffNoErrors(rs[..n]);
    }
  }

  /** Folding two stretches of commits one after the other is folding their concatenation. */
  lemma FoldConcat(a: seq<CommitResult>, b: seq<CommitResult>)
    ensures AllValid(a + b) <==> AllValid(a) && AllValid(b)
    ensures Findings(a + b) == Findings(a) + Findings(b)
    ensures TotalErrors(a + b) == TotalErrors(a) + TotalErrors(b)
    ensures TotalWarnings(a + b) == TotalWarnings(a) + TotalWarnings(b)
  {
    assert forall i :: 0 <= i < |a| ==> (a + b)[i] == a[i];
    assert forall i :: 0 <= i < |b| ==> (a + b)[|a| + i] == b[i];
    FoldConcatRec(a, b);
  }

  /** The recursive part of FoldConcat: the list and the counters. */
  lemma {:induction false} FoldConcatRec(a: seq<CommitResult>, b: seq<CommitResult>)
    ensures Findings(a + b) == Findings(a) + Findings(b)
    ensures TotalErrors(a + b) == TotalErrors(a) + TotalErrors(b)
    ensures TotalWarnings(a + b) == TotalWarnings(a) + TotalWarnings(b)
  {
    if b == [] {
      assert a + b == a;
    } else {
      var n := |b| - 1;
      FoldConcatRec(a, b[..n]);
      assert (a + b)[..|a + b| - 1] == a + b[..n];
      assert (a + b)[|a + b| - 1] == b[n];
    }
  }

  /** Extending the fold by the next commit, as one iteration of the loop does. */
  lemma FoldStep(rs: seq<CommitResult>, i: nat)
    requires i < |rs|
    ensures AllValid(rs[..i + 1]) == (AllValid(rs[..i]) && rs[i].outcome.valid)
    ensures Findings(rs[..i + 1]) ==
      Findings(rs[..i]) + (if HasFindings(rs[i].outcome) then [EntryOf(rs[i])] else [])
    ensures TotalErrors(rs[..i + 1]) == TotalErrors(rs[..i]) + |rs[i].outcome.errors|
    ensures TotalWarnings(rs[..i + 1]) == TotalWarnings(rs[..i]) + |rs[i].outcome.warnings|
  {
    assert rs[..i + 1][..i] == rs[..i];
    assert forall j :: 0 <= j < i + 1 ==> rs[..i + 1][j] == if j < i then rs[..i][j] else rs[i];
  }

  /** The linter run on every page. */
  function LintPages(pages: seq<seq<Commit>>, lint: string -> LintOutcome): (rss: seq<seq<CommitResult>>)
    ensures |rss| == |pages|
    ensures forall p :: 0 <= p < |pages| ==> rss[p] == LintAll(pages[p], lint)
  {
    seq(|pages|, p requires 0 <= p < |pages| => LintAll(pages[p], lint))
  }

  /** All commits of all pages, in order. */
  function Flatten(pages: seq<seq<CommitResult>>): seq<CommitResult> {
    if pages == [] then [] else Flatten(pages[..|pages| - 1]) + pages[|pages| - 1]
  }

  /** All commits of all pages are valid exactly when every page is. */
  lemma {:induction false} FlattenValid(pages: seq<seq<CommitResult>>)
    ensures AllValid(Flatten(pages)) <==> forall p :: 0 <= p < |pages| ==> AllValid(pages[p])
  {
    if pages != [] {
      var n := |pages| - 1;
      var init := pages[..n];
      FlattenValid(init);
      FoldConcat(Flatten(init), pages[n]);
      assert forall p :: 0 <= p < n ==> init[p] == pages[p];
    }
  }

  /** Some commit of some page has findings exactly when some page's report lists a commit. */
  lemma {:induction false} FlattenFindings(pages: seq<seq<CommitResult>>)
    ensures Findings(Flatten(pages)) != [] <==> exists p :: 0 <= p < |pages| && Findings(pages[p]) != []
  {
    if pages != [] {
      var n := |pages| - 1;
      var init := pages[..n];
      FlattenFindings(init);
      assert Flatten(pages) == Flatten(init) + pages[n];
      FoldConcat(Flatten(init), pages[n]);
      assert Findings(Flatten(pages)) == Findings(Flatten(init)) + Findings(pages[n]);
      if Findings(Flatten(init)) != [] {
        var p :| 0 <= p < n && Findings(init[p]) != [];
        assert init[p] == pages[p];
      }
      if exists p :: 0 <= p < |pages| && Findings(pages[p]) != [] {
        var p :| 0 <= p < |pages| && Findings(pages[p]) != [];
        if p < n {
          assert init[p] == pages[p];
        }
      }
    }
  }
}
