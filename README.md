# commitlint-bot: a Dafny model of `lib/lint.js`

commitlint-bot is a status-check bot for pull requests. For each pull request
event, `commitlint` does four things:

- it publishes a `pending` status on the head commit;
- it fetches the pull request's commits page by page;
- on each page, it lints every commit message after stripping a leading
  ticket prefix;
- for that page, it publishes a `success`/`failure` status with the error and
  warning counts, and then creates, edits or deletes the bot's summary comment.

This project models that logic in eight modules:

| file | module | what it models |
|---|---|---|
| `wrappers.dfy` | `Wrappers` | `Option`, used for "no match" and "no bot comment found" |
| `ticket_prefix.dfy` | `TicketPrefix` | `cleanMessage`: the fixed regex `/^[A-Z]*\-[0-9]*.-./` with JavaScript's backtracking order, the line-terminator set (`\n`, `\r`, U+2028, U+2029) as an explicit predicate, no `g` flag |
| `digits.dfy` | `Digits` | the character class `[0-9]` and the length of a digit run, shared by the matcher and by the decimal rendering |
| `decimal.dfy` | `Decimal` | how a count is written inside the template literal of the status description |
| `aggregate.dfy` | `Aggregate` | the per-page fold as specification functions: overall validity, the list of commits with findings, the two counters |
| `effects.dfy` | `Effects` | the calls to the hosting platform as an ordered trace of actions; the comment decision; what the calls do to the status check and to the bot comment |
| `commitlint.dfy` | `Commitlint` | the handler as the imperative code it is. A `Hosting` class records the calls made to it. A `Report` class is updated in place. The page loop's counters are local variables. `HandlePage` (the loop `LintPage`, then `PublishPage` for the calls) and `Run` are each proved equal to the trace functions. |
| `pagination.dfy` | `Pagination` | the effect of resetting the report on every page (see Findings), and the corrected run |

The linter (`@commitlint/core`'s `lint` with the loaded rules) is a parameter
`lint: string -> LintOutcome`. The formatter is a parameter
`format: seq<ReportEntry> -> string`. The result of the bot-comment lookup is
an input: one per page for `Run`, and one for `HandlePage`.

Behaviour of `lib/lint.js` worth noting:

- The pattern `/^[A-Z]*\-[0-9]*.-./` ends in `.-.`: any character, a hyphen, any character. So `"JIRA-42: fix bug"` is left unchanged (`ColonSeparatorIsKept`), and `"ABC-123 - fix"` becomes `"fix"` (`SpacedHyphenIsStripped`).
- `[A-Z]*` and `[0-9]*` also match zero letters or digits, so `"-a-b"` is cleaned to `""`.
- `cleanMessage` is applied to the whole commit message, and the whole cleaned message is linted.
- The report and the counters are created inside the per-page callback. Each page publishes its own terminal status and makes its own comment call, so a run writes `1 + pages` statuses (`RunStatusWrites`).
- The terminal status follows `report.valid`, not the counters (`PageTraceShape`). Under commitlint's convention that a message is valid exactly when it has no errors, a page with warnings but no errors is `success` with its warnings counted in the description (`ValidIffNoErrors`, `WarningsOnlyIsSuccess`).

## Model

| member | source | states |
|---|---|---|
| `TicketPrefix.IsLineTerminator` | lib/lint.js:44 | the characters `.` does not match without the `s` flag: line feed, carriage return, U+2028 and U+2029 |
| `TicketPrefix.TailAt` | lib/lint.js:44 | the tail `.-.` matches at a position: a non-terminator, a hyphen, a non-terminator |
| `TicketPrefix.Shape` | lib/lint.js:44 | the whole pattern matches at index 0 with `[A-Z]*` taking `u` characters and `[0-9]*` taking `k`; this is the reference the matcher is proved against |
| `TicketPrefix.TriedBefore` | lib/lint.js:44 | the regex's backtracking order on the two run lengths: more capitals first, and for the same capitals more digits first |
| `TicketPrefix.UpperRun` | lib/lint.js:44 | the length of the longest leading run of `[A-Z]`: every character before it is upper case, the one at it is not (or the string ends) |
| `Digits.DigitRun` | lib/lint.js:44 | the length of the longest run of `[0-9]` from a position, characterised the same way |
| `TicketPrefix.BacktrackDigits` | lib/lint.js:44 | greedy `[0-9]*` with backtracking: the chosen digit count is at most the run, `.-.` matches after it, and it fails after every longer count tried before; when there is no result, `.-.` fails after every count |
| `TicketPrefix.FindPrefix` | lib/lint.js:44 | a reported match has the full shape `[A-Z]{u} - [0-9]{k} c - c` with `c` not a line terminator |
| `TicketPrefix.CleanMessage` | lib/lint.js:43-45 | the result is a suffix of the message; it equals the message exactly when the pattern does not match; when it differs, at least 4 characters were removed |
| `TicketPrefix.ShapeUsesWholeUpperRun` | lib/lint.js:44 | in any match, `[A-Z]*` takes the whole leading run of capitals and `[0-9]*` takes no more than the digit run |
| `TicketPrefix.FindPrefixIsFirstMatch` | lib/lint.js:44 | the matcher finds a match exactly when one exists, and the match it finds comes first in the regex's backtracking order (most capitals, then most digits) |
| `TicketPrefix.CleanMessageMeaning` | lib/lint.js:43-45 | with no match the message is unchanged, and a changed message is the original minus a prefix of the pattern's shape |
| `TicketPrefix.CleanMessageIdempotentWithoutPrefix` | lib/lint.js:43-45 | cleaning twice is cleaning once for a message that does not start with a ticket prefix |
| `TicketPrefix.ColonSeparatorIsKept` | lib/lint.js:44 | `"JIRA-42: fix bug"` is left unchanged |
| `TicketPrefix.SpacedHyphenIsStripped` | lib/lint.js:44 | `"ABC-123 - fix"` becomes `"fix"` |
| `TicketPrefix.TailInsideDigits` | lib/lint.js:44 | `"A-12-3x"` becomes `"x"`: the backtracking puts `.-.` inside the digits |
| `TicketPrefix.OnlyFirstPrefixRemoved` | lib/lint.js:44 | without `g`, `"A-1-xB-2-y"` becomes `"B-2-y"` |
| `TicketPrefix.SecondPrefixRemains` | lib/lint.js:44 | `"B-2-y"` would itself be cleaned to `""`, so cleaning is not idempotent in general |
| `TicketPrefix.DotSeparatorIsKept` | lib/lint.js:44 | `"ABC-1 . bad"` is left unchanged |
| `TicketPrefix.PlainMessageIsKept` | lib/lint.js:44 | `"good: fine"` is left unchanged |
| `Decimal.ToDecimal` | lib/lint.js:70 | a non-empty string of decimal digits with no leading zero |
| `Decimal.ValueOfToDecimal` | lib/lint.js:70 | reading the digits back gives the count |
| `Decimal.ToDecimalInjective` | lib/lint.js:70 | different counts are written differently |
| `Aggregate.LintAll` | lib/lint.js:48-52 | one lint result per commit, in page order, each under that commit's SHA |
| `Aggregate.AllValid` | lib/lint.js:53-55 | what `report.valid` ends as: every commit's outcome is valid |
| `Aggregate.Findings` | lib/lint.js:57-63 | what `report.commits` ends as: one entry per commit with an error or a warning, in page order |
| `Aggregate.TotalErrors` | lib/lint.js:57-59 | what `errorsCount` ends as: the number of errors over the commits with findings |
| `Aggregate.TotalWarnings` | lib/lint.js:57-60 | what `warnsCount` ends as: the number of warnings over the commits with findings |
| `Aggregate.HasFindings` | lib/lint.js:57 | the guard of the counting branch: the commit has an error or a warning |
| `Aggregate.EntryOf` | lib/lint.js:62 | the pushed entry `{ sha, errors, warnings }` of one commit |
| `Aggregate.FindingIndices` | lib/lint.js:57-63 | strictly increasing positions that hold exactly the commits with an error or a warning |
| `Aggregate.FindingsInOrder` | lib/lint.js:57-63 | entry `j` of `report.commits` is the `j`-th commit with findings, with that commit's own SHA, errors and warnings |
| `Aggregate.CountsMatchReport` | lib/lint.js:57-62 | the error and warning totals over all commits equal those listed in `report.commits` |
| `Aggregate.FindingsNonEmptyIff` | lib/lint.js:57-63 | something was counted exactly when `report.commits` is non-empty |
| `Aggregate.ValidIffNoErrors` | lib/lint.js:53-55 | if the linter marks a message valid exactly when it has no errors, the page is valid exactly when no error was counted |
| `Aggregate.FoldStep` | lib/lint.js:48-63 | one loop iteration: validity is ANDed, the entry is appended only when it has findings, the counters grow by that commit's sizes |
| `Aggregate.FoldConcat` | lib/lint.js:35-64 | folding two stretches of commits in turn is folding their concatenation |
| `Aggregate.LintPages` | lib/lint.js:33-52 | one list of lint results per page |
| `Aggregate.FlattenValid` | lib/lint.js:53-55 | all commits of all pages are valid exactly when every page is |
| `Aggregate.FlattenFindings` | lib/lint.js:57-63 | some commit of some page has findings exactly when some page's report is non-empty |
| `Effects.PendingStatus` | lib/lint.js:26-30 | the first call: status `pending` on the head SHA under context `commitlint` with the fixed waiting description |
| `Effects.Description` | lib/lint.js:70 | the terminal description `found E problems, W warnings` with both counters in decimal |
| `Effects.TerminalStatus` | lib/lint.js:67-71 | the per-page status: `success` when the page is valid, otherwise `failure`, with the page's counters |
| `Effects.CommentActions` | lib/lint.js:77-91 | the comment call: edit or create when something was counted, delete or nothing otherwise, depending on the lookup |
| `Effects.PageTrace` | lib/lint.js:67-91 | the calls of one page: its terminal status, then its comment call |
| `Effects.PagesTrace` | lib/lint.js:33-92 | the calls of all pages, each page handled on its own in order |
| `Effects.RunTrace` | lib/lint.js:13-93 | the calls of a run: the pending status, then the calls of all pages |
| `Effects.Counted` | lib/lint.js:77 | the guard of the comment branch: some error or some warning was counted on the page |
| `Effects.StatusWrites` | lib/lint.js:26-71 | the number of `createStatus` calls in a trace |
| `Effects.LastStatus` | lib/lint.js:26-71 | what the status check under `commitlint` shows after a trace: the last status written, if any |
| `Effects.Lookup` | lib/lint.js:74 | an accurate comment lookup: the id of the bot comment that is there, if any |
| `Effects.Apply` | lib/lint.js:77-91 | what one call does to the bot comment: create gives a comment with the new id and the body, edit replaces the body of the comment with that id, delete removes the comment with that id, a status call leaves it alone |
| `Effects.ApplyAll` | lib/lint.js:77-91 | the bot comment after the calls of a trace, applied in order |
| `Effects.PageTraceFromLoop` | lib/lint.js:67-91 | a page's calls are determined by what the loop leaves behind: the report's validity and list and the two counters |
| `Effects.DescriptionInjective` | lib/lint.js:70 | `found E problems, W warnings` determines both E and W |
| `Effects.PageTraceShape` | lib/lint.js:67-71 | a page makes one or two calls. The first is the terminal status on the head SHA under context `commitlint`. It is `success` exactly when every commit is valid, `failure` exactly when some commit is invalid, and it carries both counters. No later call writes a status. |
| `Effects.WarningsOnlyIsSuccess` | lib/lint.js:53-71 | under commitlint's valid-iff-no-errors convention, a page with no errors is published as `success` with `found 0 problems, W warnings` |
| `Effects.CommentDecision` | lib/lint.js:77-91 | findings with a comment → edit that id; findings without one → create; no findings with a comment → delete that id; neither → no call |
| `Effects.PageReconcilesComment` | lib/lint.js:74-91 | after a page, the bot comment exists exactly when that page had findings. It then holds the formatted report, and an existing comment keeps its id. |
| `Effects.PageLastStatus` | lib/lint.js:67-71 | a page writes exactly one status: its terminal status |
| `Effects.RunTraceStep` | lib/lint.js:26-92 | a run starts with the pending status; each further page appends that page's calls |
| `Effects.PagesStatusWrites` | lib/lint.js:33-71 | the pages together write exactly one status per page |
| `Effects.PagesNeverPending` | lib/lint.js:67-71 | no page writes a pending status |
| `Effects.RunStatusWrites` | lib/lint.js:26-71 | the run's first call is the pending status with its fixed description; no later call is pending; the run writes `1 + pages` statuses |
| `Effects.RunLastStatus` | lib/lint.js:26-92 | after a run the status check shows the last page's terminal status, or still pending when there was no page |
| `Commitlint.Hosting.CreateStatus` | lib/lint.js:67-71 | appends one status call under context `commitlint` |
| `Commitlint.Hosting.CreateComment` | lib/lint.js:84 | appends one create-comment call |
| `Commitlint.Hosting.EditComment` | lib/lint.js:81 | appends one edit-comment call |
| `Commitlint.Hosting.DeleteComment` | lib/lint.js:89 | appends one delete-comment call |
| `Commitlint.Report.constructor` | lib/lint.js:35 | the summary starts valid and with no commits |
| `Commitlint.LintPage` | lib/lint.js:35-64 | the loop leaves `report.valid` as the AND of the validities. `report.commits` is the list of commits with findings, and the counters are the error and warning totals. Its invariant keeps "counted something ⇔ report non-empty". |
| `Commitlint.PublishPage` | lib/lint.js:67-91 | the calls are exactly the terminal status built from the loop's outcome, then the comment call `CommentActions` chooses |
| `Commitlint.HandlePage` | lib/lint.js:33-92 | the calls a page makes are exactly `PageTrace` of its lint results |
| `Commitlint.Run` | lib/lint.js:13-93 | the calls of a run are exactly the pending status followed by every page's calls |
| `Commitlint.ScenarioLint` | lib/lint.js:48-52 | in the two-commit scenario both messages reach the linter unchanged |
| `Commitlint.ScenarioFold` | lib/lint.js:48-64 | in the scenario the page is invalid, with 1 error, 0 warnings and only A listed |
| `Commitlint.EndToEndScenario` | lib/lint.js:13-93 | the scenario's run is: pending, `failure` with `found 1 problems, 0 warnings`, then one created comment listing A's error only |
| `Pagination.LastPageHidesEarlierFailure` | lib/lint.js:35-71 | as written, a PR with an invalid commit on page 1 and a clean page 2 ends with status `success`, `found 0 problems, 0 warnings` |
| `Pagination.LastPageDeletesEarlierComment` | lib/lint.js:74-91 | as written, the comment created for page 1's findings is deleted by page 2 |
| `Pagination.CorrectedRunTrace` | lib/lint.js:33-92 | the corrected run: pending, then one report over the commits of every page, published once with one comment call |
| `Pagination.CorrectedRunCoversAllPages` | lib/lint.js:33-92 | with one report for all pages, the run writes two statuses. The last one is `success` exactly when every page is valid and counts all pages, and the bot comment exists exactly when some page had findings. |
| `Pagination.CorrectedRunKeepsEarlierFailure` | lib/lint.js:35-71 | on that same input, the corrected run ends in `failure`, `found 1 problems, 0 warnings` |

## Left out

- `@commitlint/core`'s `lint` and `load` are an external rule engine and configuration loader (lib/lint.js:2, 36, 49). `lint` is a pure function parameter with the rules fixed, and loading the rules on every page is not modelled.
- `./config`, `./format` and `./comments` are not part of this model. `format` is a function parameter. The comment lookup's result is an input for each page.
- `Run` does NOT tie page `p`'s lookup to what earlier pages created or deleted. `PageReconcilesComment` assumes the lookup reports the comment that is actually there.
- GitHub API transport, `paginate` and reading the event payload are network I/O (lib/lint.js:15-23). Actions carry the head SHA, the status context and the comment id or body. They do not carry the owner, the repository or the pull request number.
- `async`/`await` is left out. The calls are strictly sequential, so the trace order is the call order.
- Failed API calls and exceptions are left out. A failure aborts the run in the source, and there is no recovery code to model.
- JavaScript strings are modelled at the level of characters. JavaScript strings are UTF-16 code units, and `.` without the `u` flag matches one code unit. A character outside the Basic Multilingual Plane is two code units there but one `char` here.
- The model holds at most one bot comment: in `Apply` a create replaces any comment already there, where the platform would then hold two. Under an accurate lookup (`Lookup`), a create happens only when there is no comment, so no property proved here depends on this.
- Counters are unbounded naturals. JavaScript numbers are doubles, exact only up to 2^53.
- Aggregate.ValidIffNoErrors: relies on commitlint's convention that a result is valid exactly when it has no errors. This is stated as a precondition, because the rule engine is not modelled.

## Findings

| source | as written | input that shows it | evidently intended | confidence | as-written member | corrected member |
|---|---|---|---|---|---|---|
| lib/lint.js:35-40 | `report`, `errorsCount` and `warnsCount` are created inside the paginate callback. Every page therefore publishes its own terminal status and makes its own comment call, and the last page decides what the pull request shows. | A pull request with more commits than fit on one page, with an invalid commit on page 1 and a clean page 2. It ends with status `success`, `found 0 problems, 0 warnings`, and page 1's comment is deleted again. | One report and one pair of counters for the whole pull request, published once after the last page | medium; not executed | `Pagination.LastPageHidesEarlierFailure` | `Pagination.CorrectedRunCoversAllPages` |

The imperative `HandlePage` and `Run` model the per-page behaviour as written.
`CorrectedRunTrace` (in `Pagination`) is the corrected behaviour.
`CorrectedRunKeepsEarlierFailure` shows that, on the same input, it ends in `failure`.
