# Drive Audit scan step, modelled in Dafny

The Drive Audit script (`Code.js`) lists the non-folder files of a Google Drive
and writes one seven-column row per file into a 'Drive Audit' sheet. A single
invocation of `scanDriveStep(startIndex)` does a bounded amount of that work:

- it skips the first `startIndex` files of the listing;
- it scans at most 10 more (`batchSize`), and never goes past the first 30
  (`MAX_FILES`);
- it appends one row per scanned file, with a fallback default for every
  metadata read that throws;
- it stores a rounded progress percentage under the `'progress'` script
  property;
- it returns either `{done: true, message}` or `{done: false, nextIndex}`.

The caller then invokes it again with `nextIndex`, so the scan is a small
resumable state machine. The model also covers `countAllFiles`, which gives
the total for the percentage, and `resetProgress`/`getProgress` on the
property cell.

Modules, one per file:

- `Results` (`results.dfy`): `Option` and `Result`. A `Result` is a host read
  that either returns a value or throws with a message.
- `Decimal` (`decimal.dfy`): `Number.prototype.toString` on integers below
  10^21 in magnitude (where JavaScript still writes every digit), a decimal
  parser, and their round trip. The parser is how a poller reads the
  stored percentage.
- `Progress` (`progress.dfy`): the property cell and the percentage formula.
  The formula uses exact integer round-half-up.
- `Audit` (`audit.dfy`): the file metadata with its fallible reads. `AuditRow`
  is the reference definition of a file's row. `BuildRow` follows the source's
  assignment-by-assignment body with its early exit.
- `Scan` (`scan.dfy`): one invocation.
  - `Step` is the closed-form reference definition.
  - `ScanDriveStep` and its helpers (`CountAllFiles`, `SkipScanned`,
    `ScanBatch`, `ScanFiles`) follow the source's loops. They are proved
    equal to `Step`.
  - The `Step…` lemmas state what one invocation guarantees.
- `Driver` (`driver.dfy`): the caller's loop. `Trace` lists the outcomes of
  re-invoking with `nextIndex` until the reply is done. The listing stays the
  same across a run, but each invocation has its own host failures. Lemmas
  about a run:
  - it stops;
  - how many invocations it takes;
  - the rows it writes, with and without failures;
  - how the percentage in the property cell evolves.

Host services become values.

- A `Host` is what one invocation sees. It holds:
  - the listing (`seq<FileMeta>`);
  - whether opening the sheet throws;
  - whether the scan's own file search throws;
  - whether the separate counting search throws.
- An `Environment` is what a run sees: one listing, and for each invocation
  of the run (by its position) which of the three calls throw.
- The sheet is `Option<seq<Row>>`. `None` means the spreadsheet has no
  'Drive Audit' sheet yet.
- The property cell is `Option<Property>`. A `Property` is either:
  - a literal text: `'0'` from `resetProgress`, or `'100'` from every
    finishing path;
  - the decimal text of a number (`newProgress.toString()`). It is kept as the
    number and rendered by `GetProgress` when read, so a read returns the same
    text the source stores.

`Code.js` resumes a scan only through the index offset in the reply. A
finish after an error also returns `done: true` and stores `'100'`, like a
completed scan; only the message differs.

## Model

| member | source | states |
|---|---|---|
| Audit.FirstFailure | Code.js:61-69 | The metadata reads happen in the order owner, MIME type, last update, sharing, editors, viewers. The result is the first read that throws: every earlier read succeeded and that one failed, or all six succeeded. |
| Audit.BuildRow | Code.js:55-82 | The source's per-file body builds the reference row `AuditRow`. It has 7 columns: id, name, MIME type, owner, modified, shared, permission count. Id and name are always present. A throwing read leaves that field and every later field at 'Unknown', 'N/A', 'Private' or 0. The count is 0 exactly when some read threw. Otherwise it is editors + viewers + 1. |
| Audit.AuditRowsConcat | Code.js:53-83 | The rows of two consecutive runs of files are the rows of each run, one after the other. Rows are pushed per file, in listing order. |
| Audit.AuditRowsJoin | Code.js:84-87 | Rows of adjacent listing slices join into the rows of the combined slice. Appending batch after batch therefore yields the rows of the whole range. |
| Decimal.NatToStringCanonical | Code.js:97 | The decimal text of a number is non-empty and all digits. It starts with '0' only for 0. |
| Decimal.NatRoundTrip | Code.js:97 | Parsing the decimal text of a natural number gives that number back. |
| Decimal.IntToString | Code.js:97 | `toString()` on an integer: the text is never empty, and it starts with '-' exactly for a negative integer. Decimal.IntRoundTrip is its partner. |
| Decimal.IntRoundTrip | Code.js:97 | Parsing the text of any integer, with '-' for negatives, gives that integer back. |
| Decimal.HundredText | Code.js:101 | The literal '100' written on finishing paths parses as 100. It is also the text of the number 100. |
| Progress.GetProgress | Code.js:20-22 | A read is never empty. It is the stored text, or '0' when nothing is stored or the stored text is empty (the `\|\|` fallback). |
| Progress.SetProgress | Code.js:97 | `setProperty('progress', …)`, as at Code.js:18, 38, 97, 101 and 109. This is a definition without a contract: afterwards the cell holds exactly the written value. Progress.SetThenGet states what a later read returns. |
| Progress.ResetProgress | Code.js:17-18 | After a reset, a read gives '0', whatever was stored before. |
| Progress.SetThenGet | Code.js:17-22 | After a write of non-empty text, or of a rendered number, a read returns exactly the written text. |
| Progress.ReadRendered | Code.js:94-97 | A percentage written as `newProgress.toString()` reads back as the same number. |
| Progress.ReadFull | Code.js:101 | The '100' written on finishing paths reads back as 100. |
| Progress.RoundHalfUp | Code.js:95 | `Math.round(a / b)` for a positive `b`, as exact integer arithmetic. This is a definition without a contract. Progress.RoundHalfUpNearest (nearest integer, halves up) and Progress.RoundHalfUpMonotone state its properties. |
| Progress.NewProgress | Code.js:94-96 | The percentage formula `totalFiles ? min(round(scanned / total · 100), 100) : 0`. For a non-negative count it lies in [0, 100]. ProgressRange, ProgressMonotone, ProgressBelowFull and ProgressAtTotal state the rest. |
| Progress.RoundHalfUpNearest | Code.js:95 | The rounded value r satisfies r - 1/2 <= a/b < r + 1/2. That is `Math.round(a / b)` for a positive total. |
| Progress.RoundHalfUpMonotone | Code.js:95 | Rounding is monotone in the numerator. |
| Progress.ProgressRange | Code.js:94-96 | The percentage is at most 100. It is 0 when the total is 0, and never negative for a non-negative count. |
| Progress.ProgressMonotone | Code.js:94-96 | More files scanned never gives a smaller percentage. |
| Progress.ProgressBelowFull | Code.js:94-96 | Fewer files scanned than the total (the total is at most 30 here) gives a percentage below 100. |
| Progress.ProgressAtTotal | Code.js:94-96 | Scanning exactly the total gives 100. |
| Scan.Message | Code.js:37-110 | Every terminal reply carries a non-empty message. |
| Scan.Total | Code.js:45 | `totalFiles`: the count capped at 30, or 0 when the counting search throws. It never exceeds 30 or the number of files listed. |
| Scan.OpenSheet | Code.js:32-36 | The sheet rows go to: the existing 'Drive Audit' sheet, or a new one holding only the header row that `setupAuditSheet` appends (Code.js:133-143). This is a definition without a contract; StepFaults and StepAppends state what an invocation does with it. |
| Scan.SkipTo | Code.js:48 | After skipping, the position is within the listing. From a start inside the listing it is the start itself. |
| Scan.BatchLength | Code.js:43-53 | A batch scans at most 10 files. It stays within the listing after the skip. It scans none from a start of 30 or more, and never takes the index past 30. A short batch means the listing is exhausted or the cap is reached. |
| Scan.Step | Code.js:25-111 | Every finishing reply stores '100'. A continuing reply resumes at start + 10, below 30. |
| Scan.ScanListing | Code.js:42-107 | The normal path: every finishing reply stores '100', and a continuing reply resumes at start + 10, below 30. |
| Scan.StepAppends | Code.js:43-87 | A healthy invocation appends at the end of the sheet. It appends at most 10 rows, none from a start of 30 or more, and never takes the index past 30. The rows are those of the listing entries from `start`, in order. |
| Scan.StepDecision | Code.js:100-107 | From a non-negative start, the reply is done exactly when start + processed >= 30 or start + processed >= the listing length. Otherwise nextIndex = start + processed, which is greater than start. |
| Scan.StepPercent | Code.js:94-101 | After any invocation, the read percentage is 100 if it finished. Otherwise it is `min(round(100·(start+processed)/total), 100)`, with total = min(count, 30) or 0. A continuing invocation leaves it in [0, 100) and no smaller than the percentage for `start`. |
| Scan.StepWritten | Code.js:94-97 | An invocation writes `newProgress` exactly when the sheet opened and the search did not throw. The value is the rounded share of start + processed in the total. It lies between the share for `start` and 100. A continuing invocation leaves that value readable in the cell. |
| Scan.StepUncounted | Code.js:45-97 | When the counting search throws, the total is 0, so a healthy invocation writes 0 however many files have been scanned. A continuing one leaves 0 readable. |
| Scan.StepFaults | Code.js:31-110 | A sheet failure or search failure finishes at once and pins the percentage at 100. On a sheet failure the sheet is unchanged. On a search failure it is opened without new rows. The status carries the error's message. |
| Scan.CountAllFiles | Code.js:116-128 | The count is the number of files listed, or 0 when the search throws. |
| Scan.SkipScanned | Code.js:48 | The skipping loop stops at the position `SkipTo` defines. |
| Scan.ScanBatch | Code.js:50-83 | The loop scans exactly `BatchLength` files. Its rows are those of the files from the skip position, in order. |
| Scan.ScanFiles | Code.js:42-107 | The body of the second `try` computes the normal-path outcome `ScanListing`. |
| Scan.ScanDriveStep | Code.js:25-111 | The source-shaped invocation computes exactly the reference `Step`. |
| Driver.Trace | Code.js:100-107 | A run consists of at least one invocation. |
| Driver.TraceEnds | Code.js:100-107 | Every run stops. Its last reply is done and every earlier one continues. |
| Driver.TraceFaulted | Code.js:31-110 | An invocation whose sheet or search fails is the last of the run. |
| Driver.TraceLength | Code.js:43-107 | A run from `start` in which no sheet or search fails takes max(1, ⌈(min(n, 30) − start) / 10⌉) invocations. |
| Driver.StepCovers | Code.js:48-107 | One healthy invocation appends the rows of entries `start..next`. `next` is within min(n, 30). It equals min(n, 30) when the invocation finishes, and the returned nextIndex otherwise. |
| Driver.TraceCovers | Code.js:45-107 | A run from `start` in which no sheet or search fails leaves the sheet holding its earlier rows followed by the rows of entries `start..min(n, 30)`. Each entry appears exactly once, in listing order. |
| Driver.TraceCoversPrefix | Code.js:26-107 | A run from 0 in which no sheet or search fails writes the rows of exactly the first min(n, 30) files, in order, after the sheet's earlier rows (the header row for a new sheet). |
| Driver.TraceWritesPrefix | Code.js:31-110 | Whatever fails, in whichever invocation, a run from `start` leaves the sheet unchanged (as when it cannot be opened at once), or holding its earlier rows followed by the rows of entries `start..j` for some j ≤ min(n, 30), each once and in listing order. |
| Driver.TraceProgress | Code.js:45-107 | Across a run from a non-negative start, with the counting search failing in every invocation or in none, the percentage read after each invocation is a number. The sequence never decreases, stays below 100 before the last invocation, and is 100 after it. |
| Driver.TracePolled | Code.js:94-107 | Under the same conditions, every value the run writes to the cell is a number. A continuing invocation contributes its one write (Code.js:97). A finishing invocation contributes its share and then '100'. An invocation that fails early contributes only '100'. In write order the values never decrease and end at 100. |

## Left out

- Menu, sidebar and formatting are not modelled: `onOpen`, `openSidebar`,
  `formatAuditSheet`, and the column-width, wrap and auto-resize calls at
  Code.js:88-91. When they succeed they only change how the sheet looks; a
  throw from them is listed under Scan.ScanDriveStep below.
- `setupAuditSheet`: only its effect on the rows is kept (a new sheet holds
  the header row). Clearing and formatting are not modelled.
- Scan.Step: a completing invocation also calls `addSummaryRow`. The model's
  sheet does not include that summary block. Driver.TraceCovers therefore
  describes the audit rows that precede it.
- `console.log` calls are dropped.
- DriveApp, SpreadsheetApp and PropertiesService are replaced by the `Host`,
  the `Sheet` value and the `Store` value. Each outcome is a value, not a
  side effect.
- Progress.RoundHalfUpNearest: `Math.round` on JavaScript doubles is
  modelled as exact round-half-up. The two agree for totals up to 30 and
  |startIndex + processed| below 10^11:
  - every exact half has a denominator that is a power of two, so the double
    is exact;
  - every other quotient is at least 1/60 away from a half. The two double
    operations (division, then times 100) err by far less than that at this
    size.

  Beyond that bound the double result can differ by one.
- Scan.Step: JavaScript numbers are modelled as exact integers. For a
  `startIndex` of magnitude 10^11 or more the model can differ from the
  source:
  - the rounded share can be off by one;
  - above 2^53, `startIndex + processed` is not exact in the source;
  - from 10^21, `toString` and the completion message use exponent form
    (`1e+21`), while the model writes every digit.

  The caller passes only 0 or a returned `nextIndex`, which stays below 30.
- Scan.ScanDriveStep: only four throw points are modelled:
  - opening the sheet;
  - the scan's search;
  - the counting search;
  - each metadata read.

  A throw while iterating, reading a file's id or name, writing the rows, or
  adding the summary row is not modelled. The source turns each of those
  into an "Unexpected error" reply. Three unmodelled throws leave a state
  that no modelled path produces:
  - With no 'Drive Audit' sheet, Code.js:34 creates one, and then
    `setupAuditSheet` (Code.js:35, which calls `clear`, `appendRow` and
    `formatAuditSheet` at Code.js:142-144) can throw. The reply is "Unable to
    access sheet" and '100' is stored, but a new sheet is left behind, empty
    or holding only the header row.
  - The auto-resize, column-width or wrap calls at Code.js:88-91 can throw
    after the rows are written (Code.js:87). The rows stay on the sheet,
    there is no write at Code.js:97, and the reply is "Unexpected error" with
    '100' stored.
  - `addSummaryRow` or `formatAuditSheet` at Code.js:102-103 can throw after
    '100' is stored. The reply is then "Unexpected error" instead of the
    completion message.
- Scan.StepFaults: a sheet fault is taken to happen before any sheet is
  created, so the model leaves the sheet as it was. The case where setting
  up a new sheet throws is described under Scan.ScanDriveStep above.
- Scan.Step: every modelled invocation returns a reply. Invocations that end
  with no reply at all are not modelled, and for them the promise that every
  finishing path stores '100' does not hold:
  - `getScriptProperties()` or `getActiveSpreadsheet()` throws (Code.js:27-28,
    outside both `try` blocks); nothing is stored.
  - `setProperty` throws inside a `catch` (Code.js:38 or Code.js:109).
  - The host's execution-time limit stops the invocation partway. This can
    happen during `countAllFiles`'s full enumeration (Code.js:118-123), or
    after the rows are written (Code.js:87) but before the percentage is
    (Code.js:97). Rows can then be on the sheet with no progress write.
- Audit.BuildRow: `getOwner()` is called twice by the source. It is modelled
  as one read, which either yields an owner (or none) or throws.
- Audit.FileMeta: dates, MIME types and owner emails are opaque strings. The
  sheet's own conversion of a `Date` is not modelled.
- Driver.Trace: the listing stays the same across the invocations of a run.
  The source does not handle a listing that changes between invocations.
  Which calls throw may differ from one invocation to the next.
- Driver.TraceProgress: a poller's reading of the property is modelled as
  parsing the text as a decimal integer (`StoredPercent`). The sidebar page
  that polls `getProgress` is not part of this model. These readings are
  taken between invocations; Driver.TracePolled covers the extra value a
  finishing invocation writes before '100'.
- Driver.TraceProgress: the percentage is promised to rise only when the
  counting search fails in every invocation of the run or in none. If it
  succeeds in one invocation and throws in a later one, the later total is 0
  and the source writes 0 after a larger share (Scan.StepUncounted).
- Driver.TracePolled: the same condition on the counting search applies.
- The caller's loop itself lives in the sidebar page, which is not part of
  this model. `Driver.Trace` models the re-invocation with `nextIndex` that
  the reply is designed for.
- Scan.Step: a non-integer `startIndex` is not modelled. The start is an
  integer, and a negative start skips nothing, as the source's loop does.
