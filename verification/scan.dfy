/** `scanDriveStep`: one bounded invocation of the chunked, index-offset
    scan, and `countAllFiles`, the helper it uses for the total. */
module Scan {
  import opened Results
  import opened Decimal
  import opened Progress
  import opened Audit

  /** Only the first `MaxFiles` files of the listing are ever scanned. */
  const MaxFiles: nat := 30
  /** At most `BatchSize` files are scanned per invocation. */
  const BatchSize: nat := 10

  /** One run of the non-folder file search: the files it enumerates, or the
      message of the exception it throws. */
  datatype Enumeration = Listed(files: seq<FileMeta>) | Threw(message: string)

  /** What the host services do during an invocation: the fixed listing of
      non-folder files, and the failure (if any) of opening the 'Drive Audit'
      sheet, of the scan's own search, and of the separate counting search. */
  datatype Host = Host(
    listing: seq<FileMeta>,
    sheetFault: Option<string>,
    searchFault: Option<string>,
    countFault: Option<string>)

  /** The 'Drive Audit' sheet: None while the spreadsheet has no such sheet. */
  type Sheet = Option<seq<Row>>

  /** Why an invocation finished. */
  datatype Status =
    | SheetUnavailable(error: string)
    | Complete(scanned: int)
    | UnexpectedFailure(error: string)

  /** What an invocation returns to its caller: done with a status (shown to
      the user as its message), or the index to resume from. */
  datatype Reply = Done(status: Status) | Continue(nextIndex: int)

  /** What one invocation leaves behind: its reply, the percentage it wrote
      before deciding whether to finish (None when an error ended it before
      that write), the property cell, and the sheet. */
  datatype StepOutcome = StepOutcome(reply: Reply, progress: Option<int>, store: Store, sheet: Sheet)

  const SheetAccessFailed := "\U{274C} Unable to access sheet: "
  const UnexpectedError := "\U{274C} Unexpected error: "

  /** The message of a finished invocation; never empty, so the caller always
      has something to show. */
  function Message(status: Status): (m: string)
    ensures |m| > 0
  {
    match status
    case SheetUnavailable(e) => SheetAccessFailed + e
    case Complete(scanned) =>
      "\U{2705} Scan complete: scanned " + IntToString(scanned) + " of " + IntToString(MaxFiles) + " files."
    case UnexpectedFailure(e) => UnexpectedError + e
  }

  function Search(h: Host): Enumeration {
    match h.searchFault
    case Some(m) => Threw(m)
    case None => Listed(h.listing)
  }

  function CountSearch(h: Host): Enumeration {
    match h.countFault
    case Some(m) => Threw(m)
    case None => Listed(h.listing)
  }

  predicate Healthy(h: Host) {
    h.sheetFault.None? && h.searchFault.None?
  }

  /** The number of files of a listing the scan covers when nothing fails. */
  function Limit(listing: seq<FileMeta>): nat {
    Min(|listing|, MaxFiles)
  }

  /** The total the percentage is computed against: the file count capped at
      `MaxFiles`, or 0 when counting throws. */
  function Total(h: Host): (n: nat)
    ensures n <= MaxFiles && n <= |h.listing|
  {
    if h.countFault.Some? then 0 else Limit(h.listing)
  }

  /** The sheet the rows go to: the existing one, or a new one holding the header. */
  function OpenSheet(sheet: Sheet): seq<Row> {
    match sheet
    case Some(rows) => rows
    case None => [Header]
  }

  /** Listing position after skipping the files earlier invocations scanned;
      a negative start skips nothing. */
  function SkipTo(n: nat, start: int): (p: nat)
    ensures p <= n
    ensures 0 <= start <= n ==> p == start
  {
    if start <= 0 then 0 else Min(start, n)
  }

  /** The number of files one invocation scans from `start` in a listing of
      `n` files. */
  function BatchLength(n: nat, start: int): (k: nat)
    ensures k <= BatchSize
    ensures SkipTo(n, start) + k <= n
    ensures start >= MaxFiles ==> k == 0
    ensures start <= MaxFiles ==> start + k <= MaxFiles
    ensures k < BatchSize ==> SkipTo(n, start) + k == n || start + k >= MaxFiles
  {
    Min(Min(BatchSize, n - SkipTo(n, start)), if start >= MaxFiles then 0 else MaxFiles - start)
  }

  /** The rows one healthy invocation appends. */
  function Appended(files: seq<FileMeta>, start: int): seq<Row> {
    var p := SkipTo(|files|, start);
    AuditRows(files[p..p + BatchLength(|files|, start)])
  }

  /** Reference definition of one invocation of `scanDriveStep(start)`. */
  function Step(h: Host, start: int, store: Store, sheet: Sheet): (o: StepOutcome)
    ensures o.reply.Done? ==> o.store == Some(Literal("100"))
    ensures o.reply.Continue? ==> o.reply.nextIndex == start + BatchSize < MaxFiles
  {
    match h.sheetFault
    case Some(m) => StepOutcome(Done(SheetUnavailable(m)), None, SetProgress(store, Literal("100")), sheet)
    case None =>
      match h.searchFault
      case Some(m) => StepOutcome(Done(UnexpectedFailure(m)), None, SetProgress(store, Literal("100")), Some(OpenSheet(sheet)))
      case None => ScanListing(h, start, store, OpenSheet(sheet))
  }

  /** The normal path of an invocation, once the sheet is open and the search
      has not thrown. */
  function ScanListing(h: Host, start: int, store: Store, audit: seq<Row>): (o: StepOutcome)
    ensures o.reply.Done? ==> o.store == Some(Literal("100"))
    ensures o.reply.Continue? ==> o.reply.nextIndex == start + BatchSize < MaxFiles
  {
    var n := |h.listing|;
    var k := BatchLength(n, start);
    Conclude(start + k, SkipTo(n, start) + k >= n, NewProgress(start + k, Total(h)), store,
             Some(audit + Appended(h.listing, start)))
  }

  /** The end of an invocation that scanned up to index `scanned`: write the
      percentage, then finish (pinning the progress at 100) once the cap is
      reached or the listing is exhausted, and otherwise hand back `scanned`
      as the next start. */
  function Conclude(scanned: int, exhausted: bool, percent: int, store: Store, sheet: Sheet): (o: StepOutcome)
    ensures o.reply.Done? <==> scanned >= MaxFiles || exhausted
    ensures o.progress == Some(percent)
    ensures o.reply.Done? ==> o.store == Some(Literal("100"))
    ensures o.reply.Continue? ==> o.reply.nextIndex == scanned && o.store == SetProgress(store, Rendered(percent))
    ensures o.sheet == sheet
  {
    var written := SetProgress(store, Rendered(percent));
    if scanned >= MaxFiles || exhausted then
      StepOutcome(Done(Complete(scanned)), Some(percent), SetProgress(written, Literal("100")), sheet)
    else
      StepOutcome(Continue(scanned), Some(percent), written, sheet)
  }

  /** A healthy invocation appends its rows at the end of the sheet: at most
      `BatchSize` of them, none once `start` has reached `MaxFiles`, never
      taking the index past `MaxFiles`, and they are the rows of the listing
      entries from `start` on, in order. */
  lemma {:induction false} StepAppends(h: Host, start: int, store: Store, sheet: Sheet)
    requires Healthy(h)
    ensures Step(h, start, store, sheet).sheet == Some(OpenSheet(sheet) + Appended(h.listing, start))
    ensures |Appended(h.listing, start)| <= BatchSize
    ensures start >= MaxFiles ==> Appended(h.listing, start) == []
    ensures start <= MaxFiles ==> start + |Appended(h.listing, start)| <= MaxFiles
    ensures 0 <= start <= |h.listing| ==>
      Appended(h.listing, start) == AuditRows(h.listing[start..start + |Appended(h.listing, start)|])
  {
  }

  /** A healthy invocation from a non-negative start finishes exactly when
      the cap is reached or the listing is exhausted, and otherwise hands
      back the index just past its batch, which is beyond `start`. */
  lemma {:induction false} StepDecision(h: Host, start: int, store: Store, sheet: Sheet)
    requires Healthy(h) && 0 <= start
    ensures var scanned := start + |Appended(h.listing, start)|;
      && (Step(h, start, store, sheet).reply.Done? <==> scanned >= MaxFiles || scanned >= |h.listing|)
      && (Step(h, start, store, sheet).reply.Continue? ==>
            Step(h, start, store, sheet).reply.nextIndex == scanned > start)
  {
  }

  /** Every invocation leaves a percentage in [0, 100] in the store: 100 when
      it finishes, whatever the path; otherwise the rounded share of the files
      scanned so far in `Total(h)`, which is then below 100 and no smaller than
      the share before the batch. */
  lemma {:induction false} StepPercent(h: Host, start: int, store: Store, sheet: Sheet)
    requires 0 <= start
    ensures var o := Step(h, start, store, sheet);
      && StoredPercent(o.store) == Some(if o.reply.Done? then 100 else NewProgress(start + BatchSize, Total(h)))
      && (o.reply.Continue? ==> 0 <= NewProgress(start + BatchSize, Total(h)) < 100)
      && NewProgress(start, Total(h)) <= StoredPercent(o.store).value
  {
    var o := Step(h, start, store, sheet);
    ProgressRange(start, Total(h));
    if o.reply.Done? {
      ReadFull(o.store);
    } else {
      var p := NewProgress(start + BatchSize, Total(h));
      assert Healthy(h);
      assert SkipTo(|h.listing|, start) == start;
      assert o.store == SetProgress(store, Rendered(p));
      ReadRendered(store, p);
      ProgressRange(start + BatchSize, Total(h));
      if Total(h) > 0 {
        ProgressBelowFull(start + BatchSize, Total(h));
      }
      ProgressMonotone(start, start + BatchSize, Total(h));
    }
  }

  /** The percentage an invocation writes before it decides whether to
      finish, which a poller can read until a finishing invocation overwrites
      it with 100. It is written exactly when the sheet opened and the search
      did not throw. It is then the rounded share of the files scanned so
      far, at most 100 and no smaller than the share before the batch; a
      continuing invocation leaves it in the cell. */
  lemma {:induction false} StepWritten(h: Host, start: int, store: Store, sheet: Sheet)
    requires 0 <= start
    ensures var o := Step(h, start, store, sheet);
      && (o.progress.Some? <==> Healthy(h))
      && (Healthy(h) ==> o.progress == Some(NewProgress(start + |Appended(h.listing, start)|, Total(h))))
      && (o.progress.Some? ==> NewProgress(start, Total(h)) <= o.progress.value <= 100)
      && (o.reply.Continue? ==> StoredPercent(o.store) == o.progress)
  {
    var o := Step(h, start, store, sheet);
    if Healthy(h) {
      var p := NewProgress(start + |Appended(h.listing, start)|, Total(h));
      assert o.progress == Some(p);
      ProgressRange(start + |Appended(h.listing, start)|, Total(h));
      ProgressMonotone(start, start + |Appended(h.listing, start)|, Total(h));
      if o.reply.Continue? {
        ReadRendered(store, p);
      }
    }
  }

  /** When the counting search throws, the total is 0, so a healthy
      invocation writes 0 however many files it and earlier invocations
      scanned, and a continuing one leaves 0 in the cell. */
  lemma {:induction false} StepUncounted(h: Host, start: int, store: Store, sheet: Sheet)
    requires 0 <= start && Healthy(h) && h.countFault.Some?
    ensures var o := Step(h, start, store, sheet);
      && o.progress == Some(0)
      && (o.reply.Continue? ==> StoredPercent(o.store) == Some(0))
  {
    StepWritten(h, start, store, sheet);
  }

  /** The terminal paths for a failing host: the store is pinned at 100, the
      message names the failure, and the sheet is left as it was (sheet
      access) or opened without new rows (search). */
  lemma {:induction false} StepFaults(h: Host, start: int, store: Store, sheet: Sheet)
    requires !Healthy(h)
    ensures var o := Step(h, start, store, sheet);
      && o.reply.Done?
      && StoredPercent(o.store) == Some(100)
      && (h.sheetFault.Some? ==> o.reply.status == SheetUnavailable(h.sheetFault.value) && o.sheet == sheet)
      && (h.sheetFault.None? ==> o.reply.status == UnexpectedFailure(h.searchFault.value) && o.sheet == Some(OpenSheet(sheet)))
  {
    ReadFull(store);
  }

  /** `countAllFiles`: walks the whole enumeration, counting; 0 when the
      search throws. */
  method CountAllFiles(e: Enumeration) returns (count: nat)
    ensures e.Listed? ==> count == |e.files|
    ensures e.Threw? ==> count == 0
  {
    match e
    case Threw(_) =>
      count := 0;
    case Listed(files) =>
      count := 0;
      var pos := 0;
      while pos < |files|
        invariant pos <= |files|
        invariant count == pos
      {
        pos := pos + 1;
        count := count + 1;
      }
  }

  /** The skipping loop: advances past the files earlier invocations scanned. */
  method SkipScanned(files: seq<FileMeta>, start: int) returns (pos: nat)
    ensures pos == SkipTo(|files|, start)
  {
    pos := 0;
    var i := 0;
    while i < start && pos < |files|
      invariant pos == i <= |files|
      invariant i == 0 || i <= start
    {
      pos := pos + 1;
      i := i + 1;
    }
  }

  /** The scanning loop: one row per file from `from`, while the listing has
      more files, the batch is not full and the cap is not reached. */
  method ScanBatch(files: seq<FileMeta>, start: int, from: nat) returns (rows: seq<Row>, processed: nat)
    requires from == SkipTo(|files|, start)
    ensures processed == BatchLength(|files|, start)
    ensures rows == AuditRows(files[from..from + processed])
  {
    var pos := from;
    processed := 0;
    rows := [];
    while pos < |files| && processed < BatchSize && start + processed < MaxFiles
      invariant pos == from + processed <= |files|
      invariant processed <= BatchSize
      invariant processed == 0 || start + processed <= MaxFiles
      invariant rows == AuditRows(files[from..pos])
    {
      var row := BuildRow(files[pos]);
      assert files[from..pos + 1] == files[from..pos] + [files[pos]];
      AuditRowsConcat(files[from..pos], [files[pos]]);
      rows := rows + [row];
      pos := pos + 1;
      processed := processed + 1;
    }
  }

  /** `scanDriveStep(start)` as the source performs it: open the sheet (or
      finish with an error), search (or finish with an error), then scan. */
  method ScanDriveStep(h: Host, start: int, store: Store, sheet: Sheet) returns (o: StepOutcome)
    ensures o == Step(h, start, store, sheet)
  {
    if h.sheetFault.Some? {
      o := StepOutcome(Done(SheetUnavailable(h.sheetFault.value)), None, SetProgress(store, Literal("100")), sheet);
      return;
    }
    var audit := OpenSheet(sheet);
    match Search(h)
    case Threw(m) =>
      o := StepOutcome(Done(UnexpectedFailure(m)), None, SetProgress(store, Literal("100")), Some(audit));
    case Listed(files) =>
      o := ScanFiles(h, files, start, store, audit);
  }

  /** The body of the source's second `try`: count, skip `start` files, scan
      a batch, append its rows, store the percentage, and decide between
      finishing and continuing. */
  method ScanFiles(h: Host, files: seq<FileMeta>, start: int, store: Store, audit: seq<Row>)
    returns (o: StepOutcome)
    requires files == h.listing
    ensures o == ScanListing(h, start, store, audit)
  {
    var counted := CountAllFiles(CountSearch(h));
    var total := Min(counted, MaxFiles);
    var pos := SkipScanned(files, start);
    var rows, processed := ScanBatch(files, start, pos);
    var newProgress := NewProgress(start + processed, total);
    o := Conclude(start + processed, pos + processed >= |files|, newProgress, store, Some(audit + rows));
  }
}
