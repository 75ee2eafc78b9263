/** One audited file: the metadata the scan reads from it and the seven-column
    row it writes for it. */
module Audit {
  import opened Results

  /** A non-folder file of the listing. Its id and name are always readable;
      each of the other reads may throw. `owner` is None for a file without an
      owner, and its failure covers both `getOwner()` and `getEmail()`. */
  datatype FileMeta = FileMeta(
    id: string,
    name: string,
    owner: Result<Option<string>>,
    mimeType: Result<string>,
    lastUpdated: Result<string>,
    shared: Result<bool>,
    editors: Result<nat>,
    viewers: Result<nat>)

  /** A spreadsheet cell: text, or the numeric permission count. */
  datatype Cell = Text(text: string) | Number(value: int)

  type Row = seq<Cell>

  const Unknown := "Unknown"
  const NotAvailable := "N/A"
  const Private := "Private"
  const Shared := "Shared"

  /** The header row a freshly created 'Drive Audit' sheet starts with. */
  const Header: Row := [Text("File ID"), Text("File Name"), Text("MIME Type"), Text("Owner"),
                        Text("Last Modified"), Text("Shared Status"), Text("Permission Count")]

  /** Stages of the metadata reads, in the order the scan performs them. */
  const OwnerStage := 0
  const MimeStage := 1
  const ModifiedStage := 2
  const SharedStage := 3
  const EditorsStage := 4
  const ViewersStage := 5
  const AllRead := 6

  /** The first stage whose read throws, or `AllRead` when none does. */
  function FirstFailure(f: FileMeta): (k: nat)
    ensures k <= AllRead
    ensures k > OwnerStage ==> f.owner.Ok?
    ensures k > MimeStage ==> f.mimeType.Ok?
    ensures k > ModifiedStage ==> f.lastUpdated.Ok?
    ensures k > SharedStage ==> f.shared.Ok?
    ensures k > EditorsStage ==> f.editors.Ok?
    ensures k > ViewersStage ==> f.viewers.Ok?
    ensures k == OwnerStage ==> f.owner.Failed?
    ensures k == MimeStage ==> f.mimeType.Failed?
    ensures k == ModifiedStage ==> f.lastUpdated.Failed?
    ensures k == SharedStage ==> f.shared.Failed?
    ensures k == EditorsStage ==> f.editors.Failed?
    ensures k == ViewersStage ==> f.viewers.Failed?
  {
    if f.owner.Failed? then OwnerStage
    else if f.mimeType.Failed? then MimeStage
    else if f.lastUpdated.Failed? then ModifiedStage
    else if f.shared.Failed? then SharedStage
    else if f.editors.Failed? then EditorsStage
    else if f.viewers.Failed? then ViewersStage
    else AllRead
  }

  function OwnerText(owner: Option<string>): string {
    match owner
    case Some(email) => email
    case None => Unknown
  }

  /** Reference definition of a file's row: a field keeps its read value when
      its read and every earlier read succeeded, and its default otherwise.
      Columns: id, name, MIME type, owner, last modified, shared status,
      permission count. */
  function AuditRow(f: FileMeta): Row {
    var k := FirstFailure(f);
    [ Text(f.id),
      Text(f.name),
      Text(if k > MimeStage then f.mimeType.value else Unknown),
      Text(if k > OwnerStage then OwnerText(f.owner.value) else Unknown),
      Text(if k > ModifiedStage then f.lastUpdated.value else NotAvailable),
      Text(if k > SharedStage && f.shared.value then Shared else Private),
      Number(if k > ViewersStage then f.editors.value + f.viewers.value + 1 else 0) ]
  }

  /** Rows of consecutive files, one per file, in listing order. */
  function AuditRows(files: seq<FileMeta>): seq<Row> {
    seq(|files|, i requires 0 <= i < |files| => AuditRow(files[i]))
  }

  /** Rows of a concatenation are the concatenation of the rows. */
  lemma {:induction false} AuditRowsConcat(xs: seq<FileMeta>, ys: seq<FileMeta>)
    ensures AuditRows(xs + ys) == AuditRows(xs) + AuditRows(ys)
  {
    var whole, parts := AuditRows(xs + ys), AuditRows(xs) + AuditRows(ys);
    forall i | 0 <= i < |whole|
      ensures whole[i] == parts[i]
    {
      if i >= |xs| {
        assert (xs + ys)[i] == ys[i - |xs|];
      }
    }
  }

  /** Rows of two adjacent slices of the listing, one after the other, are the
      rows of the joined slice. */
  lemma {:induction false} AuditRowsJoin(files: seq<FileMeta>, a: nat, b: nat, c: nat)
    requires a <= b <= c <= |files|
    ensures AuditRows(files[a..b]) + AuditRows(files[b..c]) == AuditRows(files[a..c])
  {
    assert files[a..c] == files[a..b] + files[b..c];
    AuditRowsConcat(files[a..b], files[b..c]);
  }

  /** The per-file body of the scan loop: defaults first, then each read in
      turn; the first read that throws abandons the remaining reads, and the
      row is built either way. */
  method BuildRow(f: FileMeta) returns (row: Row)
    ensures row == AuditRow(f)
    ensures |row| == 7 && row[0] == Text(f.id) && row[1] == Text(f.name)
    ensures FirstFailure(f) <= OwnerStage ==> row[3] == Text(Unknown)
    ensures FirstFailure(f) <= MimeStage ==> row[2] == Text(Unknown)
    ensures FirstFailure(f) <= ModifiedStage ==> row[4] == Text(NotAvailable)
    ensures FirstFailure(f) <= SharedStage ==> row[5] == Text(Private)
    ensures FirstFailure(f) <= ViewersStage <==> row[6] == Number(0)
    ensures row[6] == Number(0)
         || (f.editors.Ok? && f.viewers.Ok? && row[6] == Number(f.editors.value + f.viewers.value + 1))
  {
    var owner := Unknown;
    var sharedStatus := Private;
    var permissionCount := 0;
    var modifiedDate := NotAvailable;
    var mimeType := Unknown;
    label metadata: {
      if f.owner.Failed? { break metadata; }
      owner := OwnerText(f.owner.value);
      if f.mimeType.Failed? { break metadata; }
      mimeType := f.mimeType.value;
      if f.lastUpdated.Failed? { break metadata; }
      modifiedDate := f.lastUpdated.value;
      if f.shared.Failed? { break metadata; }
      sharedStatus := if f.shared.value then Shared else Private;
      if f.editors.Failed? { break metadata; }
      var editors := f.editors.value;
      if f.viewers.Failed? { break metadata; }
      var viewers := f.viewers.value;
      permissionCount := editors + viewers + 1;
    }
    row := [Text(f.id), Text(f.name), Text(mimeType), Text(owner), Text(modifiedDate),
            Text(sharedStatus), Number(permissionCount)];
  }
}
