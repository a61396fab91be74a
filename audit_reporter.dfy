/** The result matrix of app/audit_reporter.py. Each device gets a row the first
    time a result names it (from row 1 down, its hostname in column 0); each check
    gets a pair of columns the first time a result names it (3k+1 for the k-th
    check, headers in row 0); a result writes its status and detail into the
    device's row under the check's columns, overwriting what was there. The
    worksheet is a map from (row, column) to the cell written last. */
module AuditReporting {
  import opened Wrappers
  import opened JsonValues
  import opened Exceptions
  import opened Builtins
  import opened CheckRuns

  /** `AuditReporter.VALID_ZTA_CHECKS`. */
  const ValidChecks: set<string> := {"Logging", "Auth and AC", "Network Segmentation", "Least Privilege"}

  /** The columns `__exit__` formats as status columns. */
  const FormattedColumns: seq<char> := ['B', 'E', 'H', 'K']

  /** What `worksheet.write` put in a cell. */
  datatype Cell = TextCell(text: string) | ValueCell(value: Json) | StatusCell(status: bool)

  /** `_row`, `_device_rows`, `_col_headers` and the written cells. */
  datatype Sheet = Sheet(row: nat, deviceRows: map<Json, nat>, colHeaders: map<string, nat>, cells: map<(nat, nat), Cell>)

  /** The state `__init__` leaves. */
  const Initial: Sheet := Sheet(1, map[], map[], map[])

  /** The spreadsheet letter of a column index. */
  function ColumnLetter(col: nat): char
    requires col < 26
  {
    (('A' as int) + col) as char
  }

  /** The check of `add_result` before anything changes: the ValueError for a
      check name outside VALID_ZTA_CHECKS, then the TypeError for a device that
      cannot be a dict key. */
  function Validate(device: Json, check: string): (r: Option<Exception>)
    ensures r.None? <==> check in ValidChecks && Hashable(device)
    ensures check !in ValidChecks ==> r == Some(InvalidZtaCheckError(check))
  {
    if check !in ValidChecks then Some(InvalidZtaCheckError(check))
    else if !Hashable(device) then Some(TypeError)
    else None
  }

  /** The row step of `add_result`: a device not seen before gets the current
      row, its hostname in column 0, and the row counter moves on. */
  function AssignRow(s: Sheet, device: Json): (r: Sheet)
    ensures device in r.deviceRows && r.colHeaders == s.colHeaders
  {
    if device in s.deviceRows then s
    else Sheet(s.row + 1, s.deviceRows[device := s.row], s.colHeaders, s.cells[(s.row, 0) := ValueCell(device)])
  }

  /** The column step of `add_result`: a check not seen before gets column
      3k + 1, k the number of checks seen, and its two headers in row 0. */
  function AssignColumns(s: Sheet, check: string): (r: Sheet)
    ensures check in r.colHeaders && r.row == s.row && r.deviceRows == s.deviceRows
  {
    if check in s.colHeaders then s
    else
      var col := |s.colHeaders| * 3 + 1;
      s.(colHeaders := s.colHeaders[check := col],
         cells := s.cells[(0, col) := TextCell(check + " - Status")][(0, col + 1) := TextCell(check + " - Details")])
  }

  /** The effect of an accepted `add_result(device, zta_check, status, details)`:
      the row step, the column step, then status at (row, col) and details at
      (row, col + 1). */
  function Record(s: Sheet, device: Json, check: string, status: bool, details: string): (r: Sheet)
    ensures device in r.deviceRows && check in r.colHeaders
    ensures (r.deviceRows[device], r.colHeaders[check]) in r.cells
      && r.cells[(r.deviceRows[device], r.colHeaders[check])] == StatusCell(status)
    ensures (r.deviceRows[device], r.colHeaders[check] + 1) in r.cells
      && r.cells[(r.deviceRows[device], r.colHeaders[check] + 1)] == TextCell(details)
    // A known device keeps its row; a known check keeps its columns.
    ensures device in s.deviceRows ==> r.deviceRows == s.deviceRows && r.row == s.row
    ensures check in s.colHeaders ==> r.colHeaders == s.colHeaders
  {
    WriteResult(AssignColumns(AssignRow(s, device), check), device, check, status, details)
  }

  /** The write step of `add_result`: status at (row, col), details at
      (row, col + 1). */
  function WriteResult(s: Sheet, device: Json, check: string, status: bool, details: string): (r: Sheet)
    requires device in s.deviceRows && check in s.colHeaders
  {
    var row, col := s.deviceRows[device], s.colHeaders[check];
    s.(cells := s.cells[(row, col) := StatusCell(status)][(row, col + 1) := TextCell(details)])
  }

  /** The sheet has seen the devices `ds` in first-seen order: the k-th has row
      k + 1, and the next free row follows the last. */
  ghost predicate RowsTrack(row: nat, deviceRows: map<Json, nat>, ds: seq<Json>)
  {
    && row == |ds| + 1
    && |deviceRows| == |ds|
    && (forall d :: d in deviceRows <==> d in ds)
    && (forall i :: 0 <= i < |ds| ==> deviceRows[ds[i]] == i + 1)
  }

  /** The sheet has seen the checks `cs` in first-seen order: the k-th has
      column 3k + 1, and all are valid check names. */
  ghost predicate ColumnsTrack(colHeaders: map<string, nat>, cs: seq<string>)
  {
    && |colHeaders| == |cs|
    && (forall c :: c in colHeaders <==> c in cs)
    && (forall i :: 0 <= i < |cs| ==> colHeaders[cs[i]] == 3 * i + 1)
    && (forall i :: 0 <= i < |cs| ==> cs[i] in ValidChecks)
  }

  ghost predicate Tracks(s: Sheet, ds: seq<Json>, cs: seq<string>)
  {
    RowsTrack(s.row, s.deviceRows, ds) && ColumnsTrack(s.colHeaders, cs)
  }

  /** The reporter the checks write to. */
  class AuditReporter {
    var row: nat
    var deviceRows: map<Json, nat>
    var colHeaders: map<string, nat>
    var cells: map<(nat, nat), Cell>
    /** The devices and checks seen so far, in the order the dicts hold them. */
    ghost var devices: seq<Json>
    ghost var checks: seq<string>

    ghost function Current(): Sheet
      reads this
    {
      Sheet(row, deviceRows, colHeaders, cells)
    }

    ghost predicate Valid()
      reads this
    {
      Tracks(Current(), devices, checks)
    }

    /** `__init__`, without the workbook. */
    constructor ()
      ensures Valid() && Current() == Initial && devices == [] && checks == []
    {
      row, deviceRows, colHeaders, cells := 1, map[], map[], map[];
      devices, checks := [], [];
    }

    /** `__enter__`: the "Device" header at (0, 0). */
    method Enter()
      requires Valid()
      modifies this
      ensures Valid() && devices == old(devices) && checks == old(checks)
      ensures Current() == old(Current()).(cells := old(cells)[(0, 0) := TextCell("Device")])
    {
      cells := cells[(0, 0) := TextCell("Device")];
    }

    /** `add_result`: the exception it raises, if any, with nothing changed;
        otherwise the recorded result, the device and the check appended to
        the seen lists when they are new. */
    method AddResult(device: Json, check: string, status: bool, details: string) returns (err: Option<Exception>)
      requires Valid()
      modifies this
      ensures Valid()
      ensures err == Validate(device, check)
      ensures err.Some? ==> Current() == old(Current()) && devices == old(devices) && checks == old(checks)
      ensures err.None? ==>
        && Current() == Record(old(Current()), device, check, status, details)
        && devices == (if device in old(devices) then old(devices) else old(devices) + [device])
        && checks == (if check in old(checks) then old(checks) else old(checks) + [check])
    {
      if check !in ValidChecks {
        return Some(InvalidZtaCheckError(check));
      }
      if !Hashable(device) {
        return Some(TypeError);
      }
      Accept(device, check, status, details);
      return None;
    }

    /** The accepted path of `add_result`: the row step, the column step and
        the two cells of the result. */
    method Accept(device: Json, check: string, status: bool, details: string)
      requires Valid() && check in ValidChecks
      modifies this
      ensures Valid()
      ensures Current() == Record(old(Current()), device, check, status, details)
      ensures devices == (if device in old(devices) then old(devices) else old(devices) + [device])
      ensures checks == (if check in old(checks) then old(checks) else old(checks) + [check])
    {
      ghost var before := Current();
      PlaceRow(device);
      PlaceColumns(check);
      WriteCells(device, check, status, details);
      assert Current() == Record(before, device, check, status, details);
      RecordTracks(before, old(devices), old(checks), device, check, status, details);
    }

    /** The write step of `add_result` on the fields. */
    method WriteCells(device: Json, check: string, status: bool, details: string)
      requires device in deviceRows && check in colHeaders
      modifies this
      ensures Current() == WriteResult(old(Current()), device, check, status, details)
      ensures devices == old(devices) && checks == old(checks)
    {
      var deviceRow, col := deviceRows[device], colHeaders[check];
      cells := cells[(deviceRow, col) := StatusCell(status)][(deviceRow, col + 1) := TextCell(details)];
    }

    /** The row step of `add_result` on the fields. */
    method PlaceRow(device: Json)
      modifies this
      ensures Current() == AssignRow(old(Current()), device) && checks == old(checks)
      ensures devices == (if device in old(deviceRows) then old(devices) else old(devices) + [device])
    {
      if device !in deviceRows {
        deviceRows := deviceRows[device := row];
        cells := cells[(row, 0) := ValueCell(device)];
        row := row + 1;
        devices := devices + [device];
      }
    }

    /** The column step of `add_result` on the fields. */
    method PlaceColumns(check: string)
      modifies this
      ensures Current() == AssignColumns(old(Current()), check) && devices == old(devices)
      ensures checks == (if check in old(colHeaders) then old(checks) else old(checks) + [check])
    {
      if check !in colHeaders {
        var col := |colHeaders| * 3 + 1;
        colHeaders := colHeaders[check := col];
        cells := cells[(0, col) := TextCell(check + " - Status")][(0, col + 1) := TextCell(check + " - Details")];
        checks := checks + [check];
      }
    }
  }

  // ---------------------------------------------------------------- properties

  /** The row step keeps the rows in first-seen order. */
  lemma AssignRowTracks(s: Sheet, ds: seq<Json>, device: Json)
    requires RowsTrack(s.row, s.deviceRows, ds)
    ensures var r := AssignRow(s, device);
      RowsTrack(r.row, r.deviceRows, if device in ds then ds else ds + [device])
  {
    if device !in ds {
      var ds' := ds + [device];
      assert forall i :: 0 <= i < |ds| ==> ds'[i] == ds[i];
    }
  }

  /** The column step keeps the checks in first-seen order. */
  lemma AssignColumnsTracks(s: Sheet, cs: seq<string>, check: string)
    requires ColumnsTrack(s.colHeaders, cs) && check in ValidChecks
    ensures ColumnsTrack(AssignColumns(s, check).colHeaders, if check in cs then cs else cs + [check])
  {
    if check !in cs {
      var cs' := cs + [check];
      assert forall i :: 0 <= i < |cs| ==> cs'[i] == cs[i];
    }
  }

  /** Recording an accepted result keeps the sheet consistent, with the device
      and the check appended to the seen lists when they are new. */
  lemma RecordTracks(s: Sheet, ds: seq<Json>, cs: seq<string>, device: Json, check: string, status: bool, details: string)
    requires Tracks(s, ds, cs) && check in ValidChecks
    ensures Tracks(Record(s, device, check, status, details),
                   if device in ds then ds else ds + [device],
                   if check in cs then cs else cs + [check])
  {
    var s1 := AssignRow(s, device);
    var s2 := AssignColumns(s1, check);
    AssignRowTracks(s, ds, device);
    AssignColumnsTracks(s1, cs, check);
    var r := Record(s, device, check, status, details);
    assert r.row == s2.row && r.deviceRows == s2.deviceRows && r.colHeaders == s2.colHeaders;
  }

  /** The first result for a new device gives it the next free row and writes
      its hostname in column 0 of that row. */
  lemma NewDeviceGetsNextRow(s: Sheet, ds: seq<Json>, cs: seq<string>, device: Json, check: string, status: bool, details: string)
    requires Tracks(s, ds, cs) && device !in s.deviceRows
    ensures var r := Record(s, device, check, status, details);
      r.deviceRows == s.deviceRows[device := s.row] && r.row == s.row + 1
      && (s.row, 0) in r.cells && r.cells[(s.row, 0)] == ValueCell(device)
  {
    var s1 := AssignRow(s, device);
    if check !in s1.colHeaders {
      assert AssignColumns(s1, check).cells[(s.row, 0)] == ValueCell(device);
    }
  }

  /** The first result for a new check gives it column 3k + 1, k the number of
      checks already seen, and writes the two headers in row 0. */
  lemma NewCheckGetsNextColumns(s: Sheet, ds: seq<Json>, cs: seq<string>, device: Json, check: string, status: bool, details: string)
    requires Tracks(s, ds, cs) && check !in s.colHeaders
    ensures var r := Record(s, device, check, status, details);
      r.colHeaders == s.colHeaders[check := 3 * |cs| + 1]
      && (0, 3 * |cs| + 1) in r.cells && r.cells[(0, 3 * |cs| + 1)] == TextCell(check + " - Status")
      && (0, 3 * |cs| + 2) in r.cells && r.cells[(0, 3 * |cs| + 2)] == TextCell(check + " - Details")
  {
    SeenRow(s, ds, device);
    NewCheckHeaders(s, |cs|, device, check, status, details);
  }

  /** The header cells of a new check lie in row 0, which no device row uses. */
  lemma NewCheckHeaders(s: Sheet, k: nat, device: Json, check: string, status: bool, details: string)
    requires check !in s.colHeaders && |s.colHeaders| == k && s.row >= 1
    requires device in s.deviceRows ==> s.deviceRows[device] >= 1
    ensures var r := Record(s, device, check, status, details);
      var col := 3 * k + 1;
      r.colHeaders == s.colHeaders[check := col]
      && (0, col) in r.cells && r.cells[(0, col)] == TextCell(check + " - Status")
      && (0, col + 1) in r.cells && r.cells[(0, col + 1)] == TextCell(check + " - Details")
  {
    var s1 := AssignRow(s, device);
    assert s1.deviceRows[device] >= 1;
    var s2 := AssignColumns(s1, check);
    assert s2.deviceRows[device] >= 1;
  }

  /** Rows start at 1: the header row 0 belongs to no device. */
  lemma SeenRow(s: Sheet, ds: seq<Json>, device: Json)
    requires RowsTrack(s.row, s.deviceRows, ds)
    ensures s.row >= 1
    ensures device in s.deviceRows ==> 1 <= s.deviceRows[device] <= |ds|
  {
    if device in s.deviceRows {
      var i :| 0 <= i < |ds| && ds[i] == device;
    }
  }

  /** Repeating a (device, check) pair overwrites its two cells and nothing else. */
  lemma RepeatOverwritesOnlyItsCells(s: Sheet, device: Json, check: string, status: bool, details: string)
    requires device in s.deviceRows && check in s.colHeaders
    ensures var r := Record(s, device, check, status, details);
      var row, col := s.deviceRows[device], s.colHeaders[check];
      r.row == s.row && r.deviceRows == s.deviceRows && r.colHeaders == s.colHeaders
      && r.cells.Keys == s.cells.Keys + {(row, col), (row, col + 1)}
      && forall p :: p in s.cells && p != (row, col) && p != (row, col + 1) ==> r.cells[p] == s.cells[p]
  {
  }

  /** No value occurs twice in `xs`. */
  predicate Distinct<T(==)>(xs: seq<T>)
  {
    forall i, j :: 0 <= i < j < |xs| ==> xs[i] != xs[j]
  }

  /** Each device seen has its own row, between 1 and the number of devices,
      and no device is seen twice: the device count is the number of distinct
      hostnames given. */
  lemma RowsAreDistinct(s: Sheet, ds: seq<Json>)
    requires RowsTrack(s.row, s.deviceRows, ds)
    ensures Distinct(ds) && |s.deviceRows| == |ds|
    ensures forall d :: d in s.deviceRows ==> 1 <= s.deviceRows[d] <= |ds|
    ensures forall d1, d2 :: d1 in s.deviceRows && d2 in s.deviceRows && d1 != d2 ==> s.deviceRows[d1] != s.deviceRows[d2]
  {
    forall d | d in s.deviceRows
      ensures exists i :: 0 <= i < |ds| && ds[i] == d && s.deviceRows[d] == i + 1
    {
      var i :| 0 <= i < |ds| && ds[i] == d;
    }
  }

  /** A distinct sequence drawn from a set is no longer than the set. */
  lemma {:induction false} DistinctWithin(cs: seq<string>, u: set<string>)
    requires Distinct(cs) && forall i :: 0 <= i < |cs| ==> cs[i] in u
    ensures |cs| <= |u|
  {
    if |cs| > 0 {
      var last := cs[|cs| - 1];
      DistinctWithin(cs[..|cs| - 1], u - {last});
    }
  }

  /** Status columns are 1, 4, 7 or 10, the columns B, E, H and K that
      `__exit__` formats. */
  lemma StatusColumnsAreFormatted(s: Sheet, cs: seq<string>)
    requires ColumnsTrack(s.colHeaders, cs)
    ensures forall c :: c in s.colHeaders ==>
      s.colHeaders[c] in {1, 4, 7, 10} && ColumnLetter(s.colHeaders[c]) in FormattedColumns
  {
    assert Distinct(cs) by {
      forall i, j | 0 <= i < j < |cs|
        ensures cs[i] != cs[j]
      {
        assert s.colHeaders[cs[i]] != s.colHeaders[cs[j]];
      }
    }
    assert |ValidChecks| == 4;
    DistinctWithin(cs, ValidChecks);
    forall c | c in s.colHeaders
      ensures s.colHeaders[c] in {1, 4, 7, 10} && ColumnLetter(s.colHeaders[c]) in FormattedColumns
    {
      var i :| 0 <= i < |cs| && cs[i] == c;
      assert i < 4;
    }
  }
}
