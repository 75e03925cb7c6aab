// The export panel (src/components/Common/ExportData.jsx): the CSV download
// for applications, placements and jobs, the table rows of the printable
// report, and when the two buttons are disabled.
module ExportData {
  import opened Optional
  import opened Text
  import Lists
  import Csv

  /** A record as the panel sees it: each field's text by name; a missing name is `undefined`. */
  type Record = map<string, string>

  /** `value || 'N/A'`: a missing or empty field prints as 'N/A', any other as it is. */
  function Field(r: Record, key: string): (cell: string)
    ensures cell != ""
    ensures key in r && r[key] != "" ==> cell == r[key]
    ensures cell != "N/A" ==> key in r && cell == r[key]
  {
    if key in r && r[key] != "" then r[key] else "N/A"
  }

  /** `${record.id}`: the id has no 'N/A' fallback, a missing one prints as 'undefined'. */
  function IdCell(r: Record): string
  {
    if "id" in r then r["id"] else "undefined"
  }

  /** The CSV columns of one data type: the header line's names and, after the id, the field each column reads. */
  datatype Columns = Columns(header: seq<string>, fields: seq<string>)

  const ApplicationColumns: Columns :=
    Columns(["ID", "Student Name", "Job Title", "Company", "Applied Date", "Status"],
            ["studentName", "jobTitle", "company", "appliedDate", "status"])

  const PlacementColumns: Columns :=
    Columns(["ID", "Student Name", "Company", "Job Title", "Salary", "Placement Date"],
            ["studentName", "company", "jobTitle", "salary", "placementDate"])

  const JobColumns: Columns :=
    Columns(["ID", "Job Title", "Company", "Department", "Salary", "Experience", "Posted Date"],
            ["title", "company", "department", "salary", "experience", "postedDate"])

  /** The three data types the CSV knows; any other type has no columns. */
  function CsvColumns(dataType: string): (cols: Option<Columns>)
    ensures cols.Some? <==> dataType == "applications" || dataType == "placements" || dataType == "jobs"
    ensures cols.Some? ==> |cols.value.header| == |cols.value.fields| + 1 && cols.value.header[0] == "ID"
  {
    if dataType == "applications" then Some(ApplicationColumns)
    else if dataType == "placements" then Some(PlacementColumns)
    else if dataType == "jobs" then Some(JobColumns)
    else None
  }

  /** No column name of a known type holds ',' or a line break, so every header line reads back. */
  lemma ColumnsPlain(dataType: string)
    requires CsvColumns(dataType).Some?
    ensures Csv.PlainHeader(CsvColumns(dataType).value.header)
  {
    var h := CsvColumns(dataType).value.header;
    if dataType == "applications" {
      assert h == ApplicationColumns.header;
    } else if dataType == "placements" {
      assert h == PlacementColumns.header;
    } else {
      assert h == JobColumns.header;
    }
    assert forall k :: 0 <= k < |h| ==> ',' !in h[k] && '\n' !in h[k];
  }

  /** One record's CSV cells: its id, then each column's field with the 'N/A' fallback. */
  function Row(r: Record, fields: seq<string>): (cells: seq<string>)
    ensures |cells| == |fields| + 1
    ensures cells[0] == IdCell(r)
    ensures forall k :: 0 <= k < |fields| ==> cells[k + 1] == Field(r, fields[k])
  {
    [IdCell(r)] + Lists.Map(fields, (key: string) => Field(r, key))
  }

  function RowOf(fields: seq<string>): Record -> seq<string>
  {
    (r: Record) => Row(r, fields)
  }

  /**
   * The text `exportToCSV` builds: for a known type with at least one
   * record, the prefix, the type's header line and one line per record;
   * otherwise the prefix alone.
   */
  function CsvText(dataType: string, data: seq<Record>): (text: string)
    ensures Csv.DataUriPrefix <= text
    ensures CsvColumns(dataType).None? || |data| == 0 ==> text == Csv.DataUriPrefix
  {
    var cols := CsvColumns(dataType);
    if cols.Some? && |data| > 0 then Csv.Document(cols.value.header, Lists.Map(data, RowOf(cols.value.fields)))
    else Csv.DataUriPrefix
  }

  /** `exportToCSV`: the prefix, then for a known type with records the header line and the record lines. */
  method ExportToCsv(data: seq<Record>, dataType: string) returns (csvContent: string)
    ensures csvContent == CsvText(dataType, data)
  {
    csvContent := Csv.DataUriPrefix;
    var cols := CsvColumns(dataType);
    if cols.Some? && |data| > 0 {
      csvContent := Csv.WriteDocument(cols.value.header, data, RowOf(cols.value.fields));
    }
  }

  /** The download is the bare prefix exactly when the type is unknown or there is nothing to export. */
  lemma OnlyPrefixWhenNothingToExport(dataType: string, data: seq<Record>)
    ensures CsvText(dataType, data) == Csv.DataUriPrefix <==> CsvColumns(dataType).None? || |data| == 0
  {
    var cols := CsvColumns(dataType);
    if cols.Some? && |data| > 0 {
      var doc := CsvText(dataType, data);
      assert |doc| > |Csv.DataUriPrefix|;
    }
  }

  /** Every field a record's row can read holds no double quote and no line break. */
  predicate PlainRecord(r: Record)
  {
    forall key :: key in r ==> Csv.PlainCell(r[key])
  }

  /**
   * For a known type, a download of plain records reads back as the type's
   * header and one row per record, in order, each with as many cells as the
   * header and the 'N/A' fallback in place of every missing or empty field.
   */
  lemma ExportReadsBack(dataType: string, data: seq<Record>)
    requires CsvColumns(dataType).Some? && |data| > 0
    requires forall r :: r in data ==> PlainRecord(r)
    ensures var cols := CsvColumns(dataType).value;
      Csv.ParseDocument(CsvText(dataType, data)) == Some((cols.header, Lists.Map(data, RowOf(cols.fields))))
    ensures var cols := CsvColumns(dataType).value;
      forall k :: 0 <= k < |data| ==> |Row(data[k], cols.fields)| == |cols.header|
  {
    var cols := CsvColumns(dataType).value;
    ColumnsPlain(dataType);
    RecordsReadBack(cols, data);
  }

  lemma RecordsReadBack(cols: Columns, data: seq<Record>)
    requires Csv.PlainHeader(cols.header)
    requires forall r :: r in data ==> PlainRecord(r)
    ensures Csv.ParseDocument(Csv.Document(cols.header, Lists.Map(data, RowOf(cols.fields)))) ==
      Some((cols.header, Lists.Map(data, RowOf(cols.fields))))
  {
    var rows := Lists.Map(data, RowOf(cols.fields));
    forall row | row in rows
      ensures Csv.PlainRow(row)
    {
      var k :| 0 <= k < |rows| && rows[k] == row;
      assert data[k] in data;
      RowIsPlain(data[k], cols.fields);
    }
    Csv.DocumentRoundTrip(cols.header, rows);
  }

  /** A plain record's row holds only plain cells: its fields, 'N/A' and 'undefined' have no quote or break. */
  lemma RowIsPlain(r: Record, fields: seq<string>)
    requires PlainRecord(r)
    ensures Csv.PlainRow(Row(r, fields))
  {
    var row := Row(r, fields);
    assert Csv.PlainCell("N/A") && Csv.PlainCell("undefined");
    forall j | 0 <= j < |row|
      ensures Csv.PlainCell(row[j])
    {
      if j > 0 {
        assert row[j] == Field(r, fields[j - 1]);
      }
    }
  }

  /** A row of the printable report's table: header cells, data cells, or the single "no data" cell. */
  datatype TableRow = HeadRow(cells: seq<string>) | DataRow(cells: seq<string>) | NoDataRow

  const NoDataText: string := "No data available"

  /** An application's report cells: the CSV columns without the applied date. */
  function ApplicationCells(r: Record): (cells: seq<string>)
    ensures |cells| == 5
  {
    [IdCell(r), Field(r, "studentName"), Field(r, "jobTitle"), Field(r, "company"), Field(r, "status")]
  }

  /** A placement's report cells, with the rupee sign written before the salary. */
  function PlacementCells(r: Record): (cells: seq<string>)
    ensures |cells| == 5
  {
    [IdCell(r), Field(r, "studentName"), Field(r, "company"), "₹" + Field(r, "salary"),
     Field(r, "placementDate")]
  }

  function ApplicationRow(r: Record): TableRow { DataRow(ApplicationCells(r)) }

  function PlacementRow(r: Record): TableRow { DataRow(PlacementCells(r)) }

  /**
   * `generatePDFContent`: for applications or placements with at least one
   * record, a header row of five names and then one five-cell row per
   * record, in order; for jobs, any other type or no records, the single
   * "no data" row.
   */
  function ReportRows(dataType: string, data: seq<Record>): (rows: seq<TableRow>)
    ensures (dataType == "applications" || dataType == "placements") && |data| > 0 ==>
      |rows| == |data| + 1 && rows[0].HeadRow? && |rows[0].cells| == 5 &&
      forall k :: 1 <= k < |rows| ==> rows[k].DataRow? && |rows[k].cells| == 5
    ensures dataType == "applications" && |data| > 0 ==>
      forall k :: 1 <= k < |rows| ==> rows[k].cells == ApplicationCells(data[k - 1])
    ensures dataType == "placements" && |data| > 0 ==>
      forall k :: 1 <= k < |rows| ==> rows[k].cells == PlacementCells(data[k - 1])
    ensures !((dataType == "applications" || dataType == "placements") && |data| > 0) ==> rows == [NoDataRow]
  {
    if dataType == "applications" && |data| > 0 then
      [HeadRow(["ID", "Student Name", "Job Title", "Company", "Status"])] + Lists.Map(data, ApplicationRow)
    else if dataType == "placements" && |data| > 0 then
      [HeadRow(["ID", "Student Name", "Company", "Salary", "Date"])] + Lists.Map(data, PlacementRow)
    else [NoDataRow]
  }

  /**
   * The report and the CSV agree on applications: each report row is that
   * record's CSV row with the applied-date column left out.
   */
  lemma ReportMatchesCsvForApplications(data: seq<Record>)
    requires |data| > 0
    ensures var rows := ReportRows("applications", data);
      var csvRows := Lists.Map(data, RowOf(CsvColumns("applications").value.fields));
      forall k :: 1 <= k < |rows| ==> rows[k].cells == csvRows[k - 1][..4] + csvRows[k - 1][5..]
  {
    var fields := CsvColumns("applications").value.fields;
    forall k | 0 <= k < |data|
      ensures ApplicationCells(data[k]) == Row(data[k], fields)[..4] + Row(data[k], fields)[5..]
    {
      var row := Row(data[k], fields);
      assert row[1] == Field(data[k], fields[0]) && row[2] == Field(data[k], fields[1]);
      assert row[3] == Field(data[k], fields[2]) && row[5] == Field(data[k], fields[4]);
    }
  }

  /** Both buttons: `disabled={!data || data.length === 0}`. */
  predicate ExportDisabled(data: Option<seq<Record>>)
    ensures ExportDisabled(data) ==> data.None? || forall t :: CsvText(t, data.value) == Csv.DataUriPrefix
    ensures !ExportDisabled(data) ==> CsvText("applications", data.value) != Csv.DataUriPrefix
  {
    data.None? || (OnlyPrefixWhenNothingToExport("applications", data.value); |data.value| == 0)
  }

  /** The line under the buttons, which says there is nothing to export exactly when they are disabled. */
  function ExportInfo(data: Option<seq<Record>>): (text: string)
    ensures ExportDisabled(data) <==> text == "No data available to export"
    ensures !ExportDisabled(data) ==> text == "Ready to export " + IntText(|data.value|) + " records"
  {
    if data.Some? && |data.value| > 0 then
      var text := "Ready to export " + IntText(|data.value|) + " records";
      assert text[0] == 'R';
      text
    else "No data available to export"
  }
}
