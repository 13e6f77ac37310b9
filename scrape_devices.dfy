/** scrape_devices.py: the rows of the result tables that describe cellular devices whose
    approval date is "not specified". */
module ScrapeDevices {
  import opened Wrappers
  import opened Text

  /** One output record; every field is the stripped text of its column. */
  datatype CellularRecord = CellularRecord(
    approvalNumber: string, brand: string, model: string,
    deviceType: string, importer: string, approvalDate: string)

  /** A table is the rows of one result page, as `page.locator('table').locator('tr')` lists
      them (the rows of every table on the page, in document order), each row the inner texts
      of its `td` cells; the pages come in the order "next" reaches them, and only the first
      row of each page is skipped. */
  type Row = seq<string>
  type Table = seq<Row>

  /** The number of columns read. */
  const Columns: nat := 6

  const NotSpecified: string := "ไม่ระบุ"
  const CellularThai: string := "เซลลูลาร์"
  const CellularLatin: string := "cellular"

  /** The type cell mentions cellular, in Thai or in any ASCII case. */
  predicate IsCellular(deviceType: string) {
    Contains(deviceType, CellularThai) || Contains(Lower(deviceType), CellularLatin)
  }

  /** The data row test: the date cell says "not specified" and the type cell says cellular. */
  predicate Keeps(date: string, deviceType: string) {
    Contains(date, NotSpecified) && IsCellular(deviceType)
  }

  /** The record a data row yields, if any: rows with fewer than six cells are skipped, and
      the others are kept when their stripped date and type cells pass `Keeps`. */
  function RowRecord(cols: Row): Option<CellularRecord> {
    if |cols| < Columns then None
    else
      var date := Strip(cols[5]);
      var deviceType := Strip(cols[3]);
      if Keeps(date, deviceType) then
        Some(CellularRecord(Strip(cols[0]), Strip(cols[1]), Strip(cols[2]), deviceType, Strip(cols[4]), date))
      else None
  }

  /** A row yields a record exactly when it has six cells and passes the test, and the record
      holds the row's first six cells, stripped, in column order. */
  lemma RowRecordFields(cols: Row)
    ensures RowRecord(cols).Some? <==> |cols| >= Columns && Keeps(Strip(cols[5]), Strip(cols[3]))
    ensures RowRecord(cols).Some? ==>
      var r := RowRecord(cols).value;
      r.approvalNumber == Strip(cols[0]) && r.brand == Strip(cols[1]) &&
      r.model == Strip(cols[2]) && r.deviceType == Strip(cols[3]) &&
      r.importer == Strip(cols[4]) && r.approvalDate == Strip(cols[5])
  {
  }

  /** The records of one table: every row but the first, in row order. */
  function TableRecords(rows: Table): seq<CellularRecord> {
    if rows == [] then [] else FilterMap(RowRecord, rows[1..])
  }

  /** The records of all tables, in table order. */
  function AllRecords(tables: seq<Table>): seq<CellularRecord> {
    if tables == [] then []
    else AllRecords(tables[..|tables| - 1]) + TableRecords(tables[|tables| - 1])
  }

  /** Lines 21-48 over the tables the pages showed. */
  method ScrapeNewCellularDevices(tables: seq<Table>) returns (devices: seq<CellularRecord>)
    ensures devices == AllRecords(tables)
  {
    devices := [];
    for t := 0 to |tables|
      invariant devices == AllRecords(tables[..t])
    {
      var records := ReadTable(tables[t]);
      AllRecordsSnoc(tables, t);
      devices := devices + records;
    }
    assert tables[..|tables|] == tables;
  }

  /** The row loop over one table: every row but the header, in order. */
  method ReadTable(rows: Table) returns (records: seq<CellularRecord>)
    ensures records == TableRecords(rows)
  {
    records := [];
    if rows != [] {
      for i := 1 to |rows|
        invariant records == FilterMap(RowRecord, rows[1..i])
      {
        RowsSnoc(rows, i);
        var record := ReadRow(rows[i]);
        if record.Some? {
          records := records + [record.value];
        }
      }
      assert rows[1..|rows|] == rows[1..];
    }
  }

  /** One more table, for the loop. */
  lemma AllRecordsSnoc(tables: seq<Table>, t: nat)
    requires t < |tables|
    ensures AllRecords(tables[..t + 1]) == AllRecords(tables[..t]) + TableRecords(tables[t])
  {
    assert tables[..t + 1][..t] == tables[..t];
  }

  /** The body of the row loop: skip a short row, read and strip six cells, test them. */
  method ReadRow(cols: Row) returns (record: Option<CellularRecord>)
    ensures record == RowRecord(cols)
  {
    if |cols| < Columns {
      return None;
    }
    var approval := Strip(cols[0]);
    var brand := Strip(cols[1]);
    var model := Strip(cols[2]);
    var deviceType := Strip(cols[3]);
    var importer := Strip(cols[4]);
    var date := Strip(cols[5]);
    record := None;
    if Contains(date, NotSpecified) {
      if Contains(deviceType, CellularThai) || Contains(Lower(deviceType), CellularLatin) {
        record := Some(CellularRecord(approval, brand, model, deviceType, importer, date));
      }
    }
  }

  /** One more row of a table, for the loop. */
  lemma RowsSnoc(rows: Table, i: nat)
    requires 1 <= i < |rows|
    ensures FilterMap(RowRecord, rows[1..i + 1]) == FilterMap(RowRecord, rows[1..i]) + OptionToSeq(RowRecord(rows[i]))
  {
    assert rows[1..i + 1] == rows[1..i] + [rows[i]];
    FilterMapSnoc(RowRecord, rows[1..i], rows[i]);
  }

  /** Whatever the first row of a table holds, it yields no record. */
  lemma HeaderIgnored(rows: Table, header: Row)
    requires rows != []
    ensures TableRecords(rows[0 := header]) == TableRecords(rows)
  {
    assert rows[0 := header][1..] == rows[1..];
  }

  /** Cells past the sixth are never read. */
  lemma ExtraCellsIgnored(cols: Row, extra: Row)
    ensures RowRecord(cols) == RowRecord(if |cols| >= Columns then cols[..Columns] + extra else cols)
  {
    if |cols| >= Columns {
      var longer := cols[..Columns] + extra;
      assert longer[0] == cols[0] && longer[1] == cols[1] && longer[2] == cols[2];
      assert longer[3] == cols[3] && longer[4] == cols[4] && longer[5] == cols[5];
    }
  }

  /** A record belongs to a table's output exactly when some row after the first yields it. */
  lemma TableRecordsMembers(rows: Table)
    ensures forall r :: r in TableRecords(rows) <==> exists i :: 1 <= i < |rows| && RowRecord(rows[i]) == Some(r)
  {
    if rows != [] {
      FilterMapMembers(RowRecord, rows[1..]);
      assert forall i :: 1 <= i < |rows| ==> rows[i] == rows[1..][i - 1];
    }
  }

  /** Every record has a date cell saying "not specified" and a type cell saying cellular. */
  lemma RecordsQualify(tables: seq<Table>)
    ensures forall r :: r in AllRecords(tables) ==>
      Contains(r.approvalDate, NotSpecified) && IsCellular(r.deviceType) &&
      IsStripped(r.approvalNumber) && IsStripped(r.brand) && IsStripped(r.model) &&
      IsStripped(r.deviceType) && IsStripped(r.importer) && IsStripped(r.approvalDate)
    decreases |tables|
  {
    if tables != [] {
      RecordsQualify(tables[..|tables| - 1]);
      TableRecordsMembers(tables[|tables| - 1]);
    }
  }

  /** Records follow table order and are not de-duplicated: reading more pages only appends. */
  lemma {:induction false} AllRecordsAppend(a: seq<Table>, b: seq<Table>)
    ensures AllRecords(a + b) == AllRecords(a) + AllRecords(b)
    decreases |b|
  {
    if b == [] {
      assert a + b == a;
    } else {
      var init := b[..|b| - 1];
      assert (a + b)[..|a + b| - 1] == a + init;
      assert (a + b)[|a + b| - 1] == b[|b| - 1];
      AllRecordsAppend(a, init);
      AppendAssoc(AllRecords(a), AllRecords(init), TableRecords(b[|b| - 1]));
    }
  }
}
