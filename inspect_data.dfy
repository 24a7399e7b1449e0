/**
 * `inspect_data.py`: pick the sheet, fetch its cells, find the date column,
 * report the format of the first ten dates and test the automatic repair
 * that appends a year to dates written as `Mon. D`.
 *
 * The two requests are not made here: the replies are parameters, and so is
 * the current year that `datetime.now()` would give.
 */
module InspectData {
  import opened Text
  import opened SheetsApi
  import opened DatePatterns

  // ---------------------------------------------------------------------------
  // add_year_to_dates

  /** A missing year, or year 0 (which Python also treats as false), means the clock's year. */
  function EffectiveYear(year: Option<int>, clockYear: int): (y: int) {
    if year.None? || year.value == 0 then clockYear else year.value
  }

  /** `add_year_to_dates`: append `", <year>"` to a date of the form `Mon. D`, leave anything else alone. */
  function AddYearToDates(dateStr: string, year: Option<int>, clockYear: int): (r: string)
    ensures dateStr <= r
  {
    if AbbrevNoYear(dateStr) then dateStr + ", " + IntToString(EffectiveYear(year, clockYear))
    else dateStr
  }

  /**
   * After a date of the form `Mon. D` comes a comma: the result matches none
   * of the five patterns, in particular not `Month DD, YYYY` (the month is
   * followed by a period) and not `Mon. D` again.
   */
  lemma {:induction false} RepairedIsUnrecognized(s: string, y: string)
    requires AbbrevNoYear(s)
    ensures Classify(s + ", " + y) == Unrecognized
  {
    var t := s + ", " + y;
    AbbrevShape(s);
    var m := LetterRun(s, 0);
    var d := DigitRun(s, m + 2);
    assert forall k :: 0 <= k < |s| ==> t[k] == s[k];
    assert t[|s|] == ',';
    LettersAtExtend(s, ", " + y, 0, m);
    LetterRunIs(t, 0, m);
    DigitRunIs(t, 0, 0);
    DigitsAtExtend(s, ", " + y, m + 2, d);
    DigitRunIs(t, m + 2, d);
    IsoShape(t);
    NumericShape(t, '/');
    NumericShape(t, '.');
    MonthNameShape(t);
    AbbrevShape(t);
  }

  /** The repair changes a string exactly when the cascade flags it as missing its year. */
  lemma RepairChangesIffFlagged(s: string, year: Option<int>, clockYear: int)
    ensures AddYearToDates(s, year, clockYear) != s <==> Classify(s) == MonthAbbrevNoYear
    ensures Classify(s) == MonthAbbrevNoYear ==>
      AddYearToDates(s, year, clockYear) == s + ", " + IntToString(EffectiveYear(year, clockYear))
  {
    ClassifyExact(s, MonthAbbrevNoYear);
  }

  /** Repairing twice is repairing once, whatever year the second call is given. */
  lemma RepairIdempotent(s: string, year: Option<int>, year': Option<int>, clockYear: int, clockYear': int)
    ensures AddYearToDates(AddYearToDates(s, year, clockYear), year', clockYear') == AddYearToDates(s, year, clockYear)
  {
    if AbbrevNoYear(s) {
      var y := IntToString(EffectiveYear(year, clockYear));
      RepairedIsUnrecognized(s, y);
      ClassifyExact(s + ", " + y, MonthAbbrevNoYear);
    }
  }

  /** A repaired date is not moved into any recognised format. */
  lemma RepairNeverRecognized(s: string, year: Option<int>, clockYear: int)
    requires AbbrevNoYear(s)
    ensures Classify(AddYearToDates(s, year, clockYear)) == Unrecognized
  {
    RepairedIsUnrecognized(s, IntToString(EffectiveYear(year, clockYear)));
  }

  lemma YearText2024()
    ensures IntToString(2024) == "2024"
  {
    assert NatToString(2) == "2";
    assert NatToString(20) == "20";
    assert NatToString(202) == "202";
  }

  lemma RepairExample(clockYear: int)
    ensures AddYearToDates("Jan. 11", Some(2024), clockYear) == "Jan. 11, 2024"
  {
    assert AbbrevSplit("Jan. 11", 3, 2);
    YearText2024();
  }

  // ---------------------------------------------------------------------------
  // Sheet selection and range

  /**
   * `sheet_to_use`: the configured sheet when it is set and exists,
   * otherwise the first sheet.
   */
  function SheetToUse(sheetNames: seq<string>, sheetName: string): (sheet: string)
    requires |sheetNames| > 0
    ensures sheet in sheetNames
    ensures sheetName != "" && sheetName in sheetNames ==> sheet == sheetName
    ensures sheetName == "" || sheetName !in sheetNames ==> sheet == sheetNames[0]
  {
    if sheetName == "" then sheetNames[0]
    else if sheetName !in sheetNames then sheetNames[0]
    else sheetName
  }

  // ---------------------------------------------------------------------------
  // Date column

  /** The header reads `date` once lower-cased. */
  predicate IsDateHeader(header: string) {
    Lower(header) == "date"
  }

  /** The first column whose header reads `date` in any case, or -1. */
  function DateColumnIndex(headers: seq<string>): (idx: int)
    ensures -1 <= idx < |headers|
    ensures idx == -1 <==> forall i :: 0 <= i < |headers| ==> !IsDateHeader(headers[i])
    ensures idx >= 0 ==> IsDateHeader(headers[idx])
    ensures forall j :: 0 <= j < idx ==> !IsDateHeader(headers[j])
  {
    if headers == [] then -1
    else if IsDateHeader(headers[0]) then 0
    else
      var rest := DateColumnIndex(headers[1..]);
      if rest == -1 then -1 else rest + 1
  }

  /** The loop over the headers that stops at the first `date` column. */
  method FindDateColumn(headers: seq<string>) returns (dateColIdx: int)
    ensures dateColIdx == DateColumnIndex(headers)
  {
    dateColIdx := -1;
    for i := 0 to |headers|
      invariant dateColIdx == -1
      invariant forall j :: 0 <= j < i ==> !IsDateHeader(headers[j])
    {
      if Lower(headers[i]) == "date" {
        dateColIdx := i;
        break;
      }
    }
  }

  lemma DateColumnExample()
    ensures DateColumnIndex(["Name", "DATE", "date"]) == 1
  {
    assert !IsDateHeader("Name");
    assert Lower("DATE") == "date";
  }

  // ---------------------------------------------------------------------------
  // Report of the first ten rows

  datatype RowReport =
    | MissingDate                                                 // the row is too short
    | DateSample(value: string, verdict: Verdict, fixed: Option<string>) // `fixed` only for `Mon. D`

  /** One iteration of the display loop: the verdict, and for `Mon. D` the repaired form. */
  function ReportRow(row: seq<string>, col: nat, clockYear: int): (r: RowReport) {
    if |row| > col then
      var v := row[col];
      var verdict := Classify(v);
      DateSample(v, verdict, if verdict == MonthAbbrevNoYear then Some(AddYearToDates(v, None, clockYear)) else None)
    else MissingDate
  }

  function ReportRows(rows: seq<seq<string>>, col: nat, clockYear: int): (r: seq<RowReport>)
    ensures |r| == |rows|
    ensures forall i :: 0 <= i < |rows| ==> r[i] == ReportRow(rows[i], col, clockYear)
  {
    if rows == [] then [] else [ReportRow(rows[0], col, clockYear)] + ReportRows(rows[1..], col, clockYear)
  }

  /** The loop over `data[:10]`. */
  function DisplayReports(data: seq<seq<string>>, col: nat, clockYear: int): (r: seq<RowReport>) {
    ReportRows(data[..Min(|data|, 10)], col, clockYear)
  }

  /**
   * The report covers the first ten rows; a row long enough for the date
   * column gets its verdict, and every row the warning branch flags is
   * actually changed by the repair, into a string no rule recognises.
   */
  lemma DisplayReportsSound(data: seq<seq<string>>, col: nat, clockYear: int)
    ensures |DisplayReports(data, col, clockYear)| == Min(|data|, 10)
    ensures forall i :: 0 <= i < |DisplayReports(data, col, clockYear)| ==>
      var r := DisplayReports(data, col, clockYear)[i];
      && (r.DateSample? <==> |data[i]| > col)
      && (r.DateSample? ==> r.value == data[i][col] && Classify(r.value) == r.verdict)
      && (r.DateSample? ==> (r.fixed.Some? <==> r.verdict == MonthAbbrevNoYear))
      && (r.DateSample? && r.fixed.Some? ==>
            && r.fixed.value == r.value + ", " + IntToString(clockYear)
            && r.fixed.value != r.value
            && Classify(r.fixed.value) == Unrecognized)
  {
    var rs := DisplayReports(data, col, clockYear);
    forall i | 0 <= i < |rs|
      ensures rs[i].DateSample? && rs[i].fixed.Some? ==>
        && rs[i].fixed.value == rs[i].value + ", " + IntToString(clockYear)
        && rs[i].fixed.value != rs[i].value
        && Classify(rs[i].fixed.value) == Unrecognized
    {
      assert data[..Min(|data|, 10)][i] == data[i];
      if |data[i]| > col {
        var v := data[i][col];
        RepairChangesIffFlagged(v, None, clockYear);
        if Classify(v) == MonthAbbrevNoYear {
          ClassifyExact(v, MonthAbbrevNoYear);
          RepairNeverRecognized(v, None, clockYear);
        }
      }
    }
  }

  // ---------------------------------------------------------------------------
  // The automatic fix test over all rows

  /** The row has a date cell that lacks its year. */
  predicate Flagged(row: seq<string>, col: nat) {
    |row| > col && AbbrevNoYear(row[col])
  }

  /** `has_abbreviated_dates`: some row long enough for the date column has a `Mon. D` cell. */
  predicate HasAbbreviatedDates(data: seq<seq<string>>, col: nat) {
    data != [] && (Flagged(data[0], col) || HasAbbreviatedDates(data[1..], col))
  }

  lemma {:induction false} HasAbbreviatedDatesIff(data: seq<seq<string>>, col: nat)
    ensures HasAbbreviatedDates(data, col) <==> exists i :: 0 <= i < |data| && Flagged(data[i], col)
  {
    if data != [] {
      HasAbbreviatedDatesIff(data[1..], col);
      assert forall i :: 1 <= i < |data| ==> data[1..][i - 1] == data[i];
    }
  }

  /** `fixed_dates`: each row's date cell through the repair, `""` for a row without one. */
  function FixedDates(data: seq<seq<string>>, col: nat, currentYear: int): (r: seq<string>)
    ensures |r| == |data|
    ensures forall i :: 0 <= i < |data| ==>
      r[i] == if |data[i]| > col then AddYearToDates(data[i][col], Some(currentYear), currentYear) else ""
  {
    if data == [] then []
    else
      var head := if |data[0]| > col then AddYearToDates(data[0][col], Some(currentYear), currentYear) else "";
      [head] + FixedDates(data[1..], col, currentYear)
  }

  /**
   * The fix list changes exactly the flagged rows, so the flag holds iff the
   * fix changes something; and after the fix no entry lacks its year.
   */
  lemma FixedDatesSound(data: seq<seq<string>>, col: nat, currentYear: int)
    ensures forall i :: 0 <= i < |data| && |data[i]| > col ==>
      (FixedDates(data, col, currentYear)[i] != data[i][col] <==> Flagged(data[i], col))
    ensures forall i :: 0 <= i < |data| ==> !AbbrevNoYear(FixedDates(data, col, currentYear)[i])
    ensures HasAbbreviatedDates(data, col) <==>
      exists i :: 0 <= i < |data| && |data[i]| > col && FixedDates(data, col, currentYear)[i] != data[i][col]
  {
    var r := FixedDates(data, col, currentYear);
    forall i | 0 <= i < |data|
      ensures |data[i]| > col ==> (r[i] != data[i][col] <==> Flagged(data[i], col))
      ensures !AbbrevNoYear(r[i])
    {
      if |data[i]| > col {
        RepairChangesIffFlagged(data[i][col], Some(currentYear), currentYear);
        ClassifyExact(data[i][col], MonthAbbrevNoYear);
        RepairIdempotent(data[i][col], Some(currentYear), None, currentYear, currentYear);
      } else {
        assert r[i] == "";
        AbbrevShape("");
      }
    }
    HasAbbreviatedDatesIff(data, col);
  }

  lemma IsoLacksNoYear()
    ensures !AbbrevNoYear("2024-01-11")
  {
    AbbrevShape("2024-01-11");
    assert DigitRun("2024-01-11", 0) == 4;
  }

  /** A `Mon. D` date repaired with the year 2024. */
  lemma RepairWith2024(s: string, clockYear: int)
    requires AbbrevNoYear(s)
    ensures AddYearToDates(s, Some(2024), clockYear) == s + ", 2024"
  {
    YearText2024();
  }

  lemma BatchFixes()
    ensures FixedDates([["2024-01-11"], ["Jan. 18"], ["Feb. 25"]], 0, 2024)
      == ["2024-01-11", "Jan. 18, 2024", "Feb. 25, 2024"]
  {
    var data := [["2024-01-11"], ["Jan. 18"], ["Feb. 25"]];
    IsoLacksNoYear();
    BatchRepair("Jan. 18");
    BatchRepair("Feb. 25");
    var fixed := FixedDates(data, 0, 2024);
    assert data[0][0] == "2024-01-11" && data[1][0] == "Jan. 18" && data[2][0] == "Feb. 25";
    assert fixed[0] == "2024-01-11";
    assert fixed[1] == "Jan. 18, 2024";
    assert fixed[2] == "Feb. 25, 2024";
  }

  /** A three-letter month, `". "` and a two-digit day, repaired with the year 2024. */
  lemma BatchRepair(s: string)
    requires |s| == 7 && s[3] == '.' && s[4] == ' '
    requires IsAsciiLetter(s[0]) && IsAsciiLetter(s[1]) && IsAsciiLetter(s[2])
    requires IsDigit(s[5]) && IsDigit(s[6])
    ensures AddYearToDates(s, Some(2024), 2024) == s + ", 2024"
  {
    assert AbbrevSplit(s, 3, 2);
    RepairWith2024(s, 2024);
  }

  lemma BatchExample()
    ensures var data := [["2024-01-11"], ["Jan. 18"], ["Feb. 25"]];
      && HasAbbreviatedDates(data, 0)
      && FixedDates(data, 0, 2024) == ["2024-01-11", "Jan. 18, 2024", "Feb. 25, 2024"]
  {
    var data := [["2024-01-11"], ["Jan. 18"], ["Feb. 25"]];
    assert AbbrevSplit("Jan. 18", 3, 2);
    assert Flagged(data[1], 0);
    HasAbbreviatedDatesIff(data, 0);
    BatchFixes();
  }

  // ---------------------------------------------------------------------------
  // fetch_spreadsheet_data

  datatype Inspection =
    | NoSheetNames                                         // "Could not retrieve sheet names."
    | FetchFailed(range: string, status: int)              // the values request failed
    | NoData(range: string)                                // "No data found in spreadsheet"
    | NoDateColumn(range: string, headers: seq<string>, rowCount: nat)
    | Inspected(range: string, headers: seq<string>, rows: seq<seq<string>>, dateColumn: nat,
                shown: seq<RowReport>, abbreviated: bool, fixedDates: Option<seq<string>>)

  /** The `values` entry of the reply, an empty list when it is absent. */
  function ValueRows(reply: ValuesResponse): (rows: seq<seq<string>>) {
    reply.values.GetOr([])
  }

  /**
   * The whole inspection, with its early returns. `sheetsReply` answers the
   * metadata request of `get_sheet_names`, `valuesReply` the request for the
   * chosen range.
   */
  method FetchSpreadsheetData(cfg: Config, sheetsReply: SheetsResponse, valuesReply: ValuesResponse, clockYear: int)
    returns (r: Inspection)
    ensures r.NoSheetNames? <==> GetSheetNames(cfg, sheetsReply) == []
    ensures !r.NoSheetNames? ==>
      r.range == SheetToUse(GetSheetNames(cfg, sheetsReply), cfg.sheetName) + "!A1:G100"
    ensures r.FetchFailed? <==> GetSheetNames(cfg, sheetsReply) != [] && valuesReply.status != 200
    ensures r.FetchFailed? ==> r.status == valuesReply.status
    ensures r.NoData? <==>
      GetSheetNames(cfg, sheetsReply) != [] && valuesReply.status == 200 && ValueRows(valuesReply) == []
    ensures r.NoDateColumn? <==>
      && GetSheetNames(cfg, sheetsReply) != [] && valuesReply.status == 200 && ValueRows(valuesReply) != []
      && DateColumnIndex(ValueRows(valuesReply)[0]) == -1
    ensures r.NoDateColumn? ==>
      [r.headers] + ValueRows(valuesReply)[1..] == ValueRows(valuesReply) && r.rowCount == |ValueRows(valuesReply)| - 1
    ensures r.Inspected? ==>
      && [r.headers] + r.rows == ValueRows(valuesReply)
      && r.dateColumn == DateColumnIndex(r.headers)
      && r.dateColumn < |r.headers| && IsDateHeader(r.headers[r.dateColumn])
      && r.shown == DisplayReports(r.rows, r.dateColumn, clockYear)
      && r.abbreviated == HasAbbreviatedDates(r.rows, r.dateColumn)
      && r.fixedDates == if r.abbreviated then Some(FixedDates(r.rows, r.dateColumn, clockYear)) else None
  {
    var sheetNames := GetSheetNames(cfg, sheetsReply);
    if sheetNames == [] {
      return NoSheetNames;
    }
    var sheet := SheetToUse(sheetNames, cfg.sheetName);
    var rangeName := sheet + "!" + CellRange;
    if valuesReply.status != 200 {
      return FetchFailed(rangeName, valuesReply.status);
    }
    var values := ValueRows(valuesReply);
    if values == [] {
      return NoData(rangeName);
    }
    var headers, data := values[0], values[1..];
    assert [headers] + data == values;
    var col := FindDateColumn(headers);
    if col == -1 {
      return NoDateColumn(rangeName, headers, |data|);
    }
    var shown := DisplayReports(data, col, clockYear);
    var abbreviated := HasAbbreviatedDates(data, col);
    var fixedDates := if abbreviated then Some(FixedDates(data, col, clockYear)) else None;
    return Inspected(rangeName, headers, data, col, shown, abbreviated, fixedDates);
  }
}
