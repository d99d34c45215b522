/**
 * Matrix mode of parse_output (ramsleuth_pkg/parser.py): a pipe table whose header row
 * names one column per DIMM, read into one record per column.
 */
module Matrix {
  import opened Outcome
  import opened Text
  import opened DimmRecords

  /** [p.strip() for p in line.split("|")] */
  function Cells(line: string): seq<string>
  {
    var parts := SplitOn(line, '|');
    seq(|parts|, i requires 0 <= i < |parts| => Strip(parts[i]))
  }

  /** The header row: a first cell starting with "field" and a later one mentioning "dimm", in any case. */
  predicate IsHeaderRow(line: string)
  {
    var parts := Cells(line);
    && '|' in line
    && |parts| >= 2
    && StartsWith(Lower(parts[0]), "field")
    && exists j :: 1 <= j < |parts| && Contains(Lower(parts[j]), "dimm")
  }

  /** Which lines are header rows. */
  function HeaderTable(lines: seq<string>): (t: seq<bool>)
    ensures |t| == |lines|
  {
    if lines == [] then [] else HeaderTable(lines[..|lines| - 1]) + [IsHeaderRow(lines[|lines| - 1])]
  }

  lemma {:induction false} HeaderTableAt(lines: seq<string>, j: nat)
    requires j < |lines|
    ensures HeaderTable(lines)[j] == IsHeaderRow(lines[j])
  {
    var n := |lines| - 1;
    if j < n {
      HeaderTableAt(lines[..n], j);
    }
  }

  /** The index of the first header row at or after i. */
  function HeaderFrom(lines: seq<string>, i: nat): (r: Option<nat>)
    requires i <= |lines|
    ensures r.Some? ==> i <= r.value < |lines|
  {
    FirstTrue(HeaderTable(lines), i)
  }

  /** The header search finds the first header row at or after i, and none when there is none. */
  lemma HeaderFromSpec(lines: seq<string>, i: nat)
    requires i <= |lines|
    ensures HeaderFrom(lines, i).Some? ==> IsHeaderRow(lines[HeaderFrom(lines, i).value])
    ensures HeaderFrom(lines, i).Some? ==> forall j :: i <= j < HeaderFrom(lines, i).value ==> !IsHeaderRow(lines[j])
    ensures HeaderFrom(lines, i).None? ==> forall j :: i <= j < |lines| ==> !IsHeaderRow(lines[j])
  {
    var r := HeaderFrom(lines, i);
    forall j | i <= j < |lines| && (r.None? || j <= r.value)
      ensures HeaderTable(lines)[j] == IsHeaderRow(lines[j])
    {
      HeaderTableAt(lines, j);
    }
  }

  /** The index of the first header row. */
  function HeaderRow(lines: seq<string>): Option<nat>
  {
    HeaderFrom(lines, 0)
  }

  /** The header search loop: it stops at the first header row. */
  method FindHeader(lines: seq<string>) returns (index: Option<nat>)
    ensures index == HeaderRow(lines)
  {
    var idx := 0;
    while idx < |lines|
      invariant 0 <= idx <= |lines|
      invariant HeaderRow(lines) == HeaderFrom(lines, idx)
    {
      HeaderTableAt(lines, idx);
      if IsHeaderRow(lines[idx]) {
        return Some(idx);
      }
      idx := idx + 1;
    }
    return None;
  }

  // ---------------------------------------------------------------- one table row

  /** What the row loop does with a line: end the table, skip it, or write a labelled row. */
  datatype Row = Stop | Skip | Values(labelRaw: string, values: seq<string>)

  function ClassifyRow(line: string): (r: Row)
    ensures r.Values? ==> r.labelRaw != [] && !IsNoiseLabel(Lower(r.labelRaw))
  {
    var stripped := LStrip(line);
    if StartsWith(stripped, "Decoding EEPROM") || StartsWith(stripped, "SPD data for") then Stop
    else if '|' !in line then Skip
    else
      var parts := Cells(line);
      if |parts| < 2 then Skip
      else
        var labelRaw := RStripChar(Strip(parts[0]), ':');
        if labelRaw == [] || StartsWith(labelRaw, "#") then Skip
        else if IsNoiseLabel(Lower(labelRaw)) then Skip
        else Values(labelRaw, parts[1..])
  }

  /** The value cells right-padded with "" or cut to the header's column count. */
  function Fit(values: seq<string>, n: nat): (r: seq<string>)
    ensures |r| == n
    ensures forall i :: 0 <= i < n ==> r[i] == if i < |values| then values[i] else ""
  {
    if |values| < n then values + seq(n - |values|, _ => "")
    else values[..n]
  }

  /** The field name a row label is stored under. */
  function CanonicalKey(labelRaw: string, dialect: Dialect): (r: string)
    ensures r == labelRaw || IsMatrixKey(r)
  {
    var l := Lower(labelRaw);
    if l == "size/capacity" || l == "module capacity" || l == "module size" then "module_gb"
    else if Contains(l, "module manufacturer") then "manufacturer"
    else if l == "dram manufacturer" then "dram_mfg"
    else if l == "part number" then "module_part_number"
    else if l == "fundamental memory type" then "generation"
    else if l == "module nominal voltage" then "JEDEC_voltage"
    else if dialect == Package && l == "minimum voltage" then "min_voltage"
    else if dialect == Package && l == "maximum voltage" then "max_voltage"
    else if dialect == Package && l == "configured voltage" then "configured_voltage"
    else if dialect == Package && (l == "configured memory speed" || l == "configured speed") then "configured_speed"
    else if l == "ranks" || Contains(l, "number of ranks") then "module_ranks"
    else if l == "sdram device width" then "SDRAM Device Width"
    else if l == "guessing dimm is in" then GuessKey
    else if l == "jedec timings" then "JEDEC Timings"
    else if l == "additional jedec timings malformed" then MalformedTimingsKey
    else if labelRaw == MalformedColumnsKey then MalformedColumnsKey
    else if l == "pmic manufacturer" then "PMIC Manufacturer"
    else if l == "hynix ic part number" then "Hynix IC Part Number"
    else labelRaw
  }

  /** One cell: a non-blank value is stored under the key, and a slot guess also becomes the slot. */
  function WriteCell(d: Dimm, key: string, raw: string): Dimm
  {
    var val := Strip(raw);
    if val == [] then d
    else if key == GuessKey then d[GuessKey := val][SlotKey := val]
    else d[key := val]
  }

  function WriteRow(dimms: seq<Dimm>, key: string, cells: seq<string>): seq<Dimm>
    requires |cells| == |dimms|
  {
    seq(|dimms|, i requires 0 <= i < |dimms| => WriteCell(dimms[i], key, cells[i]))
  }

  /** for d in dimms: d.setdefault(key, "") */
  function SetDefaultEach(dimms: seq<Dimm>, key: string): seq<Dimm>
  {
    seq(|dimms|, i requires 0 <= i < |dimms| => SetDefault(dimms[i], key))
  }

  /** The effect of one labelled row on the column records. */
  function ApplyRow(dimms: seq<Dimm>, labelRaw: string, values: seq<string>, dialect: Dialect): seq<Dimm>
  {
    var written := WriteRow(dimms, CanonicalKey(labelRaw, dialect), Fit(values, |dimms|));
    var withTimings :=
      if Lower(labelRaw) == "additional jedec timings malformed" then SetDefaultEach(written, MalformedTimingsKey)
      else written;
    if labelRaw == MalformedColumnsKey then SetDefaultEach(withTimings, MalformedColumnsKey) else withTimings
  }

  /** The classification of each line. */
  function Classify(lines: seq<string>): (r: seq<Row>)
    ensures |r| == |lines|
  {
    seq(|lines|, i requires 0 <= i < |lines| => ClassifyRow(lines[i]))
  }

  /** The row loop over the lines after the header, up to the first line that ends the table. */
  function MatrixRun(rows: seq<Row>, dimms: seq<Dimm>, dialect: Dialect): seq<Dimm>
  {
    if rows == [] then dimms
    else
      match rows[0]
      case Stop => dimms
      case Skip => MatrixRun(rows[1..], dimms, dialect)
      case Values(labelRaw, values) => MatrixRun(rows[1..], ApplyRow(dimms, labelRaw, values, dialect), dialect)
  }

  /** [d for d in dimms if d] */
  function NonEmpty(dimms: seq<Dimm>): (r: seq<Dimm>)
    ensures |r| <= |dimms|
    ensures forall k :: 0 <= k < |r| ==> r[k] != map[] && r[k] in dimms
  {
    if dimms == [] then []
    else (if dimms[0] != map[] then [dimms[0]] else []) + NonEmpty(dimms[1..])
  }

  function Blank(n: nat): seq<Dimm>
  {
    seq(n, _ => map[])
  }

  /** The records matrix mode returns: none without a header row, else the non-empty columns. */
  function MatrixRecords(lines: seq<string>, dialect: Dialect): seq<Dimm>
  {
    match HeaderRow(lines)
    case None => []
    case Some(h) => Columns(Cells(lines[h])[1..], lines[h + 1..], dialect)
  }

  /** The non-empty columns read from the lines under a header row with the given header cells. */
  function Columns(headers: seq<string>, body: seq<string>, dialect: Dialect): seq<Dimm>
  {
    if headers == [] then []
    else NonEmpty(MatrixRun(Classify(body), Blank(|headers|), dialect))
  }

  // ---------------------------------------------------------------- the loops

  method SetDefaults(dimms: seq<Dimm>, key: string) returns (updated: seq<Dimm>)
    ensures updated == SetDefaultEach(dimms, key)
  {
    updated := dimms;
    for i := 0 to |dimms|
      invariant |updated| == |dimms|
      invariant forall j :: 0 <= j < |dimms| ==> updated[j] == if j < i then SetDefault(dimms[j], key) else dimms[j]
    {
      updated := updated[i := SetDefault(updated[i], key)];
    }
  }

  /** The body of the row loop for a labelled row. */
  method ScanRow(dimms: seq<Dimm>, labelRaw: string, values: seq<string>, dialect: Dialect)
    returns (updated: seq<Dimm>)
    ensures updated == ApplyRow(dimms, labelRaw, values, dialect)
  {
    var n := |dimms|;
    var cells := values;
    if |cells| < n {
      cells := cells + seq(n - |cells|, _ => "");
    } else if |cells| > n {
      cells := cells[..n];
    }
    assert cells == Fit(values, n);
    var key := CanonicalKey(labelRaw, dialect);
    updated := dimms;
    for i := 0 to n
      invariant |updated| == n
      invariant forall j :: 0 <= j < n ==> updated[j] == if j < i then WriteCell(dimms[j], key, cells[j]) else dimms[j]
    {
      updated := updated[i := WriteCell(updated[i], key, cells[i])];
    }
    assert updated == WriteRow(dimms, key, cells);
    if Lower(labelRaw) == "additional jedec timings malformed" {
      updated := SetDefaults(updated, MalformedTimingsKey);
    }
    if labelRaw == MalformedColumnsKey {
      updated := SetDefaults(updated, MalformedColumnsKey);
    }
  }

  /** Matrix mode: find the header, read rows until the table ends, keep the non-empty columns. */
  method ParseMatrix(lines: seq<string>, dialect: Dialect) returns (records: seq<Dimm>)
    ensures records == MatrixRecords(lines, dialect)
  {
    records := [];
    var header := FindHeader(lines);
    if header.None? {
      return;
    }
    var h := header.value;
    var headers := Cells(lines[h])[1..];
    if headers == [] {
      return;
    }
    var n := |headers|;
    var dimms := Blank(n);
    var rows := Classify(lines[h + 1..]);
    var i := 0;
    while i < |rows|
      invariant 0 <= i <= |rows|
      invariant MatrixRun(rows[i..], dimms, dialect) == MatrixRun(rows, Blank(n), dialect)
    {
      assert rows[i..][0] == rows[i] && rows[i..][1..] == rows[i + 1..];
      var row := ClassifyRow(lines[h + 1 + i]);
      assert row == rows[i];
      if row.Stop? {
        break;
      }
      if row.Values? {
        dimms := ScanRow(dimms, row.labelRaw, row.values, dialect);
      }
      i := i + 1;
    }
    records := NonEmpty(dimms);
  }

  // ---------------------------------------------------------------- what matrix mode promises

  /** The row loop keeps one record per header column. */
  lemma {:induction false} MatrixRunLength(rows: seq<Row>, dimms: seq<Dimm>, dialect: Dialect)
    ensures |MatrixRun(rows, dimms, dialect)| == |dimms|
  {
    if rows != [] {
      match rows[0]
      case Stop =>
      case Skip => MatrixRunLength(rows[1..], dimms, dialect);
      case Values(labelRaw, values) => MatrixRunLength(rows[1..], ApplyRow(dimms, labelRaw, values, dialect), dialect);
    }
  }

  /**
   * At most one record per header column, none of them empty, and none at all without
   * a header row.
   */
  lemma MatrixRecordCount(lines: seq<string>, dialect: Dialect)
    ensures HeaderRow(lines).None? ==> MatrixRecords(lines, dialect) == []
    ensures HeaderRow(lines).Some? ==>
      |MatrixRecords(lines, dialect)| <= |Cells(lines[HeaderRow(lines).value])| - 1
    ensures forall k :: 0 <= k < |MatrixRecords(lines, dialect)| ==> MatrixRecords(lines, dialect)[k] != map[]
  {
    var hr := HeaderRow(lines);
    if hr.Some? {
      var h := hr.value;
      var headers := Cells(lines[h])[1..];
      ColumnsCount(headers, lines[h + 1..], dialect);
      assert MatrixRecords(lines, dialect) == Columns(headers, lines[h + 1..], dialect);
    }
  }

  lemma ColumnsCount(headers: seq<string>, body: seq<string>, dialect: Dialect)
    ensures |Columns(headers, body, dialect)| <= |headers|
  {
    if headers != [] {
      MatrixRunLength(Classify(body), Blank(|headers|), dialect);
    }
  }

  /** The two setdefault passes a row may trigger, as seen by one record. */
  function Finish(d: Dimm, addTimings: bool, addColumns: bool): Dimm
  {
    var t := if addTimings then SetDefault(d, MalformedTimingsKey) else d;
    if addColumns then SetDefault(t, MalformedColumnsKey) else t
  }

  lemma ApplyRowAt(dimms: seq<Dimm>, labelRaw: string, values: seq<string>, dialect: Dialect, i: nat)
    requires i < |dimms|
    ensures |ApplyRow(dimms, labelRaw, values, dialect)| == |dimms|
    ensures ApplyRow(dimms, labelRaw, values, dialect)[i] ==
      Finish(WriteCell(dimms[i], CanonicalKey(labelRaw, dialect), if i < |values| then values[i] else ""),
             Lower(labelRaw) == "additional jedec timings malformed", labelRaw == MalformedColumnsKey)
  {
    var key := CanonicalKey(labelRaw, dialect);
    var cells := Fit(values, |dimms|);
    var written := WriteRow(dimms, key, cells);
    assert written[i] == WriteCell(dimms[i], key, cells[i]);
  }

  /**
   * One record under one cell: a blank cell writes nothing (only the two diagnostic
   * keys may appear, empty); a non-blank one is stored stripped under the key, and a
   * slot guess is the slot too; no other key changes.
   */
  lemma CellEffect(d: Dimm, key: string, cell: string, addTimings: bool, addColumns: bool)
    ensures var r := Finish(WriteCell(d, key, cell), addTimings, addColumns);
      && (forall k :: k in r && k != key && k != SlotKey && k != MalformedTimingsKey && k != MalformedColumnsKey ==>
            k in d && r[k] == d[k])
      && (Strip(cell) == [] ==>
            && (forall k :: k in d ==> k in r && r[k] == d[k])
            && (forall k :: k in r && k !in d ==> (k == MalformedTimingsKey || k == MalformedColumnsKey) && r[k] == ""))
      && (Strip(cell) != [] ==>
            && key in r && r[key] == Strip(cell)
            && (key == GuessKey ==> SlotKey in r && r[SlotKey] == Strip(cell)))
  {
  }

  /**
   * What a labelled row does to column i: the cell is the i-th value, or "" past the
   * end of the row (values past the header's column count are never read); a blank
   * cell writes nothing (only the two diagnostic keys may appear, empty); a non-blank
   * cell is stored stripped under the canonical key, and a slot guess is the slot too.
   */
  lemma ApplyRowCell(dimms: seq<Dimm>, labelRaw: string, values: seq<string>, dialect: Dialect, i: nat)
    requires i < |dimms|
    ensures |ApplyRow(dimms, labelRaw, values, dialect)| == |dimms|
    ensures var cell := if i < |values| then values[i] else "";
      var r := ApplyRow(dimms, labelRaw, values, dialect)[i];
      var key := CanonicalKey(labelRaw, dialect);
      && (forall k :: k in r && k != key && k != SlotKey && k != MalformedTimingsKey && k != MalformedColumnsKey ==>
            k in dimms[i] && r[k] == dimms[i][k])
      && (Strip(cell) == [] ==>
            && (forall k :: k in dimms[i] ==> k in r && r[k] == dimms[i][k])
            && (forall k :: k in r && k !in dimms[i] ==> (k == MalformedTimingsKey || k == MalformedColumnsKey) && r[k] == ""))
      && (Strip(cell) != [] ==>
            && key in r && r[key] == Strip(cell)
            && (key == GuessKey ==> SlotKey in r && r[SlotKey] == Strip(cell)))
  {
    ApplyRowAt(dimms, labelRaw, values, dialect, i);
    CellEffect(dimms[i], CanonicalKey(labelRaw, dialect), if i < |values| then values[i] else "",
               Lower(labelRaw) == "additional jedec timings malformed", labelRaw == MalformedColumnsKey);
  }

  /** A line that ends the table hides every line after it. */
  lemma {:induction false} StopEndsTable(rows: seq<Row>, dimms: seq<Dimm>, dialect: Dialect, k: nat)
    requires k < |rows| && rows[k].Stop?
    requires forall j :: 0 <= j < k ==> !rows[j].Stop?
    ensures MatrixRun(rows, dimms, dialect) == MatrixRun(rows[..k], dimms, dialect)
  {
    if k > 0 {
      var t := rows[1..];
      assert rows[..k][0] == rows[0] && rows[..k][1..] == t[..k - 1];
      assert forall j :: 0 <= j < k - 1 ==> t[j] == rows[j + 1];
      match rows[0]
      case Skip => StopEndsTable(t, dimms, dialect, k - 1);
      case Values(labelRaw, values) =>
        StopEndsTable(t, ApplyRow(dimms, labelRaw, values, dialect), dialect, k - 1);
    }
  }

  /** A record none of whose keys lower-cases to a noise label. */
  predicate MatrixClean(d: Dimm)
  {
    forall k :: k in d ==> !IsNoiseLabel(Lower(k))
  }

  lemma AddedKeysClean()
    ensures !IsNoiseLabel(Lower(SlotKey))
    ensures !IsNoiseLabel(Lower(MalformedTimingsKey)) && !IsNoiseLabel(Lower(MalformedColumnsKey))
  {
    MatrixKeyLengths(MalformedTimingsKey);
    MatrixKeyLengths(MalformedColumnsKey);
  }

  /** A labelled row adds no noise key to a clean record. */
  lemma ApplyRowClean(dimms: seq<Dimm>, labelRaw: string, values: seq<string>, dialect: Dialect)
    requires labelRaw != [] && !IsNoiseLabel(Lower(labelRaw))
    requires forall j :: 0 <= j < |dimms| ==> MatrixClean(dimms[j])
    ensures forall j :: 0 <= j < |ApplyRow(dimms, labelRaw, values, dialect)| ==>
      MatrixClean(ApplyRow(dimms, labelRaw, values, dialect)[j])
  {
    var key := CanonicalKey(labelRaw, dialect);
    if key != labelRaw {
      MatrixKeyLengths(key);
    }
    AddedKeysClean();
    forall j | 0 <= j < |dimms| ensures MatrixClean(ApplyRow(dimms, labelRaw, values, dialect)[j]) {
      ApplyRowCell(dimms, labelRaw, values, dialect, j);
    }
  }

  /** A classified row is either not labelled or carries a label that is not noise. */
  predicate ValidRows(rows: seq<Row>)
  {
    forall j :: 0 <= j < |rows| ==> rows[j].Values? ==> rows[j].labelRaw != [] && !IsNoiseLabel(Lower(rows[j].labelRaw))
  }

  lemma {:induction false} MatrixRunClean(rows: seq<Row>, dimms: seq<Dimm>, dialect: Dialect)
    requires ValidRows(rows)
    requires forall j :: 0 <= j < |dimms| ==> MatrixClean(dimms[j])
    ensures forall j :: 0 <= j < |MatrixRun(rows, dimms, dialect)| ==> MatrixClean(MatrixRun(rows, dimms, dialect)[j])
  {
    if rows != [] {
      assert ValidRows(rows[1..]) by {
        forall j | 0 <= j < |rows| - 1 ensures rows[1..][j] == rows[j + 1] { }
      }
      match rows[0]
      case Stop =>
      case Skip => MatrixRunClean(rows[1..], dimms, dialect);
      case Values(labelRaw, values) =>
        ApplyRowClean(dimms, labelRaw, values, dialect);
        MatrixRunClean(rows[1..], ApplyRow(dimms, labelRaw, values, dialect), dialect);
    }
  }

  /** No matrix record holds a key whose lower case is a noise label ("noise", the garbage line, blank). */
  lemma MatrixRecordsClean(lines: seq<string>, dialect: Dialect)
    ensures forall k :: 0 <= k < |MatrixRecords(lines, dialect)| ==> MatrixClean(MatrixRecords(lines, dialect)[k])
  {
    var hr := HeaderRow(lines);
    if hr.Some? {
      var h := hr.value;
      var headers := Cells(lines[h])[1..];
      ColumnsClean(headers, lines[h + 1..], dialect);
      assert MatrixRecords(lines, dialect) == Columns(headers, lines[h + 1..], dialect);
    }
  }

  lemma ColumnsClean(headers: seq<string>, body: seq<string>, dialect: Dialect)
    ensures forall k :: 0 <= k < |Columns(headers, body, dialect)| ==> MatrixClean(Columns(headers, body, dialect)[k])
  {
    if headers != [] {
      var rows := Classify(body);
      assert ValidRows(rows) by {
        forall j | 0 <= j < |rows| ensures rows[j] == ClassifyRow(body[j]) { }
      }
      MatrixRunClean(rows, Blank(|headers|), dialect);
    }
  }

  /** The row "Debug | on" splits at its one pipe. */
  lemma DebugSplit()
    ensures SplitOn("Debug | on", '|') == ["Debug ", " on"]
  {
    var line := "Debug | on";
    assert OccursAt(line, "|", 6);
    forall j | 0 <= j < 6 ensures !OccursAt(line, "|", j) {
      assert line[j..j + 1] == [line[j]];
    }
    assert Find(line, "|") == Some(6);
    assert line[..6] == "Debug " && line[7..] == " on";
    NotContainsFirstChar(" on", "|");
  }

  /** Both halves of the row lose their padding. */
  lemma DebugHalvesStripped()
    ensures Strip("Debug ") == "Debug" && Strip(" on") == "on"
  {
    assert RStrip("Debug ") == "Debug" by {
      assert "Debug "[..5] == "Debug";
    }
    assert LStrip(" on") == "on" by {
      assert " on"[1..] == "on";
    }
  }

  /** The cells of the row "Debug | on". */
  lemma DebugCells()
    ensures Cells("Debug | on") == ["Debug", "on"]
  {
    DebugSplit();
    DebugHalvesStripped();
  }

  /** Only the first letter of "Debug" changes case. */
  lemma LowerDebug()
    ensures Lower("Debug") == "debug"
  {
    var l := Lower("Debug");
    assert |l| == 5;
    forall i | 0 <= i < 5 ensures l[i] == "debug"[i] {
      assert l[i] == LowerChar("Debug"[i]);
    }
  }

  /** "Debug" is not one of the labels given a canonical field name. */
  lemma DebugKey(dialect: Dialect)
    ensures CanonicalKey("Debug", dialect) == "Debug"
  {
    LowerDebug();
    var l := Lower("Debug");
    assert !(l == "size/capacity" || l == "module capacity" || l == "module size");
    assert !Contains(l, "module manufacturer");
    assert !(l == "dram manufacturer" || l == "part number" || l == "fundamental memory type" || l == "module nominal voltage");
    assert !(l == "minimum voltage" || l == "maximum voltage" || l == "configured voltage" || l == "configured memory speed" || l == "configured speed");
    assert !(l == "ranks" || Contains(l, "number of ranks"));
    assert !(l == "sdram device width" || l == "guessing dimm is in" || l == "jedec timings" || l == "additional jedec timings malformed");
    assert "Debug" != MalformedColumnsKey;
    assert !(l == "pmic manufacturer" || l == "hynix ic part number");
  }

  /** The row "Debug | on" neither ends the table nor lacks a pipe. */
  lemma DebugLineOpen()
    ensures LStrip("Debug | on") == "Debug | on"
    ensures !StartsWith("Debug | on", "Decoding EEPROM") && !StartsWith("Debug | on", "SPD data for")
    ensures '|' in "Debug | on"
  {
    var line := "Debug | on";
    assert !IsSpace(line[0]);
    assert line[6] == '|';
  }

  /** The label "Debug" is kept as it is by every skip test of the row loop. */
  lemma DebugLabelPasses()
    ensures RStripChar(Strip("Debug"), ':') == "Debug"
    ensures !StartsWith("Debug", "#") && !IsNoiseLabel(Lower("Debug"))
  {
    LowerDebug();
    assert Strip("Debug") == "Debug" by {
      assert !IsSpace("Debug"[4]);
      assert !IsSpace("Debug"[0]);
    }
    assert RStripChar("Debug", ':') == "Debug";
  }

  /** The row "Debug | on" is classified as a labelled row. */
  lemma DebugRowClassified()
    ensures ClassifyRow("Debug | on") == Values("Debug", ["on"])
  {
    DebugLineOpen();
    DebugCells();
    DebugLabelPasses();
  }

  /**
   * "Debug" is not among matrix mode's noise labels, so a "Debug" row is kept and
   * stored under its own name.
   */
  /** The value "on" is written under "Debug" as it stands. */
  lemma DebugCellWritten()
    ensures WriteCell(map[], "Debug", "on") == map["Debug" := "on"]
  {
    assert Strip("on") == "on" by {
      assert !IsSpace("on"[1]);
      assert !IsSpace("on"[0]);
    }
    assert "Debug" != GuessKey;
  }

  /** A "Debug" row writes its value into the one column record under the key "Debug". */
  lemma DebugRowWritten(dialect: Dialect)
    ensures ApplyRow([map[]], "Debug", ["on"], dialect) == [map["Debug" := "on"]]
  {
    DebugKey(dialect);
    LowerDebug();
    DebugCellWritten();
    assert Fit(["on"], 1) == ["on"];
    var written := WriteRow([map[]], "Debug", ["on"]);
    assert written[0] == WriteCell(map[], "Debug", "on");
    assert written == [map["Debug" := "on"]];
    assert "Debug" != MalformedColumnsKey;
  }

  lemma DebugRowKept(dialect: Dialect)
    ensures ClassifyRow("Debug | on") == Values("Debug", ["on"])
    ensures ApplyRow([map[]], "Debug", ["on"], dialect) == [map["Debug" := "on"]]
  {
    DebugRowClassified();
    DebugRowWritten(dialect);
  }
}
