/** A whole file: an export joins its rows with newlines; the product upload splits its text at newlines before it looks
    at quotes, checks the columns, and trims every cell. */
module CsvFile {
  import opened Schema
  import opened Csv

  // ---------- The upload ----------

  /** What String.prototype.trim strips. */
  predicate IsSpace(c: char) {
    || c == ' ' || c == '\t' || c == '\n' || c == '\U{0B}' || c == '\U{0C}' || c == '\r' || c == '\U{A0}'
    || c == '\U{1680}' || '\U{2000}' <= c <= '\U{200A}' || c == '\U{2028}' || c == '\U{2029}' || c == '\U{202F}'
    || c == '\U{205F}' || c == '\U{3000}' || c == '\U{FEFF}'
  }

  function TrimStart(line: string): string {
    if line != "" && IsSpace(line[0]) then TrimStart(line[1..]) else line
  }

  function TrimEnd(line: string): string {
    if line != "" && IsSpace(line[|line| - 1]) then TrimEnd(line[..|line| - 1]) else line
  }

  function Trim(line: string): string {
    TrimEnd(TrimStart(line))
  }

  /** split(separator), from one position on. */
  function SplitAt(text: string, separator: char, current: string): seq<string> {
    if text == "" then [current]
    else if text[0] == separator then [current] + SplitAt(text[1..], separator, "")
    else SplitAt(text[1..], separator, current + [text[0]])
  }

  function TrimAll(texts: seq<string>): (r: seq<string>)
    ensures |r| == |texts|
  {
    seq(|texts|, i requires 0 <= i < |texts| => Trim(texts[i]))
  }

  /** filter(Boolean). */
  function Kept(lines: seq<string>): seq<string> {
    if lines == [] then [] else (if lines[0] == "" then [] else [lines[0]]) + Kept(lines[1..])
  }

  function DataLines(text: string): seq<string> {
    Kept(TrimAll(SplitAt(text, '\n', "")))
  }

  /** toLowerCase; the required names are ASCII. */
  function Lower(text: string): string {
    if text == "" then ""
    else [if 'A' <= text[0] <= 'Z' then text[0] - 'A' + 'a' else text[0]] + Lower(text[1..])
  }

  function LowerAll(texts: seq<string>): (r: seq<string>)
    ensures |r| == |texts|
  {
    seq(|texts|, i requires 0 <= i < |texts| => Lower(texts[i]))
  }

  const REQUIRED := ["name", "slug", "description", "brandid", "categoryid", "baseprice"]

  function Headers(line: string): seq<string> {
    LowerAll(TrimAll(SplitAt(line, ',', "")))
  }

  predicate HasRequired(headers: seq<string>) {
    forall i :: 0 <= i < |REQUIRED| ==> REQUIRED[i] in headers
  }

  /** Refused is the throw; a row is None if its column count does not match the header. */
  datatype Upload = Refused | Read(rows: seq<Option<seq<string>>>)

  function RowOf(width: nat, line: string): Option<seq<string>> {
    if |Parsed(line)| != width then None else Some(TrimAll(Parsed(line)))
  }

  function RowsOf(width: nat, lines: seq<string>): (r: seq<Option<seq<string>>>)
    ensures |r| == |lines|
  {
    seq(|lines|, i requires 0 <= i < |lines| => RowOf(width, lines[i]))
  }

  function Uploaded(text: string): Upload {
    var lines := DataLines(text);
    if |lines| < 2 || !HasRequired(Headers(lines[0])) then Refused
    else Read(RowsOf(|Headers(lines[0])|, lines[1..]))
  }

  /** bulkUpload up to the cells of each row. */
  method BulkUpload(csvText: string) returns (result: Upload)
    ensures result == Uploaded(csvText)
  {
    var lines := DataLines(csvText);
    if |lines| < 2 {
      return Refused;
    }
    var headers := Headers(lines[0]);
    if exists i :: 0 <= i < |REQUIRED| && REQUIRED[i] !in headers {
      return Refused;
    }
    var rows: seq<Option<seq<string>>> := [];
    var i := 1;
    while i < |lines|
      invariant 1 <= i <= |lines| && |rows| == i - 1
      invariant forall k :: 0 <= k < i - 1 ==> rows[k] == RowOf(|headers|, lines[k + 1])
    {
      var cols := ParseCSVLine(lines[i]);
      rows := rows + [if |cols| != |headers| then None else Some(TrimAll(cols))];
      i := i + 1;
    }
    assert rows == RowsOf(|headers|, lines[1..]);
    result := Read(rows);
  }

  // ---------- The export ----------

  function Joined(lines: seq<string>): string {
    if lines == [] then "" else if |lines| == 1 then lines[0] else lines[0] + "\n" + Joined(lines[1..])
  }

  function PrintRows(rows: seq<seq<string>>): (r: seq<string>)
    ensures |r| == |rows|
  {
    seq(|rows|, i requires 0 <= i < |rows| => PrintRow(rows[i]))
  }

  function ExportedFile(header: string, rows: seq<seq<string>>): string {
    Joined([header] + PrintRows(rows))
  }

  // ---------- Splitting and trimming ----------

  lemma {:induction false} SplitAtSeparator(a: string, b: string, separator: char, current: string)
    ensures SplitAt(a + [separator] + b, separator, current)
         == SplitAt(a, separator, current) + SplitAt(b, separator, "")
    decreases |a|
  {
    var text := a + [separator] + b;
    if a == "" {
      assert text == [separator] + b && text[1..] == b;
    } else {
      assert text[1..] == a[1..] + [separator] + b;
      SplitAtSeparator(a[1..], b, separator, if a[0] == separator then "" else current + [a[0]]);
    }
  }

  lemma {:induction false} OnePiece(text: string, separator: char, current: string)
    requires separator !in text
    ensures SplitAt(text, separator, current) == [current + text]
    decreases |text|
  {
    if text == "" {
      assert current + text == current;
    } else {
      OnePiece(text[1..], separator, current + [text[0]]);
      assert current + [text[0]] + text[1..] == current + text;
    }
  }

  lemma {:induction false} PiecesHaveNoSeparator(text: string, separator: char, current: string)
    requires separator !in current
    ensures forall p :: p in SplitAt(text, separator, current) ==> separator !in p
    decreases |text|
  {
    if text != "" {
      PiecesHaveNoSeparator(text[1..], separator, if text[0] == separator then "" else current + [text[0]]);
    }
  }

  lemma {:induction false} TrimDropsOnly(text: string, c: char)
    requires c !in text
    ensures c !in TrimStart(text) && c !in TrimEnd(text)
    decreases |text|
  {
    if text != "" {
      assert c !in text[1..] && c !in text[..|text| - 1];
      TrimDropsOnly(text[1..], c);
      TrimDropsOnly(text[..|text| - 1], c);
    }
  }

  lemma {:induction false} KeptAreMembers(lines: seq<string>)
    ensures forall l :: l in Kept(lines) ==> l in lines
  {
    if lines != [] {
      KeptAreMembers(lines[1..]);
    }
  }

  lemma {:induction false} LinesHaveNoNewline(text: string, i: nat)
    requires i < |DataLines(text)|
    ensures '\n' !in DataLines(text)[i]
  {
    var pieces := SplitAt(text, '\n', "");
    PiecesHaveNoSeparator(text, '\n', "");
    KeptAreMembers(TrimAll(pieces));
    var l := DataLines(text)[i];
    assert l in TrimAll(pieces);
    var k :| 0 <= k < |pieces| && TrimAll(pieces)[k] == l;
    assert pieces[k] in pieces;
    TrimDropsOnly(pieces[k], '\n');
    TrimDropsOnly(TrimStart(pieces[k]), '\n');
  }

  lemma {:induction false} CellsHaveNoNewline(line: string, current: string, inQuotes: bool)
    requires '\n' !in line && '\n' !in current
    ensures forall t :: t in Scan(line, current, inQuotes) ==> '\n' !in t
    decreases |line|
  {
    if line != "" {
      if line[0] == '"' {
        if inQuotes && |line| > 1 && line[1] == '"' {
          CellsHaveNoNewline(line[2..], current + "\"", inQuotes);
        } else {
          CellsHaveNoNewline(line[1..], current, !inQuotes);
        }
      } else if line[0] == ',' && !inQuotes {
        CellsHaveNoNewline(line[1..], "", inQuotes);
      } else {
        CellsHaveNoNewline(line[1..], current + [line[0]], inQuotes);
      }
    }
  }

  lemma {:induction false} KeptConcat(a: seq<string>, b: seq<string>)
    ensures Kept(a + b) == Kept(a) + Kept(b)
  {
    if a == [] {
      assert a + b == b;
    } else {
      assert (a + b)[1..] == a[1..] + b;
      KeptConcat(a[1..], b);
    }
  }

  lemma {:induction false} TrimAllConcat(a: seq<string>, b: seq<string>)
    ensures TrimAll(a + b) == TrimAll(a) + TrimAll(b)
  {
  }

  lemma {:induction false} DataLinesSplit(a: string, b: string)
    ensures DataLines(a + "\n" + b) == DataLines(a) + DataLines(b)
  {
    var first, second := SplitAt(a, '\n', ""), SplitAt(b, '\n', "");
    SplitAtSeparator(a, b, '\n', "");
    TrimAllConcat(first, second);
    KeptConcat(TrimAll(first), TrimAll(second));
  }

  // ---------- Printed rows ----------

  lemma {:induction false} DoubledNewlines(text: string)
    ensures '\n' in Doubled(text) <==> '\n' in text
  {
    if text != "" {
      DoubledNewlines(text[1..]);
      assert text == [text[0]] + text[1..];
    }
  }

  lemma {:induction false} PrintedCons(row: seq<string>)
    requires |row| > 1
    ensures PrintRow(row) == Written(Quoted(row[0])) + "," + PrintRow(row[1..])
  {
    assert AllQuoted(row)[1..] == AllQuoted(row[1..]);
  }

  /** A printed row is one line that trimming leaves alone, if its cells are on one line each. */
  lemma {:induction false} PrintedRow(row: seq<string>)
    requires row != [] && forall i :: 0 <= i < |row| ==> '\n' !in row[i]
    ensures PrintRow(row) != "" && '\n' !in PrintRow(row)
    ensures PrintRow(row)[0] == '"' == PrintRow(row)[|PrintRow(row)| - 1]
  {
    DoubledNewlines(row[0]);
    if |row| > 1 {
      PrintedCons(row);
      PrintedRow(row[1..]);
    }
  }

  lemma {:induction false} LineIsKept(line: string)
    requires line != "" && '\n' !in line && !IsSpace(line[0]) && !IsSpace(line[|line| - 1])
    ensures DataLines(line) == [line]
  {
    OnePiece(line, '\n', "");
    assert "" + line == line;
    assert TrimAll([line]) == [line];
    assert Kept([line][1..]) == [];
  }

  lemma {:induction false} PrintedRowIsKept(row: seq<string>)
    requires row != [] && forall i :: 0 <= i < |row| ==> '\n' !in row[i]
    ensures DataLines(PrintRow(row)) == [PrintRow(row)]
  {
    PrintedRow(row);
    LineIsKept(PrintRow(row));
  }

  predicate OnOneLine(row: seq<string>) {
    row != [] && forall i :: 0 <= i < |row| ==> '\n' !in row[i]
  }

  lemma {:induction false} LinesComeBack(lines: seq<string>)
    requires lines != [] && forall i :: 0 <= i < |lines| ==> DataLines(lines[i]) == [lines[i]]
    ensures DataLines(Joined(lines)) == lines
  {
    if |lines| > 1 {
      LinesComeBack(lines[1..]);
      DataLinesSplit(lines[0], Joined(lines[1..]));
    }
  }

  lemma {:induction false} PrintedRowsComeBack(rows: seq<seq<string>>)
    requires rows != [] && forall i :: 0 <= i < |rows| ==> OnOneLine(rows[i])
    ensures DataLines(Joined(PrintRows(rows))) == PrintRows(rows)
  {
    var printed := PrintRows(rows);
    forall i | 0 <= i < |printed|
      ensures DataLines(printed[i]) == [printed[i]]
    {
      PrintedRowIsKept(rows[i]);
    }
    LinesComeBack(printed);
  }

  /** The lines of an exported file whose rows are on one line each. */
  lemma {:induction false} FileLines(header: string, rows: seq<seq<string>>)
    requires forall i :: 0 <= i < |rows| ==> OnOneLine(rows[i])
    ensures DataLines(ExportedFile(header, rows)) == DataLines(header) + PrintRows(rows)
  {
    var lines := [header] + PrintRows(rows);
    if rows == [] {
      assert lines == [header];
    } else {
      assert lines[1..] == PrintRows(rows);
      DataLinesSplit(header, Joined(PrintRows(rows)));
      PrintedRowsComeBack(rows);
    }
  }

  // ---------- Files ----------

  function AllSome(rows: seq<seq<string>>): (r: seq<Option<seq<string>>>)
    ensures |r| == |rows|
  {
    seq(|rows|, i requires 0 <= i < |rows| => Some(rows[i]))
  }

  /** The header is one line and names the required columns. */
  predicate GoodHeader(header: string) {
    |DataLines(header)| == 1 && HasRequired(Headers(DataLines(header)[0]))
  }

  /** The row has a cell per column, and each cell is one line without surrounding space. */
  predicate GoodRow(header: string, row: seq<string>)
    requires GoodHeader(header)
  {
    && |row| == |Headers(DataLines(header)[0])|
    && forall i :: 0 <= i < |row| ==> '\n' !in row[i] && Trim(row[i]) == row[i]
  }

  lemma {:induction false} SplitIsNotEmpty(text: string, separator: char, current: string)
    ensures |SplitAt(text, separator, current)| > 0
    decreases |text|
  {
    if text != "" && text[0] != separator {
      SplitIsNotEmpty(text[1..], separator, current + [text[0]]);
    }
  }

  /** Every cell of an uploaded row comes from one line, trimmed. */
  lemma {:induction false} UploadedRow(text: string, i: nat, row: seq<string>)
    requires Uploaded(text).Read? && i < |Uploaded(text).rows| && Uploaded(text).rows[i] == Some(row)
    ensures OnOneLine(row) && |row| == |Headers(DataLines(text)[0])|
  {
    var lines := DataLines(text);
    var cols := Parsed(lines[1..][i]);
    SplitIsNotEmpty(lines[0], ',', "");
    LinesHaveNoNewline(text, i + 1);
    CellsHaveNoNewline(lines[i + 1], "", false);
    forall k | 0 <= k < |row|
      ensures '\n' !in row[k]
    {
      assert cols[k] in cols;
      TrimDropsOnly(cols[k], '\n');
      TrimDropsOnly(TrimStart(cols[k]), '\n');
    }
  }

  lemma {:induction false} PrintedRowUploads(width: nat, row: seq<string>)
    requires row != []
    ensures RowOf(width, PrintRow(row)) == if |row| == width then Some(TrimAll(row)) else None
  {
    RowRoundTripIff(row);
  }

  /** An exported file uploads to its rows exactly if there are rows, the header is one line with the required columns,
      and every row has a cell per column, each one line without surrounding space. */
  lemma {:induction false} FileRoundTripIff(header: string, rows: seq<seq<string>>)
    ensures Uploaded(ExportedFile(header, rows)) == Read(AllSome(rows))
       <==> rows != [] && GoodHeader(header) && forall i :: 0 <= i < |rows| ==> GoodRow(header, rows[i])
  {
    var text, printed := ExportedFile(header, rows), PrintRows(rows);
    if Uploaded(text) == Read(AllSome(rows)) {
      forall i | 0 <= i < |rows|
        ensures OnOneLine(rows[i])
      {
        UploadedRow(text, i, rows[i]);
      }
      FileLines(header, rows);
      assert |DataLines(header)| == 1;
    }
    if rows != [] && |DataLines(header)| == 1 && forall i :: 0 <= i < |rows| ==> OnOneLine(rows[i]) {
      FileLines(header, rows);
      var lines := DataLines(text);
      assert lines[0] == DataLines(header)[0] && lines[1..] == printed;
      UploadOfLines(header, rows);
    } else if rows != [] && GoodHeader(header) {
      SplitIsNotEmpty(DataLines(header)[0], ',', "");
    }
  }

  lemma {:induction false} UploadOfLines(header: string, rows: seq<seq<string>>)
    requires rows != [] && |DataLines(header)| == 1 && forall i :: 0 <= i < |rows| ==> OnOneLine(rows[i])
    ensures Uploaded(ExportedFile(header, rows)) == Read(AllSome(rows))
       <==> GoodHeader(header) && forall i :: 0 <= i < |rows| ==> GoodRow(header, rows[i])
  {
    var printed, width := PrintRows(rows), |Headers(DataLines(header)[0])|;
    FileLines(header, rows);
    assert DataLines(ExportedFile(header, rows))[1..] == printed;
    forall i | 0 <= i < |rows|
      ensures RowsOf(width, printed)[i] == if |rows[i]| == width then Some(TrimAll(rows[i])) else None
      ensures TrimAll(rows[i]) == rows[i] <==> forall k :: 0 <= k < |rows[i]| ==> Trim(rows[i][k]) == rows[i][k]
    {
      PrintedRowUploads(width, rows[i]);
      if TrimAll(rows[i]) == rows[i] {
        forall k | 0 <= k < |rows[i]|
          ensures Trim(rows[i][k]) == rows[i][k]
        {
          assert TrimAll(rows[i])[k] == Trim(rows[i][k]);
        }
      }
    }
    assert AllSome(rows) == RowsOf(width, printed)
           <==> forall i :: 0 <= i < |rows| ==> AllSome(rows)[i] == RowsOf(width, printed)[i];
  }

  // ---------- Two headers ----------

  /** A non-empty run of small ASCII letters. */
  predicate IsWord(name: string) {
    name != "" && forall i :: 0 <= i < |name| ==> 'a' <= name[i] <= 'z'
  }

  lemma {:induction false} LettersStay(name: string)
    requires forall i :: 0 <= i < |name| ==> 'a' <= name[i] <= 'z'
    ensures Lower(name) == name
  {
    if name != "" {
      LettersStay(name[1..]);
    }
  }

  lemma {:induction false} WordIsItself(name: string)
    requires IsWord(name)
    ensures Trim(name) == name && Lower(name) == name && ',' !in name && '\n' !in name
  {
    LettersStay(name);
  }

  lemma {:induction false} HeaderCons(names: seq<string>)
    requires |names| > 1
    ensures PrintHeader(names) == names[0] + [','] + PrintHeader(names[1..])
  {
    assert AllBare(names)[1..] == AllBare(names[1..]);
  }

  lemma {:induction false} SplitCons(a: string, b: string)
    requires ',' !in a
    ensures SplitAt(a, ',', "") == [a] && SplitAt(a + [','] + b, ',', "") == [a] + SplitAt(b, ',', "")
  {
    SplitAtSeparator(a, b, ',', "");
    OnePiece(a, ',', "");
    assert "" + a == a;
  }

  lemma {:induction false} WordsSplit(names: seq<string>)
    requires names != [] && forall i :: 0 <= i < |names| ==> IsWord(names[i])
    ensures SplitAt(PrintHeader(names), ',', "") == names
  {
    WordIsItself(names[0]);
    SplitCons(names[0], PrintHeader(names[1..]));
    if |names| > 1 {
      HeaderCons(names);
      WordsSplit(names[1..]);
    }
  }

  lemma {:induction false} WordsMakeALine(names: seq<string>)
    requires names != [] && forall i :: 0 <= i < |names| ==> IsWord(names[i])
    ensures var line := PrintHeader(names);
            line != "" && '\n' !in line && !IsSpace(line[0]) && !IsSpace(line[|line| - 1])
  {
    WordIsItself(names[0]);
    if |names| > 1 {
      HeaderCons(names);
      WordsMakeALine(names[1..]);
    }
  }

  lemma {:induction false} HeaderOfWords(names: seq<string>)
    requires names != [] && forall i :: 0 <= i < |names| ==> IsWord(names[i])
    ensures DataLines(PrintHeader(names)) == [PrintHeader(names)] && Headers(PrintHeader(names)) == names
  {
    var line := PrintHeader(names);
    WordsSplit(names);
    WordsMakeALine(names);
    LineIsKept(line);
    forall i | 0 <= i < |names|
      ensures LowerAll(TrimAll(names))[i] == names[i]
    {
      WordIsItself(names[i]);
    }
  }

  const REVENUE_KEYS := ["date", "revenue", "orders"]

  /** The export that the shop has, the revenue report, is refused by the upload, whatever its rows. */
  lemma {:induction false} RevenueExportIsRefused(rows: seq<seq<string>>)
    ensures Uploaded(ExportedFile(PrintHeader(REVENUE_KEYS), rows)) == Refused
  {
    var header := PrintHeader(REVENUE_KEYS);
    HeaderOfWords(REVENUE_KEYS);
    if rows == [] {
      assert [header] + PrintRows(rows) == [header];
    } else {
      assert ([header] + PrintRows(rows))[1..] == PrintRows(rows);
      DataLinesSplit(header, Joined(PrintRows(rows)));
    }
    assert REQUIRED[0] !in REVENUE_KEYS;
  }

  /** What a well-formed file with one-line cells uploads to: its cells, trimmed. */
  lemma {:induction false} FileUploadsTrimmed(header: string, row: seq<string>)
    requires GoodHeader(header) && OnOneLine(row) && |row| == |Headers(DataLines(header)[0])|
    ensures Uploaded(ExportedFile(header, [row])) == Read([Some(TrimAll(row))])
  {
    FileLines(header, [row]);
    PrintedRowUploads(|row|, row);
    assert DataLines(ExportedFile(header, [row]))[1..] == PrintRows([row]);
    assert RowsOf(|row|, PrintRows([row]))[0] == Some(TrimAll(row));
  }

  lemma {:induction false} PaddingIsTrimmed()
    ensures Trim(" a ") == "a"
  {
    assert " a "[1..] == "a " && TrimStart("a ") == "a ";
    assert "a "[..1] == "a" && TrimEnd("a") == "a";
  }

  /** A product file with a padded cell uploads, but not to that cell. */
  lemma {:induction false} PaddedCellIsChanged(row: seq<string>)
    requires |row| == 6 && OnOneLine(row) && row[0] == " a "
    ensures var upload := Uploaded(ExportedFile(PrintHeader(REQUIRED), [row]));
            && upload.Read? && |upload.rows| == 1 && upload.rows[0].Some? && |upload.rows[0].value| == 6
            && upload.rows[0].value[0] == "a" && upload != Read(AllSome([row]))
  {
    HeaderOfWords(REQUIRED);
    PaddingIsTrimmed();
    FileUploadsTrimmed(PrintHeader(REQUIRED), row);
    assert AllSome([row])[0] == Some(row);
  }
}
