/** The CSV line parser of the product upload, and the row printer of the revenue export. */
module Csv {

  // ---------- The parser ----------

  /** The scan from one position on: `current` is the field read so far. */
  function Scan(line: string, current: string, inQuotes: bool): seq<string> {
    if line == "" then [current]
    else if line[0] == '"' then
      if inQuotes && |line| > 1 && line[1] == '"' then Scan(line[2..], current + "\"", inQuotes)
      else Scan(line[1..], current, !inQuotes)
    else if line[0] == ',' && !inQuotes then [current] + Scan(line[1..], "", inQuotes)
    else Scan(line[1..], current + [line[0]], inQuotes)
  }

  function Parsed(line: string): seq<string> {
    Scan(line, "", false)
  }

  method ParseCSVLine(line: string) returns (result: seq<string>)
    ensures result == Parsed(line)
  {
    result := [];
    var current, inQuotes, i := "", false, 0;
    while i < |line|
      invariant i <= |line| && Parsed(line) == result + Scan(line[i..], current, inQuotes)
    {
      var ch := line[i];
      assert line[i..][1..] == line[i + 1..];
      if ch == '"' {
        if inQuotes && i + 1 < |line| && line[i + 1] == '"' {
          assert line[i..][2..] == line[i + 2..];
          current, i := current + "\"", i + 1;
        } else {
          inQuotes := !inQuotes;
        }
      } else if ch == ',' && !inQuotes {
        result, current := result + [current], "";
      } else {
        current := current + [ch];
      }
      i := i + 1;
    }
    result := result + [current];
  }

  // ---------- Rows as RFC 4180 writes them ----------

  /** A field of a record: section 2 of RFC 4180 allows it bare (rule 5) or in quotes (rules 6 and 7). */
  datatype Field = Bare(text: string) | Quoted(text: string)

  /** replace(/"/g, '""'). */
  function Doubled(text: string): string {
    if text == "" then "" else (if text[0] == '"' then "\"\"" else [text[0]]) + Doubled(text[1..])
  }

  function Written(f: Field): string {
    if f.Bare? then f.text else "\"" + Doubled(f.text) + "\""
  }

  function Record(fields: seq<Field>): string {
    if fields == [] then ""
    else if |fields| == 1 then Written(fields[0])
    else Written(fields[0]) + "," + Record(fields[1..])
  }

  function Texts(fields: seq<Field>): seq<string> {
    seq(|fields|, i requires 0 <= i < |fields| => fields[i].text)
  }

  predicate IsPlain(text: string) {
    '"' !in text && ',' !in text
  }

  predicate WellFormed(fields: seq<Field>) {
    fields != [] && forall f :: f in fields && f.Bare? ==> IsPlain(f.text)
  }

  lemma {:induction false} ScanBare(text: string, rest: string, current: string)
    requires IsPlain(text)
    ensures Scan(text + rest, current, false) == Scan(rest, current + text, false)
  {
    if text == "" {
      assert text + rest == rest && current + text == current;
    } else {
      assert (text + rest)[1..] == text[1..] + rest;
      ScanBare(text[1..], rest, current + [text[0]]);
      assert current + [text[0]] + text[1..] == current + text;
    }
  }

  lemma {:induction false} ScanQuoted(text: string, rest: string, current: string)
    requires rest == "" || rest[0] != '"'
    ensures Scan(Doubled(text) + "\"" + rest, current, true) == Scan(rest, current + text, false)
  {
    var line := Doubled(text) + "\"" + rest;
    if text == "" {
      assert line == "\"" + rest && line[1..] == rest && current + text == current;
    } else {
      ScanQuoted(text[1..], rest, current + [text[0]]);
      assert current + [text[0]] + text[1..] == current + text;
      var tail := Doubled(text[1..]) + "\"" + rest;
      if text[0] == '"' {
        assert line == "\"\"" + tail && line[2..] == tail;
      } else {
        assert line == [text[0]] + tail && line[1..] == tail;
      }
    }
  }

  lemma {:induction false} ScanField(f: Field, rest: string)
    requires f.Bare? ==> IsPlain(f.text)
    requires rest == "" || rest[0] == ','
    ensures Scan(Written(f) + rest, "", false) == Scan(rest, f.text, false)
  {
    assert "" + f.text == f.text;
    if f.Bare? {
      ScanBare(f.text, rest, "");
    } else {
      var line := Written(f) + rest;
      assert line[1..] == Doubled(f.text) + "\"" + rest;
      ScanQuoted(f.text, rest, "");
    }
  }

  lemma {:induction false} FirstField(f: Field, line: string)
    requires f.Bare? ==> IsPlain(f.text)
    ensures Parsed(Written(f)) == [f.text]
    ensures Parsed(Written(f) + "," + line) == [f.text] + Parsed(line)
  {
    ScanField(f, "");
    assert Written(f) + "" == Written(f);
    var rest := "," + line;
    ScanField(f, rest);
    assert Written(f) + "," + line == Written(f) + rest;
    assert rest[1..] == line;
  }

  /** The parser reads back every well-formed record, whichever fields are quoted. */
  lemma {:induction false} ParsesEveryRecord(fields: seq<Field>)
    requires WellFormed(fields)
    ensures Parsed(Record(fields)) == Texts(fields)
  {
    FirstField(fields[0], Record(fields[1..]));
    if |fields| > 1 {
      ParsesEveryRecord(fields[1..]);
      assert Texts(fields) == [fields[0].text] + Texts(fields[1..]);
    }
  }

  // ---------- The exporter ----------

  function AllQuoted(texts: seq<string>): seq<Field> {
    seq(|texts|, i requires 0 <= i < |texts| => Quoted(texts[i]))
  }

  /** A data row: every value quoted, joined with commas. */
  function PrintRow(texts: seq<string>): string {
    Record(AllQuoted(texts))
  }

  /** What the exporter prints, the parser reads back, for any texts; only a row without fields comes back as one empty
      field. */
  lemma {:induction false} RowRoundTripIff(texts: seq<string>)
    ensures Parsed(PrintRow(texts)) == texts <==> texts != []
  {
    if texts != [] {
      ParsesEveryRecord(AllQuoted(texts));
      assert Texts(AllQuoted(texts)) == texts;
    }
  }

  function AllBare(texts: seq<string>): seq<Field> {
    seq(|texts|, i requires 0 <= i < |texts| => Bare(texts[i]))
  }

  /** The header row: the keys joined with commas, without quotes. */
  function PrintHeader(texts: seq<string>): string {
    Record(AllBare(texts))
  }

  /** Characters of the fields, and one separator or line end after each. */
  function Size(texts: seq<string>): nat {
    if texts == [] then 0 else |texts[0]| + 1 + Size(texts[1..])
  }

  function Commas(text: string): nat {
    if text == "" then 0 else (if text[0] == ',' then 1 else 0) + Commas(text[1..])
  }

  /** The parser drops a character for every quote that it sees. */
  lemma {:induction false} QuotesAreDropped(line: string, current: string, inQuotes: bool)
    ensures Size(Scan(line, current, inQuotes)) <= |current| + |line| + 1
    ensures '"' in line ==> Size(Scan(line, current, inQuotes)) < |current| + |line| + 1
    decreases |line|
  {
    if line != "" {
      if line[0] == '"' {
        if inQuotes && |line| > 1 && line[1] == '"' {
          QuotesAreDropped(line[2..], current + "\"", inQuotes);
        } else {
          QuotesAreDropped(line[1..], current, !inQuotes);
        }
      } else if line[0] == ',' && !inQuotes {
        QuotesAreDropped(line[1..], "", inQuotes);
        assert ([current] + Scan(line[1..], "", inQuotes))[1..] == Scan(line[1..], "", inQuotes);
      } else {
        QuotesAreDropped(line[1..], current + [line[0]], inQuotes);
      }
    }
  }

  lemma {:induction false} CommasSplit(line: string, current: string)
    requires '"' !in line
    ensures |Scan(line, current, false)| == Commas(line) + 1
    decreases |line|
  {
    if line != "" {
      if line[0] == ',' {
        CommasSplit(line[1..], "");
      } else {
        CommasSplit(line[1..], current + [line[0]]);
      }
    }
  }

  lemma {:induction false} CommasConcat(a: string, b: string)
    ensures Commas(a + b) == Commas(a) + Commas(b)
  {
    if a == "" {
      assert a + b == b;
    } else {
      assert (a + b)[1..] == a[1..] + b;
      CommasConcat(a[1..], b);
    }
  }

  lemma {:induction false} HasComma(text: string)
    ensures Commas(text) > 0 <==> ',' in text
  {
    if text != "" {
      HasComma(text[1..]);
      assert text == [text[0]] + text[1..];
    }
  }

  lemma {:induction false} HeaderShape(texts: seq<string>)
    requires texts != []
    ensures |PrintHeader(texts)| + 1 == Size(texts)
    ensures '"' in PrintHeader(texts) <==> exists t :: t in texts && '"' in t
    ensures Commas(PrintHeader(texts)) >= |texts| - 1
    ensures Commas(PrintHeader(texts)) == |texts| - 1 <==> forall t :: t in texts ==> ',' !in t
  {
    var t, tail := texts[0], texts[1..];
    assert AllBare(texts)[1..] == AllBare(tail);
    HasComma(t);
    if tail != [] {
      HeaderShape(tail);
      CommasConcat(t + ",", PrintHeader(tail));
      CommasConcat(t, ",");
      assert Commas(",") == 1 + Commas("");
      assert PrintHeader(texts) == t + "," + PrintHeader(tail);
    }
    assert texts == [t] + tail;
  }

  /** Without quotes, the round trip holds exactly if no field contains a quote or a comma. */
  lemma {:induction false} HeaderRoundTripIff(texts: seq<string>)
    requires texts != []
    ensures Parsed(PrintHeader(texts)) == texts <==> forall t :: t in texts ==> IsPlain(t)
  {
    HeaderShape(texts);
    if forall t :: t in texts ==> IsPlain(t) {
      ParsesEveryRecord(AllBare(texts));
      assert Texts(AllBare(texts)) == texts;
    } else if exists t :: t in texts && '"' in t {
      QuotesAreDropped(PrintHeader(texts), "", false);
    } else {
      CommasSplit(PrintHeader(texts), "");
    }
  }
}
