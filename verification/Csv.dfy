/** The batch export: printing a table as comma-separated values, and reading it back by section 2 of RFC 4180. */
module Csv {
  import opened Wrappers

  type Row = seq<string>

  // ---------- printing ----------

  predicate IsSpecial(c: char) {
    c == '"' || c == ',' || c == '\r' || c == '\n'
  }

  predicate NeedsQuotes(text: string) {
    exists k | 0 <= k < |text| :: IsSpecial(text[k])
  }

  /** Every quote doubled. */
  function Escape(text: string): string {
    if text == "" then ""
    else (if text[0] == '"' then "\"\"" else [text[0]]) + Escape(text[1..])
  }

  /** `csvCell`, from the text of the value on. */
  function PrintCell(text: string): string {
    if NeedsQuotes(text) then "\"" + Escape(text) + "\"" else text
  }

  /** What follows a row's first cell, when `more` are to come. */
  function PrintRow(row: Row): string
    requires row != []
  {
    if |row| == 1 then PrintCell(row[0]) else PrintCell(row[0]) + "," + PrintRow(row[1..])
  }

  ghost predicate IsTable(rows: seq<Row>) {
    rows != [] && forall k :: 0 <= k < |rows| ==> rows[k] != []
  }

  /** The export's content: rows joined by line breaks, with none at the end. */
  function Print(rows: seq<Row>): string
    requires IsTable(rows)
  {
    if |rows| == 1 then PrintRow(rows[0]) else PrintRow(rows[0]) + "\r\n" + Print(rows[1..])
  }

  lemma {:induction false} EscapeIsNoShorter(text: string)
    ensures |Escape(text)| >= |text|
  {
    if text != "" {
      EscapeIsNoShorter(text[1..]);
    }
  }

  /** A cell stays as it is exactly when it has no quote, comma or line break. */
  lemma BareIff(text: string)
    ensures PrintCell(text) == text <==>
            forall k :: 0 <= k < |text| ==> text[k] != '"' && text[k] != ',' && text[k] != '\r' && text[k] != '\n'
    ensures PrintCell(text) != text ==> PrintCell(text) == "\"" + Escape(text) + "\""
  {
    EscapeIsNoShorter(text);
  }

  lemma CommaCell()
    ensures PrintCell("b,c") == "\"b,c\""
  {
    assert IsSpecial("b,c"[1]);
    assert "b,c"[1..] == ",c" && ",c"[1..] == "c" && "c"[1..] == "";
    assert Escape("b,c") == "b,c";
  }

  lemma QuoteCell()
    ensures PrintCell("d\"e") == "\"d\"\"e\""
  {
    assert IsSpecial("d\"e"[1]);
    assert "d\"e"[1..] == "\"e" && "\"e"[1..] == "e" && "e"[1..] == "";
    assert Escape("d\"e") == "d\"\"e";
  }

  /** Two rows with a comma, a quote and an empty cell. */
  lemma PrintsExample()
    ensures Print([["a", "b,c"], ["d\"e", ""]]) == "a,\"b,c\"\r\n\"d\"\"e\","
  {
    BareIff("a");
    BareIff("");
    CommaCell();
    QuoteCell();
    assert ["a", "b,c"][1..] == ["b,c"] && ["d\"e", ""][1..] == [""];
    assert [["a", "b,c"], ["d\"e", ""]][1..] == [["d\"e", ""]];
  }

  // ---------- reading ----------

  datatype Parsed<T> = Parsed(value: T, rest: string)

  /** A field without quotes: text up to a special character. */
  function ReadPlain(text: string): (p: Parsed<string>)
    ensures |p.rest| <= |text|
  {
    if text == "" || IsSpecial(text[0]) then Parsed("", text)
    else
      var p := ReadPlain(text[1..]);
      Parsed([text[0]] + p.value, p.rest)
  }

  /** The rest of a quoted field, after its opening quote: a doubled quote is a quote, a single one closes. */
  function ReadQuoted(text: string): (p: Option<Parsed<string>>)
    ensures p.Some? ==> |p.value.rest| < |text|
  {
    if text == "" then None
    else if text[0] == '"' && !(|text| > 1 && text[1] == '"') then Some(Parsed("", text[1..]))
    else
      match ReadQuoted(if text[0] == '"' then text[2..] else text[1..])
      case None => None
      case Some(p) => Some(Parsed([text[0]] + p.value, p.rest))
  }

  function ReadCell(text: string): (p: Option<Parsed<string>>)
    ensures p.Some? ==> |p.value.rest| <= |text|
  {
    if text != "" && text[0] == '"' then ReadQuoted(text[1..]) else Some(ReadPlain(text))
  }

  /** Fields separated by commas. */
  function ReadRow(text: string): (p: Option<Parsed<Row>>)
    ensures p.Some? ==> |p.value.rest| <= |text|
    decreases |text|
  {
    match ReadCell(text)
    case None => None
    case Some(cell) =>
      if cell.rest == "" || cell.rest[0] != ',' then Some(Parsed([cell.value], cell.rest))
      else
        match ReadRow(cell.rest[1..])
        case None => None
        case Some(row) => Some(Parsed([cell.value] + row.value, row.rest))
  }

  predicate StartsWithBreak(text: string) {
    |text| >= 2 && text[0] == '\r' && text[1] == '\n'
  }

  /** Records separated by line breaks. The last record may have an ending line break: with `ended`, a break
      at the very end is read as that one; without, as a separator. */
  function Read(text: string, ended: bool): Option<seq<Row>>
    decreases |text|
  {
    match ReadRow(text)
    case None => None
    case Some(row) =>
      if row.rest == "" || (ended && row.rest == "\r\n") then Some([row.value])
      else if !StartsWithBreak(row.rest) then None
      else
        match Read(row.rest[2..], ended)
        case None => None
        case Some(rows) => Some([row.value] + rows)
  }

  // ---------- the round trip ----------

  /** A suffix that ends a field. */
  predicate Ends(suffix: string) {
    suffix == "" || suffix[0] == ',' || StartsWithBreak(suffix)
  }

  lemma {:induction false} ReadPlainUndoesPrinting(text: string, suffix: string)
    requires !NeedsQuotes(text) && Ends(suffix)
    ensures ReadPlain(text + suffix) == Parsed(text, suffix)
  {
    if text == "" {
      assert text + suffix == suffix;
    } else {
      assert (text + suffix)[1..] == text[1..] + suffix;
      assert !IsSpecial(text[0]);
      forall k | 0 <= k < |text[1..]| ensures !IsSpecial(text[1..][k]) {
        assert !IsSpecial(text[k + 1]);
      }
      ReadPlainUndoesPrinting(text[1..], suffix);
      assert [text[0]] + text[1..] == text;
    }
  }

  lemma {:induction false} ReadQuotedUndoesEscaping(text: string, suffix: string)
    requires suffix == "" || suffix[0] != '"'
    ensures ReadQuoted(Escape(text) + "\"" + suffix) == Some(Parsed(text, suffix))
  {
    var printed := Escape(text) + "\"" + suffix;
    if text == "" {
      assert printed == "\"" + suffix;
      assert printed[1..] == suffix;
    } else {
      var rest := Escape(text[1..]) + "\"" + suffix;
      ReadQuotedUndoesEscaping(text[1..], suffix);
      if text[0] == '"' {
        assert printed == "\"\"" + rest;
        assert printed[2..] == rest;
      } else {
        assert printed == [text[0]] + rest;
        assert printed[1..] == rest;
      }
      assert [text[0]] + text[1..] == text;
    }
  }

  lemma ReadCellUndoesPrinting(text: string, suffix: string)
    requires Ends(suffix)
    ensures ReadCell(PrintCell(text) + suffix) == Some(Parsed(text, suffix))
  {
    if NeedsQuotes(text) {
      ReadQuotedCell(text, suffix);
    } else {
      PlainStartsPlain(text, suffix);
      ReadPlainUndoesPrinting(text, suffix);
    }
  }

  lemma ReadQuotedCell(text: string, suffix: string)
    requires suffix == "" || suffix[0] != '"'
    ensures ReadCell("\"" + Escape(text) + "\"" + suffix) == Some(Parsed(text, suffix))
  {
    Reassociate("\"", Escape(text), "\"", suffix);
    ReadCellAfterQuote(Escape(text) + "\"" + suffix);
    ReadQuotedUndoesEscaping(text, suffix);
  }

  lemma Reassociate(a: string, b: string, c: string, d: string)
    ensures a + b + c + d == a + (b + c + d)
  {
  }

  lemma ReadCellAfterQuote(rest: string)
    ensures ReadCell("\"" + rest) == ReadQuoted(rest)
  {
    assert ("\"" + rest)[1..] == rest;
  }

  lemma PlainStartsPlain(text: string, suffix: string)
    requires !NeedsQuotes(text) && Ends(suffix)
    ensures text + suffix != "" ==> (text + suffix)[0] != '"'
  {
    if text == "" {
      assert text + suffix == suffix;
    } else {
      assert !IsSpecial(text[0]);
    }
  }

  lemma {:induction false} ReadRowUndoesPrinting(row: Row, suffix: string)
    requires row != [] && (suffix == "" || StartsWithBreak(suffix))
    ensures ReadRow(PrintRow(row) + suffix) == Some(Parsed(row, suffix))
  {
    if |row| == 1 {
      ReadCellUndoesPrinting(row[0], suffix);
      assert row == [row[0]];
    } else {
      var more := "," + (PrintRow(row[1..]) + suffix);
      assert PrintRow(row) + suffix == PrintCell(row[0]) + more;
      ReadCellUndoesPrinting(row[0], more);
      assert more[1..] == PrintRow(row[1..]) + suffix;
      ReadRowUndoesPrinting(row[1..], suffix);
      assert [row[0]] + row[1..] == row;
    }
  }

  /** Only a table of several rows whose last is one empty cell prints a line break at the end. */
  predicate LastRowVanishes(rows: seq<Row>) {
    |rows| > 1 && rows[|rows| - 1] == [""]
  }

  lemma {:induction false} PrintedRowIsEmptyIff(row: Row)
    requires row != []
    ensures PrintRow(row) == "" <==> row == [""]
  {
    assert NeedsQuotes(row[0]) || PrintCell(row[0]) == row[0];
  }

  lemma PrintedTableIsEmptyIff(rows: seq<Row>)
    requires IsTable(rows)
    ensures Print(rows) == "" <==> rows == [[""]]
  {
    PrintedRowIsEmptyIff(rows[0]);
  }

  /** Reading the first row and the break after it leaves the rest of the table. */
  lemma ReadFirstRow(rows: seq<Row>, ended: bool)
    requires IsTable(rows) && |rows| > 1
    ensures IsTable(rows[1..])
    ensures Read(Print(rows), ended) ==
              if ended && rows[1..] == [[""]] then Some([rows[0]])
              else match Read(Print(rows[1..]), ended)
                   case None => None
                   case Some(rest) => Some([rows[0]] + rest)
  {
    assert forall k :: 0 <= k < |rows[1..]| ==> rows[1..][k] == rows[k + 1];
    var suffix := "\r\n" + Print(rows[1..]);
    assert Print(rows) == PrintRow(rows[0]) + suffix;
    assert suffix[2..] == Print(rows[1..]);
    ReadRowUndoesPrinting(rows[0], suffix);
    PrintedTableIsEmptyIff(rows[1..]);
    assert suffix == "\r\n" <==> Print(rows[1..]) == "";
  }

  lemma ReadOnlyRow(row: Row, ended: bool)
    requires row != []
    ensures Read(PrintRow(row), ended) == Some([row])
  {
    assert PrintRow(row) + "" == PrintRow(row);
    ReadRowUndoesPrinting(row, "");
  }

  /** What reading a printed table gives, read either way. */
  lemma {:induction false} ReadPrinted(rows: seq<Row>, ended: bool)
    requires IsTable(rows)
    ensures Read(Print(rows), ended) == Some(if ended && LastRowVanishes(rows) then rows[..|rows| - 1] else rows)
  {
    if |rows| == 1 {
      ReadOnlyRow(rows[0], ended);
      assert rows == [rows[0]];
    } else {
      ReadFirstRow(rows, ended);
      if !(ended && rows[1..] == [[""]]) {
        ReadPrinted(rows[1..], ended);
      }
      FrontOfTail(rows);
    }
  }

  lemma FrontOfTail(rows: seq<Row>)
    requires |rows| > 1
    ensures rows == [rows[0]] + rows[1..] && rows[..|rows| - 1] == [rows[0]] + rows[1..][..|rows| - 2]
    ensures LastRowVanishes(rows) <==> rows[1..] == [[""]] || LastRowVanishes(rows[1..])
  {
    assert rows[1..][|rows| - 2] == rows[|rows| - 1];
  }

  /** Reading a printed table gives the table back: always when line breaks separate, and when an ending
      break is allowed for exactly if the last of several rows is not a single empty cell. */
  lemma ReadUndoesPrint(rows: seq<Row>, ended: bool)
    requires IsTable(rows)
    ensures Read(Print(rows), ended) == Some(rows) <==> !(ended && LastRowVanishes(rows))
  {
    ReadPrinted(rows, ended);
  }

  /** Different tables print differently. */
  lemma PrintIsInjective(a: seq<Row>, b: seq<Row>)
    requires IsTable(a) && IsTable(b) && Print(a) == Print(b)
    ensures a == b
  {
    ReadUndoesPrint(a, false);
    ReadUndoesPrint(b, false);
  }
}
