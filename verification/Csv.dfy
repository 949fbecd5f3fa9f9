/** Reading a line of a data table: cells separated by commas, quoted cells as section 2 of RFC 4180 writes them. */
module Csv {
  import opened Options

  predicate IsBlank(c: char) {
    c == ' ' || c == '\t' || c == '\r' || c == '\n'
  }

  function Trim(s: string): string
    decreases |s|
  {
    if s == "" then ""
    else if IsBlank(s[0]) then Trim(s[1..])
    else if IsBlank(s[|s| - 1]) then Trim(s[..|s| - 1])
    else s
  }

  predicate IsTrimmed(s: string) {
    s == "" || (!IsBlank(s[0]) && !IsBlank(s[|s| - 1]))
  }

  // Trimming takes blanks off both ends and nothing else.
  lemma {:induction false} TrimIsExact(s: string) returns (left: nat, right: nat)
    ensures left <= right <= |s| && Trim(s) == s[left..right] && IsTrimmed(Trim(s))
    ensures forall i | 0 <= i < left || right <= i < |s| :: IsBlank(s[i])
    decreases |s|
  {
    if s == "" {
      left, right := 0, 0;
    } else if IsBlank(s[0]) {
      left, right := TrimIsExact(s[1..]);
      forall i | 0 <= i < left + 1 || right + 1 <= i < |s| ensures IsBlank(s[i]) {
        assert i > 0 ==> s[i] == s[1..][i - 1];
      }
      assert s[1..][left..right] == s[left + 1..right + 1];
      left, right := left + 1, right + 1;
    } else if IsBlank(s[|s| - 1]) {
      left, right := TrimIsExact(s[..|s| - 1]);
      forall i | 0 <= i < left || right <= i < |s| ensures IsBlank(s[i]) {
        assert i < |s| - 1 ==> s[i] == s[..|s| - 1][i];
      }
      assert s[..|s| - 1][left..right] == s[left..right];
    } else {
      left, right := 0, |s|;
    }
  }

  // The cells of the rest of a line, from within a cell that holds `cell` so far.
  function Split(rest: string, inQuotes: bool, cell: string): seq<string>
    decreases |rest|
  {
    if rest == "" then [Trim(cell)]
    else
      var c := rest[0];
      if inQuotes then
        if c != '"' then Split(rest[1..], true, cell + [c])
        else if |rest| > 1 && rest[1] == '"' then Split(rest[2..], true, cell + ['"'])
        else Split(rest[1..], false, cell)
      else if c == '"' then Split(rest[1..], true, cell)
      else if c == ',' then [Trim(cell)] + Split(rest[1..], false, "")
      else Split(rest[1..], false, cell + [c])
  }

  method SplitLine(line: string) returns (row: seq<string>)
    ensures row == Split(line, false, "")
  {
    row := [];
    var cell, inQuotes, i := "", false, 0;
    assert line[0..] == line;
    while i < |line|
      invariant 0 <= i <= |line|
      invariant row + Split(line[i..], inQuotes, cell) == Split(line, false, "")
    {
      var c := line[i];
      var rest := line[i..];
      assert rest[0] == c && rest[1..] == line[i + 1..]
        && (|rest| > 1 ==> rest[1] == line[i + 1] && rest[2..] == line[i + 2..]);
      if inQuotes {
        if c == '"' {
          if i + 1 < |line| && line[i + 1] == '"' {
            cell := cell + ['"'];
            i := i + 1;
          } else {
            inQuotes := false;
          }
        } else {
          cell := cell + [c];
        }
      } else if c == '"' {
        inQuotes := true;
      } else if c == ',' {
        ghost var more := Split(line[i + 1..], false, "");
        assert row + ([Trim(cell)] + more) == (row + [Trim(cell)]) + more;
        row := row + [Trim(cell)];
        cell := "";
      } else {
        cell := cell + [c];
      }
      i := i + 1;
    }
    assert line[i..] == "";
    row := row + [Trim(cell)];
  }

  // ------------------------------------------------------------------------------------------------ writing

  // A cell, and whether it is written in quotes. It must be if it holds a quote or a comma.
  datatype Field = Field(cell: string, quoted: bool)

  predicate Writable(f: Field) {
    f.quoted || ('"' !in f.cell && ',' !in f.cell)
  }

  // Quotes inside a quoted cell are doubled.
  function Escape(s: string): string {
    if s == "" then "" else (if s[0] == '"' then "\"\"" else [s[0]]) + Escape(s[1..])
  }

  function WriteField(f: Field): string {
    if f.quoted then "\"" + Escape(f.cell) + "\"" else f.cell
  }

  function WriteRow(row: seq<Field>): string {
    if row == [] then "" else if |row| == 1 then WriteField(row[0]) else WriteField(row[0]) + "," + WriteRow(row[1..])
  }

  function TrimmedCells(row: seq<Field>): seq<string> {
    seq(|row|, i requires 0 <= i < |row| => Trim(row[i].cell))
  }

  function Cells(row: seq<Field>): seq<string> {
    seq(|row|, i requires 0 <= i < |row| => row[i].cell)
  }

  // ------------------------------------------------------------------------------------------------ round trip

  lemma {:induction false} PlainIsRead(s: string, rest: string, cell: string)
    requires '"' !in s && ',' !in s
    ensures Split(s + rest, false, cell) == Split(rest, false, cell + s)
    decreases |s|
  {
    if s == "" {
      assert s + rest == rest && cell + s == cell;
    } else {
      assert (s + rest)[0] == s[0] && (s + rest)[1..] == s[1..] + rest;
      assert s[0] in s;
      PlainIsRead(s[1..], rest, cell + [s[0]]);
      assert cell + [s[0]] + s[1..] == cell + s;
    }
  }

  predicate StartsWithQuote(rest: string) {
    rest != "" && rest[0] == '"'
  }

  lemma {:induction false} EscapedIsRead(s: string, rest: string, cell: string)
    requires !StartsWithQuote(rest)
    ensures Split(Escape(s) + ("\"" + rest), true, cell) == Split(rest, false, cell + s)
    decreases |s|
  {
    var all := Escape(s) + ("\"" + rest);
    if s == "" {
      assert all == "\"" + rest && all[1..] == rest && cell + s == cell;
    } else {
      EscapedIsRead(s[1..], rest, cell + [s[0]]);
      assert cell + [s[0]] + s[1..] == cell + s;
      var later := Escape(s[1..]) + ("\"" + rest);
      if s[0] == '"' {
        assert all == "\"\"" + later && all[2..] == later;
      } else {
        assert all == [s[0]] + later && all[1..] == later;
      }
    }
  }

  lemma FieldIsRead(f: Field, rest: string)
    requires Writable(f) && !StartsWithQuote(rest)
    ensures Split(WriteField(f) + rest, false, "") == Split(rest, false, f.cell)
  {
    assert "" + f.cell == f.cell;
    if f.quoted {
      var body := Escape(f.cell) + ("\"" + rest);
      assert WriteField(f) + rest == "\"" + body && ("\"" + body)[1..] == body;
      EscapedIsRead(f.cell, rest, "");
    } else {
      PlainIsRead(f.cell, rest, "");
    }
  }

  // Whatever the cells hold, every one of them comes back, trimmed.
  lemma {:induction false} RowIsRead(row: seq<Field>)
    requires row != [] && forall i | 0 <= i < |row| :: Writable(row[i])
    ensures Split(WriteRow(row), false, "") == TrimmedCells(row)
    decreases |row|
  {
    if |row| == 1 {
      assert WriteField(row[0]) + "" == WriteField(row[0]);
      FieldIsRead(row[0], "");
    } else {
      FieldThenMore(row[0], WriteRow(row[1..]));
      RowIsRead(row[1..]);
      assert TrimmedCells(row) == [Trim(row[0].cell)] + TrimmedCells(row[1..]);
    }
  }

  lemma FieldThenMore(f: Field, more: string)
    requires Writable(f)
    ensures Split(WriteField(f) + "," + more, false, "") == [Trim(f.cell)] + Split(more, false, "")
  {
    var rest := "," + more;
    assert WriteField(f) + "," + more == WriteField(f) + rest;
    FieldIsRead(f, rest);
    assert rest[1..] == more;
  }

  lemma TrimmedStays(s: string)
    ensures Trim(s) == s <==> IsTrimmed(s)
  {
    if !IsTrimmed(s) {
      var left, right := TrimIsExact(s);
    }
  }

  // A row is recovered exactly if and only if no cell has blanks at its ends.
  lemma RoundTrip(row: seq<Field>)
    requires row != [] && forall i | 0 <= i < |row| :: Writable(row[i])
    ensures Split(WriteRow(row), false, "") == Cells(row) <==> forall i | 0 <= i < |row| :: IsTrimmed(row[i].cell)
  {
    RowIsRead(row);
    forall i | 0 <= i < |row| ensures Trim(row[i].cell) == row[i].cell <==> IsTrimmed(row[i].cell) {
      TrimmedStays(row[i].cell);
    }
    if Split(WriteRow(row), false, "") == Cells(row) {
      forall i | 0 <= i < |row| ensures IsTrimmed(row[i].cell) {
        assert TrimmedCells(row)[i] == Cells(row)[i];
      }
    }
  }

  // ------------------------------------------------------------------------------------------------ vectors

  // The text of a vector's three numbers; None is the exception for another number of parts.
  method ToVec3Parts(s: string) returns (parts: Option<(string, string, string)>)
    ensures var cells := Split(s, false, "");
            parts == if |cells| == 3 then Some((cells[0], cells[1], cells[2])) else None
  {
    var cells := SplitLine(s);
    if |cells| != 3 {
      return None;
    }
    return Some((cells[0], cells[1], cells[2]));
  }

  predicate IsNumberText(s: string) {
    IsTrimmed(s) && s != "" && '"' !in s && ',' !in s
  }

  // A vector is one quoted cell of a line; splitting the line and then the cell gives the three numbers back.
  lemma VectorSurvivesBothSplits(row: seq<Field>, i: nat, x: string, y: string, z: string)
    requires i < |row| && forall k | 0 <= k < |row| :: Writable(row[k])
    requires IsNumberText(x) && IsNumberText(y) && IsNumberText(z) && row[i] == Field(x + "," + y + "," + z, true)
    ensures var cells := Split(WriteRow(row), false, "");
            |cells| == |row| && Split(cells[i], false, "") == [x, y, z]
  {
    RowIsRead(row);
    TrimmedStays(row[i].cell);
    ThreeNumbersAreRead(x, y, z);
  }

  lemma ThreeNumbersAreRead(x: string, y: string, z: string)
    requires IsNumberText(x) && IsNumberText(y) && IsNumberText(z)
    ensures Split(x + "," + y + "," + z, false, "") == [x, y, z]
  {
    var a, b, c := Field(x, false), Field(y, false), Field(z, false);
    FieldThenMore(a, y + "," + z);
    FieldThenMore(b, z);
    FieldIsRead(c, "");
    assert x + "," + y + "," + z == x + "," + (y + "," + z);
    assert z + "" == z;
    TrimmedStays(x);
    TrimmedStays(y);
    TrimmedStays(z);
  }
}
