/** The comma-separated row format shared by the browser and the server:
    the server's quote-aware row parser (`parseCSVRow`), the browser's field
    escaper used when a trial row is written, and the export escaper used
    when results are downloaded. */
module Csv {
  import opened Text

  // ---------------------------------------------------------------------
  // parseCSVRow

  /** The parser's state machine run over the unread rest `s` of a row, with
      the field read so far, the quote flag and the fields already closed. */
  function Scan(s: string, current: string, inQuotes: bool, fields: seq<string>): seq<string>
    decreases |s|
  {
    if |s| == 0 then fields + [current]
    else if s[0] == '"' then
      if inQuotes && |s| > 1 && s[1] == '"' then Scan(s[2..], current + ['"'], inQuotes, fields)
      else Scan(s[1..], current, !inQuotes, fields)
    else if s[0] == ',' && !inQuotes then Scan(s[1..], "", inQuotes, fields + [current])
    else Scan(s[1..], current + [s[0]], inQuotes, fields)
  }

  /** The fields `parseCSVRow` returns for `row`. */
  function ParseRow(row: string): seq<string>
  {
    Scan(row, "", false, [])
  }

  /** `parseCSVRow`: one pass over the row with a quote flag. */
  method ParseCSVRow(row: string) returns (result: seq<string>)
    ensures result == ParseRow(row)
  {
    result := [];
    var current := "";
    var inQuotes := false;
    var i := 0;
    while i < |row|
      invariant 0 <= i <= |row|
      invariant Scan(row[i..], current, inQuotes, result) == ParseRow(row)
    {
      var c := row[i];
      if c == '"' {
        if inQuotes && i + 1 < |row| && row[i + 1] == '"' {
          // an escaped quote inside a quoted field
          assert row[i..][2..] == row[i + 2..];
          current := current + ['"'];
          i := i + 2;
        } else {
          assert row[i..][1..] == row[i + 1..];
          inQuotes := !inQuotes;
          i := i + 1;
        }
      } else if c == ',' && !inQuotes {
        assert row[i..][1..] == row[i + 1..];
        result := result + [current];
        current := "";
        i := i + 1;
      } else {
        assert row[i..][1..] == row[i + 1..];
        current := current + [c];
        i := i + 1;
      }
    }
    result := result + [current];
  }

  /** The number of commas the parser meets while outside quotes, tracking
      only the quote flag. */
  function CommasOutsideQuotes(s: string, inQuotes: bool): nat
    decreases |s|
  {
    if |s| == 0 then 0
    else if s[0] == '"' then
      if inQuotes && |s| > 1 && s[1] == '"' then CommasOutsideQuotes(s[2..], inQuotes)
      else CommasOutsideQuotes(s[1..], !inQuotes)
    else (if s[0] == ',' && !inQuotes then 1 else 0) + CommasOutsideQuotes(s[1..], inQuotes)
  }

  lemma {:induction false} ScanLength(s: string, current: string, inQuotes: bool, fields: seq<string>)
    ensures |Scan(s, current, inQuotes, fields)| == |fields| + 1 + CommasOutsideQuotes(s, inQuotes)
    decreases |s|
  {
    if |s| > 0 {
      if s[0] == '"' {
        if inQuotes && |s| > 1 && s[1] == '"' {
          ScanLength(s[2..], current + ['"'], inQuotes, fields);
        } else {
          ScanLength(s[1..], current, !inQuotes, fields);
        }
      } else if s[0] == ',' && !inQuotes {
        ScanLength(s[1..], "", inQuotes, fields + [current]);
      } else {
        ScanLength(s[1..], current + [s[0]], inQuotes, fields);
      }
    }
  }

  /** A row always parses to at least one field: one more than the commas seen outside quotes. */
  lemma FieldCount(row: string)
    ensures |ParseRow(row)| == 1 + CommasOutsideQuotes(row, false)
    ensures |ParseRow(row)| >= 1
  {
    ScanLength(row, "", false, []);
  }

  lemma {:induction false} ScanWithoutQuotes(s: string, current: string, fields: seq<string>)
    requires '"' !in s
    ensures var p := Split(s, ',');
            Scan(s, current, false, fields) == fields + [current + p[0]] + p[1..]
    decreases |s|
  {
    if |s| == 0 {
      assert current + "" == current;
    } else {
      assert '"' !in s[1..];
      var rest := Split(s[1..], ',');
      if s[0] == ',' {
        ScanWithoutQuotes(s[1..], "", fields + [current]);
        assert "" + rest[0] == rest[0];
        assert Split(s, ',') == [""] + rest;
        assert current + "" == current;
      } else {
        ScanWithoutQuotes(s[1..], current + [s[0]], fields);
        assert current + [s[0]] + rest[0] == current + ([s[0]] + rest[0]);
      }
    }
  }

  /** A row without quote characters parses exactly as `row.split(',')`. */
  lemma ParseWithoutQuotes(row: string)
    requires '"' !in row
    ensures ParseRow(row) == Split(row, ',')
  {
    ScanWithoutQuotes(row, "", []);
    var p := Split(row, ',');
    assert "" + p[0] == p[0];
    assert [p[0]] + p[1..] == p;
  }

  // ---------------------------------------------------------------------
  // escaping

  /** `s.replace(/"/g, '""')`. */
  function Doubled(s: string): string
    decreases |s|
  {
    if |s| == 0 then "" else (if s[0] == '"' then "\"\"" else [s[0]]) + Doubled(s[1..])
  }

  /** A field wrapped in quotes with its internal quotes doubled. */
  function Quoted(s: string): string
  {
    "\"" + Doubled(s) + "\""
  }

  /** The browser's escaper for a trial row field: quote when the field holds
      a comma, a newline or a quote. */
  function ClientEscape(s: string): string
  {
    if ',' in s || '\n' in s || '"' in s then Quoted(s) else s
  }

  /** The export escaper for a string field: quote when the field holds a
      comma or a quote (a newline is left as it is). */
  function ExportEscape(s: string): string
  {
    if ',' in s || '"' in s then Quoted(s) else s
  }

  /** A cell of an exported row: strings are escaped, other values are
      written as JavaScript prints them. */
  datatype Cell = StringCell(s: string) | OtherCell(printed: string)

  function ExportCell(c: Cell): string
  {
    match c
    case StringCell(s) => ExportEscape(s)
    case OtherCell(p) => p
  }

  /** What a cell reads back as. */
  function CellText(c: Cell): string
  {
    match c
    case StringCell(s) => s
    case OtherCell(p) => p
  }

  /** A browser trial row before its trailing newline: escaped fields joined by commas. */
  function EncodeRow(fields: seq<string>): string
  {
    Join(seq(|fields|, k requires 0 <= k < |fields| => ClientEscape(fields[k])), ',')
  }

  /** An exported result row. */
  function ExportRow(cells: seq<Cell>): string
  {
    Join(seq(|cells|, k requires 0 <= k < |cells| => ExportCell(cells[k])), ',')
  }

  /** Inside quotes, each doubled quote yields one quote and the field goes on. */
  lemma {:induction false} ScanDoubled(t: string, rest: string, current: string, fields: seq<string>)
    ensures Scan(Doubled(t) + rest, current, true, fields) == Scan(rest, current + t, true, fields)
    decreases |t|
  {
    if |t| == 0 {
      assert Doubled(t) + rest == rest;
      assert current + t == current;
    } else {
      var tail := Doubled(t[1..]) + rest;
      if t[0] == '"' {
        assert Doubled(t) == "\"\"" + Doubled(t[1..]);
        var s := "\"\"" + tail;
        assert Doubled(t) + rest == s;
        assert s[2..] == tail;
        assert Scan(s, current, true, fields) == Scan(tail, current + ['"'], true, fields);
        ScanDoubled(t[1..], rest, current + ['"'], fields);
        assert current + ['"'] + t[1..] == current + t;
      } else {
        assert Doubled(t) == [t[0]] + Doubled(t[1..]);
        var s := [t[0]] + tail;
        assert Doubled(t) + rest == s;
        assert s[1..] == tail;
        assert Scan(s, current, true, fields) == Scan(tail, current + [t[0]], true, fields);
        ScanDoubled(t[1..], rest, current + [t[0]], fields);
        assert current + [t[0]] + t[1..] == current + t;
      }
    }
  }

  /** A quoted field is read back whole, provided no quote follows it. */
  lemma ScanQuoted(t: string, rest: string, current: string, fields: seq<string>)
    requires rest == [] || rest[0] != '"'
    ensures Scan(Quoted(t) + rest, current, false, fields) == Scan(rest, current + t, false, fields)
  {
    var s := Quoted(t) + rest;
    assert s == "\"" + (Doubled(t) + ("\"" + rest));
    assert s[1..] == Doubled(t) + ("\"" + rest);
    ScanDoubled(t, "\"" + rest, current, fields);
    var u := "\"" + rest;
    assert u[1..] == rest;
  }

  /** A field without commas and quotes is read back as it is. */
  lemma {:induction false} ScanPlain(t: string, rest: string, current: string, fields: seq<string>)
    requires ',' !in t && '"' !in t
    ensures Scan(t + rest, current, false, fields) == Scan(rest, current + t, false, fields)
    decreases |t|
  {
    if |t| == 0 {
      assert t + rest == rest;
      assert current + t == current;
    } else {
      assert (t + rest)[1..] == t[1..] + rest;
      assert ',' !in t[1..] && '"' !in t[1..];
      ScanPlain(t[1..], rest, current + [t[0]], fields);
      assert current + [t[0]] + t[1..] == current + t;
    }
  }

  /** Each escaped cell is either its text quoted, or its text itself when
      that holds no comma and no quote. */
  predicate EscapesOf(escaped: seq<string>, texts: seq<string>)
  {
    && |escaped| == |texts|
    && forall k :: 0 <= k < |escaped| ==>
         escaped[k] == Quoted(texts[k]) || (escaped[k] == texts[k] && ',' !in texts[k] && '"' !in texts[k])
  }

  /** One escaped cell followed by a comma or the end of the row is read back whole. */
  lemma ScanCell(e: string, t: string, rest: string, fields: seq<string>)
    requires e == Quoted(t) || (e == t && ',' !in t && '"' !in t)
    requires rest == [] || rest[0] == ','
    ensures Scan(e + rest, "", false, fields) == Scan(rest, t, false, fields)
  {
    if e == Quoted(t) {
      ScanQuoted(t, rest, "", fields);
    } else {
      ScanPlain(t, rest, "", fields);
    }
    assert "" + t == t;
  }

  /** Escaped cells joined by commas are read back one by one. */
  lemma {:induction false} ScanJoined(escaped: seq<string>, texts: seq<string>, fields: seq<string>)
    requires |escaped| >= 1 && EscapesOf(escaped, texts)
    ensures Scan(Join(escaped, ','), "", false, fields) == fields + texts
    decreases |escaped|
  {
    if |escaped| == 1 {
      ScanCell(escaped[0], texts[0], "", fields);
      assert escaped[0] + "" == escaped[0];
      assert texts == [texts[0]];
    } else {
      var tail := Join(escaped[1..], ',');
      var rest := "," + tail;
      assert Join(escaped, ',') == escaped[0] + rest;
      ScanCell(escaped[0], texts[0], rest, fields);
      assert rest[1..] == tail;
      assert Scan(rest, texts[0], false, fields) == Scan(tail, "", false, fields + [texts[0]]);
      assert EscapesOf(escaped[1..], texts[1..]);
      ScanJoined(escaped[1..], texts[1..], fields + [texts[0]]);
      assert fields + [texts[0]] + texts[1..] == fields + texts;
    }
  }

  /** Round trip: a browser row of one or more fields parses back to its fields. */
  lemma RowRoundTrip(fields: seq<string>)
    requires |fields| >= 1
    ensures ParseRow(EncodeRow(fields)) == fields
  {
    var escaped := seq(|fields|, k requires 0 <= k < |fields| => ClientEscape(fields[k]));
    ScanJoined(escaped, fields, []);
  }

  /** Round trip for the export: a row of string cells, and of other cells
      printed without commas and quotes, parses back to the cells' text. */
  lemma ExportRoundTrip(cells: seq<Cell>)
    requires |cells| >= 1
    requires forall k :: 0 <= k < |cells| && cells[k].OtherCell? ==>
               ',' !in cells[k].printed && '"' !in cells[k].printed
    ensures ParseRow(ExportRow(cells)) == seq(|cells|, k requires 0 <= k < |cells| => CellText(cells[k]))
  {
    var escaped := seq(|cells|, k requires 0 <= k < |cells| => ExportCell(cells[k]));
    var texts := seq(|cells|, k requires 0 <= k < |cells| => CellText(cells[k]));
    ScanJoined(escaped, texts, []);
  }

  /** The export escaper quotes exactly the fields holding a comma or a quote,
      and the parser reads an escaped field back whole. */
  lemma ExportEscapeField(s: string)
    ensures ExportEscape(s) != s <==> (',' in s || '"' in s)
    ensures ParseRow(ExportEscape(s)) == [s]
  {
    if ',' in s || '"' in s {
      var q := Quoted(s);
      assert q[0] == '"';
      if q == s {
        QuotedLonger(s);
      }
    }
    ExportRoundTrip([StringCell(s)]);
  }

  lemma {:induction false} DoubledLength(s: string)
    ensures |Doubled(s)| >= |s|
    decreases |s|
  {
    if |s| > 0 {
      DoubledLength(s[1..]);
    }
  }

  lemma QuotedLonger(s: string)
    ensures |Quoted(s)| == |Doubled(s)| + 2 > |s|
  {
    DoubledLength(s);
  }

  lemma {:induction false} DoubledAvoids(s: string, c: char)
    requires c != '"' && c !in s
    ensures c !in Doubled(s)
    decreases |s|
  {
    if |s| > 0 {
      DoubledAvoids(s[1..], c);
    }
  }

  lemma {:induction false} JoinAvoids(parts: seq<string>, sep: char, c: char)
    requires c != sep && forall k :: 0 <= k < |parts| ==> c !in parts[k]
    ensures c !in Join(parts, sep)
    decreases |parts|
  {
    if |parts| > 1 {
      JoinAvoids(parts[1..], sep, c);
    }
  }

  /** A browser row holds a newline only when one of its fields does, so the
      row's own trailing newline is the only one. */
  lemma EncodeRowOneLine(fields: seq<string>)
    requires forall k :: 0 <= k < |fields| ==> '\n' !in fields[k]
    ensures '\n' !in EncodeRow(fields)
  {
    var escaped := seq(|fields|, k requires 0 <= k < |fields| => ClientEscape(fields[k]));
    forall k | 0 <= k < |fields|
      ensures '\n' !in escaped[k]
    {
      DoubledAvoids(fields[k], '\n');
    }
    JoinAvoids(escaped, ',', '\n');
  }

  /** A row of two or more fields holds a comma, so it is never blank. */
  lemma EncodeRowNotBlank(fields: seq<string>)
    requires |fields| >= 2
    ensures !Blank(EncodeRow(fields)) && Trim(EncodeRow(fields)) != ""
  {
    var escaped := seq(|fields|, k requires 0 <= k < |fields| => ClientEscape(fields[k]));
    var row := EncodeRow(fields);
    assert row == escaped[0] + [','] + Join(escaped[1..], ',');
    assert row[|escaped[0]|] == ',';
    TrimEmptyIffBlank(row);
  }
}
