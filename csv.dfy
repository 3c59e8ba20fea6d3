/** `parseCSV` of the lead-import page (src/pages/ImportLeads.jsx): the text is trimmed
    and split into lines; the first line gives the header names (plain comma split);
    every later non-blank line is split on the commas that lie outside double-quoted
    spans, and becomes a row only when it has exactly one value per header. */
module Csv {
  import opened Text
  import opened Seqs

  /** One parsed row: header name to cleaned cell value (a JavaScript object). */
  type Row = map<string, string>

  /** The parser's result: header names in file order and the kept rows in file order. */
  datatype Table = Table(headers: seq<string>, data: seq<Row>)

  predicate IsLineBreak(c: char)
  {
    c == '\r' || c == '\n'
  }

  predicate NoLineBreak(s: string)
  {
    forall k :: 0 <= k < |s| ==> !IsLineBreak(s[k])
  }

  /** `text.split(/\r\n?|\n/)`: CRLF, CR and LF each end a line. */
  function SplitLines(s: string): (r: seq<string>)
    ensures |r| >= 1
    ensures forall k :: 0 <= k < |r| ==> NoLineBreak(r[k])
  {
    if s == [] then [[]]
    else if s[0] == '\r' && |s| >= 2 && s[1] == '\n' then [[]] + SplitLines(s[2..])
    else if IsLineBreak(s[0]) then [[]] + SplitLines(s[1..])
    else
      var rest := SplitLines(s[1..]);
      [[s[0]] + rest[0]] + rest[1..]
  }

  /** The number of double-quote characters in `s`. */
  function QuoteCount(s: string): nat
  {
    if s == [] then 0 else (if s[0] == '"' then 1 else 0) + QuoteCount(s[1..])
  }

  /** Whether the comma that precedes `rest` splits the line: with `quoteAware`
      (`line.split(/,(?=(?:(?:[^"]*"){2})*[^"]*$)/)`) only when an even number of
      double quotes follows it on the line; otherwise (`line.split(',')`) always. */
  predicate SplitsBefore(rest: string, quoteAware: bool)
  {
    !quoteAware || QuoteCount(rest) % 2 == 0
  }

  /** The line cut at its splitting commas. */
  function SplitCommas(s: string, quoteAware: bool): (r: seq<string>)
    ensures |r| >= 1
  {
    if s == [] then [[]]
    else
      var rest := SplitCommas(s[1..], quoteAware);
      if s[0] == ',' && SplitsBefore(s[1..], quoteAware) then [[]] + rest
      else [[s[0]] + rest[0]] + rest[1..]
  }

  /** Splitting loses nothing but the separators: joining the pieces with commas
      gives the line back. */
  lemma {:induction false} SplitCommasJoin(s: string, quoteAware: bool)
    ensures Join(SplitCommas(s, quoteAware), ',') == s
  {
    if s != [] {
      var rest := SplitCommas(s[1..], quoteAware);
      SplitCommasJoin(s[1..], quoteAware);
      if s[0] == ',' && SplitsBefore(s[1..], quoteAware) {
        assert ([[]] + rest)[1..] == rest;
      } else {
        var r := [[s[0]] + rest[0]] + rest[1..];
        if |rest| == 1 {
          assert r == [[s[0]] + rest[0]];
        } else {
          assert r[1..] == rest[1..];
          assert Join(rest, ',') == rest[0] + [','] + Join(rest[1..], ',');
        }
      }
    }
  }

  predicate IsQuoteChar(c: char)
  {
    c == '"' || c == '\''
  }

  /** A header name: trimmed, then one leading and one trailing `"` or `'` removed
      (`header.trim().replace(/^["']|["']$/g, '')`). */
  function CleanHeader(h: string): string
  {
    var t := Trim(h);
    var a := if |t| > 0 && IsQuoteChar(t[0]) then t[1..] else t;
    if |a| > 0 && IsQuoteChar(a[|a| - 1]) then a[..|a| - 1] else a
  }

  /** `s.replace(/""/g, '"')`: every doubled quote, scanned left to right, becomes one. */
  function UnDouble(s: string): (r: string)
    ensures |r| <= |s|
  {
    if |s| >= 2 && s[0] == '"' && s[1] == '"' then ['"'] + UnDouble(s[2..])
    else if s == [] then []
    else [s[0]] + UnDouble(s[1..])
  }

  /** A value that starts and ends with `"` loses them. A lone `"` is kept: for it
      `substring(1, 0)` swaps its arguments and returns the whole string. */
  function StripQuotes(t: string): string
  {
    if |t| >= 2 && t[0] == '"' && t[|t| - 1] == '"' then t[1..|t| - 1] else t
  }

  /** A cell value: trimmed, surrounding double quotes removed, `""` un-doubled. */
  function CleanValue(v: string): string
  {
    UnDouble(StripQuotes(Trim(v)))
  }

  /** `headers.forEach((header, index) => row[header] = clean(values[index]))`:
      assigned left to right, so a repeated header keeps its last value. */
  function BuildRow(headers: seq<string>, values: seq<string>): Row
    requires |headers| == |values|
  {
    if headers == [] then map[]
    else
      var n := |headers| - 1;
      BuildRow(headers[..n], values[..n])[headers[n] := CleanValue(values[n])]
  }

  /** Every header is a key of the row, and nothing else is. */
  lemma {:induction false} BuildRowKeys(headers: seq<string>, values: seq<string>)
    requires |headers| == |values|
    ensures forall h :: h in BuildRow(headers, values) <==> h in headers
  {
    if headers != [] {
      var n := |headers| - 1;
      BuildRowKeys(headers[..n], values[..n]);
      assert headers == headers[..n] + [headers[n]];
    }
  }

  /** A header holds the cleaned value found at its position when it does not occur
      again later in the header line (a later duplicate overwrites it). */
  lemma {:induction false} BuildRowAt(headers: seq<string>, values: seq<string>, j: nat)
    requires |headers| == |values| && j < |headers|
    requires headers[j] !in headers[j + 1..]
    ensures headers[j] in BuildRow(headers, values)
    ensures BuildRow(headers, values)[headers[j]] == CleanValue(values[j])
  {
    var n := |headers| - 1;
    if j < n {
      assert headers[j] != headers[n] by {
        assert headers[n] in headers[j + 1..];
      }
      assert headers[..n][j + 1..] == headers[j + 1..n];
      BuildRowAt(headers[..n], values[..n], j);
    }
  }

  /** The row built from one trimmed, non-blank line, unless its field count differs
      from the header count (the line is then skipped with a warning). */
  function RowOf(headers: seq<string>, line: string): (r: seq<Row>)
    ensures |r| <= 1
  {
    var values := SplitCommas(line, true);
    if |values| == |headers| then [BuildRow(headers, values)] else []
  }

  /** What one line after the header contributes: nothing when it is blank after
      trimming, else the row of the trimmed line, if any. */
  function LineRows(headers: seq<string>, line: string): (r: seq<Row>)
    ensures |r| <= 1
  {
    var t := Trim(line);
    if t == [] then [] else RowOf(headers, t)
  }

  /** The rows of the lines after the header, in file order. */
  function Rows(headers: seq<string>, lines: seq<string>): (r: seq<Row>)
    ensures |r| <= |lines|
  {
    if lines == [] then []
    else
      var n := |lines| - 1;
      Rows(headers, lines[..n]) + LineRows(headers, lines[n])
  }

  /** The rows of a concatenation of lines are the rows of each part: kept rows
      appear in file order. */
  lemma {:induction false} RowsConcat(headers: seq<string>, a: seq<string>, b: seq<string>)
    ensures Rows(headers, a + b) == Rows(headers, a) + Rows(headers, b)
  {
    if b != [] {
      var n := |b| - 1;
      assert (a + b)[..|a + b| - 1] == a + b[..n];
      RowsConcat(headers, a, b[..n]);
    } else {
      assert a + b == a;
    }
  }

  /** Every row holds exactly the header names as keys. */
  lemma {:induction false} RowsKeys(headers: seq<string>, lines: seq<string>)
    ensures forall r :: r in Rows(headers, lines) ==> forall h :: h in r <==> h in headers
  {
    if lines != [] {
      var n := |lines| - 1;
      RowsKeys(headers, lines[..n]);
      var t := Trim(lines[n]);
      var values := SplitCommas(t, true);
      if t != [] && |values| == |headers| {
        BuildRowKeys(headers, values);
      }
    }
  }

  /** The header names of the first line. */
  function Headers(line: string): (hs: seq<string>)
    ensures |hs| >= 1
  {
    var parts := SplitCommas(line, false);
    seq(|parts|, k requires 0 <= k < |parts| => CleanHeader(parts[k]))
  }

  /** `parseCSV(csvText)`: no headers and no rows when the first line is blank. */
  function Parse(text: string): Table
  {
    var lines := SplitLines(Trim(text));
    if Trim(lines[0]) == [] then Table([], [])
    else
      var headers := Headers(lines[0]);
      Table(headers, Rows(headers, lines[1..]))
  }

  /** The imperative parser: a loop over the lines that pushes each kept row, and an
      inner loop that fills the row header by header. */
  method ParseCsv(csvText: string) returns (headers: seq<string>, data: seq<Row>)
    ensures Table(headers, data) == Parse(csvText)
    ensures |headers| == 0 <==> Trim(csvText) == []
    ensures |headers| == 0 ==> data == []
    ensures forall r :: r in data ==> forall h :: h in r <==> h in headers
    ensures |data| < |SplitLines(Trim(csvText))|
  {
    var lines := SplitLines(Trim(csvText));
    if Trim(lines[0]) == [] {
      headers, data := [], [];
      ParseHeadersIff(csvText);
      return;
    }
    headers := Headers(lines[0]);
    data := [];
    var i := 1;
    while i < |lines|
      invariant 1 <= i <= |lines|
      invariant data == Rows(headers, lines[1..i])
    {
      ghost var next := lines[1..i + 1];
      assert next[..|next| - 1] == lines[1..i] && next[|next| - 1] == lines[i];
      var line := Trim(lines[i]);
      if line != [] {
        var values := SplitCommas(line, true);
        if |values| == |headers| {
          var row := FillRow(headers, values);
          data := data + [row];
        }
      }
      i := i + 1;
    }
    assert lines[1..i] == lines[1..];
    assert Parse(csvText) == Table(headers, data);
    ParseHeadersIff(csvText);
    RowsKeys(headers, lines[1..]);
  }

  /** `headers.forEach(...)` filling one row key by key. */
  method FillRow(headers: seq<string>, values: seq<string>) returns (row: Row)
    requires |headers| == |values|
    ensures row == BuildRow(headers, values)
    ensures forall h :: h in row <==> h in headers
  {
    row := map[];
    var j := 0;
    while j < |headers|
      invariant 0 <= j <= |headers|
      invariant row == BuildRow(headers[..j], values[..j])
    {
      assert headers[..j + 1][..j] == headers[..j];
      assert values[..j + 1][..j] == values[..j];
      row := row[headers[j] := CleanValue(values[j])];
      j := j + 1;
    }
    assert headers[..j] == headers && values[..j] == values;
    BuildRowKeys(headers, values);
  }

  /** The first line of a text that does not start with a line break starts with the
      text's first character. */
  lemma FirstLineStart(s: string)
    requires s != [] && !IsLineBreak(s[0])
    ensures SplitLines(s)[0] != [] && SplitLines(s)[0][0] == s[0]
  {
  }

  /** Headers are found exactly when the text is not blank, and a blank text gives no
      rows either. */
  lemma ParseHeadersIff(text: string)
    ensures |Parse(text).headers| == 0 <==> Trim(text) == []
    ensures |Parse(text).headers| == 0 ==> Parse(text).data == []
  {
    var u := Trim(text);
    TrimSpec(text);
    if u != [] {
      FirstLineStart(u);
      var l := SplitLines(u)[0];
      TrimEmpty(l);
      assert !IsJsSpace(l[0]);
    }
  }
}

/** Writing a table back as CSV with the quoting convention of section 2 of RFC 4180
    (every value in double quotes, inner double quotes doubled) and parsing it again
    gives the same table. */
module CsvRoundTrip {
  import opened Text
  import opened Seqs
  import opened Csv

  /** Every `"` doubled. */
  function Escape(f: string): string
  {
    if f == [] then [] else EscapeChar(f[0]) + Escape(f[1..])
  }

  function EscapeChar(c: char): string
  {
    if c == '"' then "\"\"" else [c]
  }

  /** A value written as a quoted CSV field. */
  function Quote(f: string): string
  {
    "\"" + Escape(f) + "\""
  }

  function QuoteAll(fields: seq<string>): (r: seq<string>)
    ensures |r| == |fields|
    ensures forall j :: 0 <= j < |fields| ==> r[j] == Quote(fields[j])
  {
    if fields == [] then [] else [Quote(fields[0])] + QuoteAll(fields[1..])
  }

  /** One record: the quoted fields separated by commas. */
  function JoinQuoted(fields: seq<string>): string
    requires |fields| >= 1
  {
    if |fields| == 1 then Quote(fields[0]) else Quote(fields[0]) + "," + JoinQuoted(fields[1..])
  }

  /** The row the header line and a record denote: each header names its field, a
      later duplicate header overwriting an earlier one. */
  function Zip(headers: seq<string>, fields: seq<string>): Row
    requires |headers| == |fields|
  {
    if headers == [] then map[]
    else
      var n := |headers| - 1;
      Zip(headers[..n], fields[..n])[headers[n] := fields[n]]
  }

  lemma {:induction false} QuoteCountConcat(a: string, b: string)
    ensures QuoteCount(a + b) == QuoteCount(a) + QuoteCount(b)
  {
    if a != [] {
      assert (a + b)[1..] == a[1..] + b;
      QuoteCountConcat(a[1..], b);
    } else {
      assert a + b == b;
    }
  }

  lemma {:induction false} EscapeQuoteCount(f: string)
    ensures QuoteCount(Escape(f)) == 2 * QuoteCount(f)
  {
    if f != [] {
      EscapeQuoteCount(f[1..]);
      QuoteCountConcat(EscapeChar(f[0]), Escape(f[1..]));
    }
  }

  /** Un-doubling undoes the escaping. */
  lemma {:induction false} UnDoubleEscape(f: string)
    ensures UnDouble(Escape(f)) == f
  {
    if f != [] {
      UnDoubleEscape(f[1..]);
      var e := Escape(f);
      if f[0] == '"' {
        assert e == "\"\"" + Escape(f[1..]);
        assert e[2..] == Escape(f[1..]);
      } else {
        assert e == [f[0]] + Escape(f[1..]);
        assert e[1..] == Escape(f[1..]);
      }
      assert f == [f[0]] + f[1..];
    }
  }

  /** Cleaning a quoted field gives back the value that was quoted, for every value:
      `"Smith, Jr."` yields `Smith, Jr.` and `"She said ""hi"""` yields `She said "hi"`. */
  lemma CleanQuote(f: string)
    ensures CleanValue(Quote(f)) == f
  {
    var q := Quote(f);
    TrimNoop(q);
    assert StripQuotes(q) == Escape(f);
    UnDoubleEscape(f);
  }

  /** A character other than a splitting comma joins the first piece. */
  lemma PrependNonSplitting(c: char, w: string, quoteAware: bool)
    requires c != ',' || !SplitsBefore(w, quoteAware)
    ensures var r := SplitCommas(w, quoteAware);
      SplitCommas([c] + w, quoteAware) == [[c] + r[0]] + r[1..]
  {
    assert ([c] + w)[1..] == w;
  }

  /** A splitting comma starts a new piece. */
  lemma PrependSplitting(w: string, quoteAware: bool)
    requires SplitsBefore(w, quoteAware)
    ensures SplitCommas([','] + w, quoteAware) == [[]] + SplitCommas(w, quoteAware)
  {
    assert ([','] + w)[1..] == w;
  }

  /** Prefixing `x` to `w` only lengthens the first piece of `w`'s split. */
  predicate Extends(x: string, w: string)
  {
    var r := SplitCommas(w, true);
    SplitCommas(x + w, true) == [x + r[0]] + r[1..]
  }

  lemma ExtendsChar(c: char, w: string)
    requires c != ',' || !SplitsBefore(w, true)
    ensures Extends([c], w)
  {
    PrependNonSplitting(c, w, true);
  }

  lemma ExtendsConcat(x: string, y: string, w: string)
    requires Extends(y, w) && Extends(x, y + w)
    ensures Extends(x + y, w)
  {
    var r := SplitCommas(w, true);
    var r2 := SplitCommas(y + w, true);
    assert r2[0] == y + r[0] && r2[1..] == r[1..];
    assert x + (y + w) == (x + y) + w;
    assert x + r2[0] == (x + y) + r[0];
  }

  /** One escaped character followed by text with an odd number of quotes never
      starts a new piece. */
  lemma EscapeCharExtends(c: char, w: string)
    requires QuoteCount(w) % 2 == 1
    ensures Extends(EscapeChar(c), w)
  {
    if c == '"' {
      ExtendsChar('"', w);
      ExtendsChar('"', "\"" + w);
      ExtendsConcat("\"", "\"", w);
      assert "\"" + "\"" == EscapeChar(c);
    } else {
      ExtendsChar(c, w);
    }
  }

  /** No comma inside an escaped value splits the line when an odd number of quotes
      follows the value. */
  lemma {:induction false} SplitEscaped(f: string, z: string)
    requires QuoteCount(z) % 2 == 1
    ensures Extends(Escape(f), z)
  {
    if f == [] {
      var r := SplitCommas(z, true);
      assert Escape(f) == [];
      assert Escape(f) + z == z;
      assert Escape(f) + r[0] == r[0];
      assert [r[0]] + r[1..] == r;
    } else {
      SplitEscaped(f[1..], z);
      SplitEscapedStep(f, z);
    }
  }

  lemma SplitEscapedStep(f: string, z: string)
    requires f != [] && QuoteCount(z) % 2 == 1
    requires Extends(Escape(f[1..]), z)
    ensures Extends(Escape(f), z)
  {
    var e := Escape(f[1..]);
    EscapedOdd(f[1..], z);
    EscapeCharExtends(f[0], e + z);
    ExtendsConcat(EscapeChar(f[0]), e, z);
  }

  /** An escaped value keeps the parity of the quotes that follow it. */
  lemma EscapedOdd(g: string, z: string)
    requires QuoteCount(z) % 2 == 1
    ensures QuoteCount(Escape(g) + z) % 2 == 1
  {
    EscapeQuoteCount(g);
    QuoteCountConcat(Escape(g), z);
  }

  lemma {:induction false} JoinQuotedEven(fields: seq<string>)
    requires |fields| >= 1
    ensures QuoteCount(JoinQuoted(fields)) % 2 == 0
  {
    EscapeQuoteCount(fields[0]);
    QuoteCountConcat("\"", Escape(fields[0]));
    QuoteCountConcat("\"" + Escape(fields[0]), "\"");
    if |fields| > 1 {
      JoinQuotedEven(fields[1..]);
      QuoteCountConcat(Quote(fields[0]), ",");
      QuoteCountConcat(Quote(fields[0]) + ",", JoinQuoted(fields[1..]));
    }
  }

  /** The quote-aware split of a written record gives back its quoted fields, one per
      value, commas inside values included. */
  lemma {:induction false} SplitJoinQuoted(fields: seq<string>)
    requires |fields| >= 1
    ensures SplitCommas(JoinQuoted(fields), true) == QuoteAll(fields)
  {
    var e := Escape(fields[0]);
    if |fields| == 1 {
      assert QuoteCount("\"") == 1;
      SplitQuote();
      SplitEscaped(fields[0], "\"");
      ExtendsChar('"', e + "\"");
      assert JoinQuoted(fields) == "\"" + (e + "\"");
    } else {
      var j := JoinQuoted(fields[1..]);
      var w := "\"" + ("," + j);
      JoinQuotedEven(fields[1..]);
      PrependSplitting(j, true);
      assert SplitCommas("," + j, true) == [[]] + SplitCommas(j, true);
      ExtendsChar('"', "," + j);
      var r := SplitCommas("," + j, true);
      assert r[0] == [] && r[1..] == SplitCommas(j, true);
      assert "\"" + r[0] == "\"";
      assert SplitCommas(w, true) == ["\""] + SplitCommas(j, true);
      QuoteCountConcat(",", j);
      QuoteCountConcat("\"", "," + j);
      SplitEscaped(fields[0], w);
      assert SplitCommas(e + w, true) == [e + "\""] + SplitCommas(j, true);
      ExtendsChar('"', e + w);
      Regroup("\"", e, "\"", ",", j);
      assert JoinQuoted(fields) == "\"" + (e + w);
      assert "\"" + (e + "\"") == Quote(fields[0]);
      SplitJoinQuoted(fields[1..]);
      assert SplitCommas(JoinQuoted(fields), true) == [Quote(fields[0])] + QuoteAll(fields[1..]);
    }
  }

  lemma Regroup(a: string, b: string, c: string, d: string, x: string)
    ensures a + b + c + d + x == a + (b + (c + (d + x)))
  {
  }

  /** A lone quote is one piece. */
  lemma SplitQuote()
    ensures SplitCommas("\"", true) == ["\""]
  {
    var r := SplitCommas([], true);
    assert r == [[]];
    PrependNonSplitting('"', [], true);
    assert ['"'] + [] == "\"";
    assert [['"'] + r[0]] + r[1..] == ["\""];
  }

  /** Building a row from quoted fields gives the row of the original values. */
  lemma {:induction false} BuildRowQuoted(headers: seq<string>, fields: seq<string>)
    requires |headers| == |fields|
    ensures BuildRow(headers, QuoteAll(fields)) == Zip(headers, fields)
  {
    if headers != [] {
      var n := |headers| - 1;
      assert QuoteAll(fields)[..n] == QuoteAll(fields[..n]);
      BuildRowQuoted(headers[..n], fields[..n]);
      CleanQuote(fields[n]);
    }
  }

  /** A written record becomes, after the row split and cleaning, exactly the row of
      its values. */
  lemma RecordRoundTrip(headers: seq<string>, fields: seq<string>)
    requires |headers| == |fields| >= 1
    ensures LineRows(headers, JoinQuoted(fields)) == [Zip(headers, fields)]
  {
    var line := JoinQuoted(fields);
    assert line[0] == '"';
    JoinQuotedLast(fields);
    TrimNoop(line);
    SplitJoinQuoted(fields);
    BuildRowQuoted(headers, fields);
  }

  lemma {:induction false} JoinQuotedLast(fields: seq<string>)
    requires |fields| >= 1
    ensures JoinQuoted(fields)[|JoinQuoted(fields)| - 1] == '"'
  {
    if |fields| > 1 {
      JoinQuotedLast(fields[1..]);
    }
  }

  // ---------------------------------------------------------------------------
  // Whole tables

  /** A header name the header line gives back unchanged: not empty, without commas
      or line breaks, and with neither whitespace nor a quote character at its ends. */
  predicate PlainHeader(h: string)
  {
    && h != [] && NoLineBreak(h)
    && (forall k :: 0 <= k < |h| ==> h[k] != ',')
    && !IsJsSpace(h[0]) && !IsJsSpace(h[|h| - 1])
    && !IsQuoteChar(h[0]) && !IsQuoteChar(h[|h| - 1])
  }

  /** Each record written as one line. */
  function RecordLines(records: seq<seq<string>>): (lines: seq<string>)
    requires forall i :: 0 <= i < |records| ==> |records[i]| >= 1
    ensures |lines| == |records|
    ensures forall i :: 0 <= i < |records| ==> lines[i] == JoinQuoted(records[i])
  {
    if records == [] then [] else [JoinQuoted(records[0])] + RecordLines(records[1..])
  }

  /** A table written as CSV text: the header line, then one line per record, joined
      with line feeds. */
  function WriteTable(headers: seq<string>, records: seq<seq<string>>): string
    requires |headers| >= 1
    requires forall i :: 0 <= i < |records| ==> |records[i]| == |headers|
  {
    Join([Join(headers, ',')] + RecordLines(records), '\n')
  }

  /** The rows the records denote under the header line. */
  function ZipAll(headers: seq<string>, records: seq<seq<string>>): (rows: seq<Row>)
    requires forall i :: 0 <= i < |records| ==> |records[i]| == |headers|
    ensures |rows| == |records|
    ensures forall i :: 0 <= i < |records| ==> rows[i] == Zip(headers, records[i])
  {
    if records == [] then [] else [Zip(headers, records[0])] + ZipAll(headers, records[1..])
  }

  /** Writing a table and parsing the text gives back its header names and, in order,
      one row per record holding that record's values, whatever commas, quotes and
      surrounding spaces the values contain. */
  lemma TableRoundTrip(headers: seq<string>, records: seq<seq<string>>)
    requires |headers| >= 1
    requires forall k :: 0 <= k < |headers| ==> PlainHeader(headers[k])
    requires forall i :: 0 <= i < |records| ==> |records[i]| == |headers|
    requires forall i, j :: 0 <= i < |records| && 0 <= j < |headers| ==> NoLineBreak(records[i][j])
    ensures Parse(WriteTable(headers, records)) == Table(headers, ZipAll(headers, records))
  {
    var h := Join(headers, ',');
    var body := RecordLines(records);
    var lines := [h] + body;
    var text := WriteTable(headers, records);
    WrittenLines(headers, records);
    TextEnds(headers, records);
    TrimNoop(text);
    SplitLinesJoin(lines);
    assert SplitLines(Trim(text)) == lines;
    TrimNoop(h);
    HeaderLine(headers);
    assert lines[1..] == body;
    RowsOfRecords(headers, records);
  }

  /** The header line and every record line are free of line breaks, and the header
      line has no whitespace at its ends. */
  lemma WrittenLines(headers: seq<string>, records: seq<seq<string>>)
    requires |headers| >= 1
    requires forall k :: 0 <= k < |headers| ==> PlainHeader(headers[k])
    requires forall i :: 0 <= i < |records| ==> |records[i]| == |headers|
    requires forall i, j :: 0 <= i < |records| && 0 <= j < |headers| ==> NoLineBreak(records[i][j])
    ensures var h := Join(headers, ',');
      h != [] && !IsJsSpace(h[0]) && !IsJsSpace(h[|h| - 1])
    ensures forall k :: 0 <= k < |records| + 1 ==> NoLineBreak(([Join(headers, ',')] + RecordLines(records))[k])
  {
    var h := Join(headers, ',');
    var lines := [h] + RecordLines(records);
    JoinNoBreak(headers, ',');
    JoinFirst(headers, ',');
    JoinLast(headers, ',');
    forall k | 0 <= k < |lines|
      ensures NoLineBreak(lines[k])
    {
      if k > 0 {
        JoinQuotedNoBreak(records[k - 1]);
      }
    }
  }

  /** The written text has no whitespace at its ends. */
  lemma TextEnds(headers: seq<string>, records: seq<seq<string>>)
    requires |headers| >= 1
    requires forall k :: 0 <= k < |headers| ==> PlainHeader(headers[k])
    requires forall i :: 0 <= i < |records| ==> |records[i]| == |headers|
    ensures var t := WriteTable(headers, records);
      t != [] && !IsJsSpace(t[0]) && !IsJsSpace(t[|t| - 1])
  {
    var h := Join(headers, ',');
    var lines := [h] + RecordLines(records);
    JoinFirst(headers, ',');
    JoinLast(headers, ',');
    JoinFirst(lines, '\n');
    var last := lines[|lines| - 1];
    if records != [] {
      var r := records[|records| - 1];
      assert last == JoinQuoted(r);
      JoinQuotedLast(r);
      assert last[|last| - 1] == '"';
    } else {
      assert last == h;
    }
    JoinLast(lines, '\n');
  }

  /** A join starts with the first piece's first character. */
  lemma JoinFirst<T>(pieces: seq<seq<T>>, sep: T)
    requires |pieces| >= 1 && pieces[0] != []
    ensures var j := Join(pieces, sep); j != [] && j[0] == pieces[0][0]
  {
  }

  /** The header line gives back the header names. */
  lemma HeaderLine(headers: seq<string>)
    requires |headers| >= 1
    requires forall k :: 0 <= k < |headers| ==> PlainHeader(headers[k])
    ensures Headers(Join(headers, ',')) == headers
  {
    SplitCommasJoinPlain(headers);
    var hs := Headers(Join(headers, ','));
    assert |hs| == |headers|;
    forall k | 0 <= k < |headers|
      ensures hs[k] == headers[k]
    {
      PlainHeaderClean(headers[k]);
    }
  }

  /** A plain header name is its own cleaned name. */
  lemma PlainHeaderClean(h: string)
    requires PlainHeader(h)
    ensures CleanHeader(h) == h
  {
    TrimNoop(h);
  }

  /** The rows of the written records are the records' rows. */
  lemma {:induction false} RowsOfRecords(headers: seq<string>, records: seq<seq<string>>)
    requires |headers| >= 1
    requires forall i :: 0 <= i < |records| ==> |records[i]| == |headers|
    ensures Rows(headers, RecordLines(records)) == ZipAll(headers, records)
  {
    if records != [] {
      var line := JoinQuoted(records[0]);
      var rest := records[1..];
      assert RecordLines(records) == [line] + RecordLines(rest);
      RowsConcat(headers, [line], RecordLines(rest));
      RowsOne(headers, line);
      RecordRoundTrip(headers, records[0]);
      RowsOfRecords(headers, rest);
    }
  }

  lemma RowsOne(headers: seq<string>, line: string)
    ensures Rows(headers, [line]) == LineRows(headers, line)
  {
    assert [line][..0] == [];
  }

  /** Text without line breaks in front of more text only lengthens its first line. */
  lemma {:induction false} SplitLinesPrefix(l: string, s: string)
    requires NoLineBreak(l)
    ensures var r := SplitLines(s);
      SplitLines(l + s) == [l + r[0]] + r[1..]
  {
    var r := SplitLines(s);
    if l == [] {
      assert l + s == s;
      assert l + r[0] == r[0];
      assert [r[0]] + r[1..] == r;
    } else {
      assert (l + s)[1..] == l[1..] + s;
      SplitLinesPrefix(l[1..], s);
      assert [l[0]] + (l[1..] + r[0]) == l + r[0];
    }
  }

  /** Lines without line breaks, joined with line feeds, split back into those lines. */
  lemma {:induction false} SplitLinesJoin(lines: seq<string>)
    requires |lines| >= 1
    requires forall k :: 0 <= k < |lines| ==> NoLineBreak(lines[k])
    ensures SplitLines(Join(lines, '\n')) == lines
  {
    if |lines| == 1 {
      SplitLinesPrefix(lines[0], []);
      assert lines[0] + [] == lines[0];
    } else {
      var j := Join(lines[1..], '\n');
      SplitLinesJoin(lines[1..]);
      assert (['\n'] + j)[1..] == j;
      assert SplitLines(['\n'] + j) == [[]] + lines[1..];
      assert Join(lines, '\n') == lines[0] + (['\n'] + j);
      SplitLinesPrefix(lines[0], ['\n'] + j);
      assert lines[0] + [] == lines[0];
      assert [lines[0]] + lines[1..] == lines;
    }
  }

  /** Comma-free names joined with commas split back into those names. */
  lemma {:induction false} SplitCommasJoinPlain(names: seq<string>)
    requires |names| >= 1
    requires forall k :: 0 <= k < |names| ==> PlainHeader(names[k])
    ensures SplitCommas(Join(names, ','), false) == names
  {
    if |names| == 1 {
      SplitCommasPrefix(names[0], []);
      assert names[0] + [] == names[0];
    } else {
      var j := Join(names[1..], ',');
      SplitCommasJoinPlain(names[1..]);
      PrependSplitting(j, false);
      assert Join(names, ',') == names[0] + ([','] + j);
      SplitCommasPrefix(names[0], [','] + j);
      assert names[0] + [] == names[0];
      assert [names[0]] + names[1..] == names;
    }
  }

  /** Comma-free text in front of more text only lengthens the first piece of the
      plain split. */
  lemma {:induction false} SplitCommasPrefix(l: string, s: string)
    requires forall k :: 0 <= k < |l| ==> l[k] != ','
    ensures var r := SplitCommas(s, false);
      SplitCommas(l + s, false) == [l + r[0]] + r[1..]
  {
    var r := SplitCommas(s, false);
    if l == [] {
      assert l + s == s;
      assert l + r[0] == r[0];
      assert [r[0]] + r[1..] == r;
    } else {
      assert (l + s)[1..] == l[1..] + s;
      SplitCommasPrefix(l[1..], s);
      PrependNonSplitting(l[0], l[1..] + s, false);
      assert [l[0]] + (l[1..] + r[0]) == l + r[0];
      assert [l[0]] + (l[1..] + s) == l + s;
    }
  }

  /** A join ends with the last piece's last character. */
  lemma {:induction false} JoinLast<T>(pieces: seq<seq<T>>, sep: T)
    requires |pieces| >= 1 && pieces[|pieces| - 1] != []
    ensures var j := Join(pieces, sep);
      j != [] && j[|j| - 1] == pieces[|pieces| - 1][|pieces[|pieces| - 1]| - 1]
  {
    if |pieces| > 1 {
      JoinLast(pieces[1..], sep);
    }
  }

  lemma {:induction false} JoinNoBreak(pieces: seq<string>, sep: char)
    requires |pieces| >= 1 && !IsLineBreak(sep)
    requires forall k :: 0 <= k < |pieces| ==> NoLineBreak(pieces[k])
    ensures NoLineBreak(Join(pieces, sep))
  {
    if |pieces| > 1 {
      JoinNoBreak(pieces[1..], sep);
    }
  }

  lemma {:induction false} EscapeNoBreak(f: string)
    requires NoLineBreak(f)
    ensures NoLineBreak(Escape(f))
  {
    if f != [] {
      EscapeNoBreak(f[1..]);
    }
  }

  lemma {:induction false} JoinQuotedNoBreak(fields: seq<string>)
    requires |fields| >= 1
    requires forall j :: 0 <= j < |fields| ==> NoLineBreak(fields[j])
    ensures NoLineBreak(JoinQuoted(fields))
  {
    EscapeNoBreak(fields[0]);
    if |fields| > 1 {
      JoinQuotedNoBreak(fields[1..]);
    }
  }
}
