/** Turning parsed CSV rows into lead candidates under a column mapping
    (`handleMappingComplete`): rows with a bad email or no first name are skipped and
    counted, the others become trimmed candidates with status `new`. */
module Validation {
  import opened Wrappers
  import opened Text
  import opened Csv
  import opened Leads
  import opened ColumnMapper

  /** `[a-zA-Z0-9._%+-]` */
  predicate IsLocalChar(c: char)
  {
    ('a' <= c <= 'z') || ('A' <= c <= 'Z') || ('0' <= c <= '9')
    || c == '.' || c == '_' || c == '%' || c == '+' || c == '-'
  }

  /** `[a-zA-Z0-9.-]` */
  predicate IsDomainChar(c: char)
  {
    ('a' <= c <= 'z') || ('A' <= c <= 'Z') || ('0' <= c <= '9') || c == '.' || c == '-'
  }

  /** `[a-zA-Z]` */
  predicate IsLetter(c: char)
  {
    ('a' <= c <= 'z') || ('A' <= c <= 'Z')
  }

  predicate AllLocal(s: string, i: int, j: int)
    requires 0 <= i <= j <= |s|
  {
    forall k :: i <= k < j ==> IsLocalChar(s[k])
  }

  predicate AllDomain(s: string, i: int, j: int)
    requires 0 <= i <= j <= |s|
  {
    forall k :: i <= k < j ==> IsDomainChar(s[k])
  }

  predicate AllLetters(s: string, i: int, j: int)
    requires 0 <= i <= j <= |s|
  {
    forall k :: i <= k < j ==> IsLetter(s[k])
  }

  /** The email pattern `[a-zA-Z0-9._%+-]+@[a-zA-Z0-9.-]+\.[a-zA-Z]{2,}` matches
      `s[i..j]`, with its `@` at `a` and the dot before the top-level domain at `p`. */
  ghost predicate MatchSpan(s: string, i: int, a: int, p: int, j: int)
  {
    0 <= i < a && a + 1 < p && p + 2 < j <= |s|
    && AllLocal(s, i, a) && s[a] == '@' && AllDomain(s, a + 1, p)
    && s[p] == '.' && AllLetters(s, p + 1, j)
  }

  /** `emailRegex.test(s)`: the pattern is not anchored, so it is enough that it
      matches some piece of `s`. */
  ghost predicate RegexTest(s: string)
  {
    exists i, a, p, j :: MatchSpan(s, i, a, p, j)
  }

  /** The shortest match around an `@` at `a`: one local character before it, domain
      characters up to a dot at `p`, and two letters after the dot. */
  predicate ShapeAt(s: string, a: int, p: int)
  {
    1 <= a && a + 2 <= p && p + 3 <= |s|
    && IsLocalChar(s[a - 1]) && s[a] == '@' && AllDomain(s, a + 1, p)
    && s[p] == '.' && IsLetter(s[p + 1]) && IsLetter(s[p + 2])
  }

  /** The email check as the page runs it. */
  predicate HasEmailShape(s: string)
  {
    exists a, p | 0 < a < |s| && a < p < |s| :: ShapeAt(s, a, p)
  }

  /** The check agrees with the regular expression on every string. */
  lemma EmailShapeIff(s: string)
    ensures HasEmailShape(s) <==> RegexTest(s)
  {
    if HasEmailShape(s) {
      var a, p :| 0 < a < |s| && a < p < |s| && ShapeAt(s, a, p);
      assert MatchSpan(s, a - 1, a, p, p + 3);
    }
    if RegexTest(s) {
      var i, a, p, j :| MatchSpan(s, i, a, p, j);
      assert IsLocalChar(s[a - 1]);
      assert IsLetter(s[p + 1]) && IsLetter(s[p + 2]);
      assert ShapeAt(s, a, p);
    }
  }

  /** A text without `@` never passes, "not-an-email" among them. */
  lemma NoAtNoEmail(s: string)
    requires forall k :: 0 <= k < |s| ==> s[k] != '@'
    ensures !HasEmailShape(s) && !RegexTest(s)
  {
    EmailShapeIff(s);
  }

  /** The pattern is not anchored: whatever text surrounds an address, the whole
      still passes, so "Jane <jane.smith@startup.io>, CTO" is accepted as an email. */
  lemma UnanchoredMatch(s: string, x: string, y: string)
    requires HasEmailShape(s)
    ensures HasEmailShape(x + s + y)
  {
    var a, p :| 0 < a < |s| && a < p < |s| && ShapeAt(s, a, p);
    var t := x + s + y;
    var d := |x|;
    forall k | 0 <= k < |s|
      ensures t[d + k] == s[k]
    {
    }
    forall k | a + 1 + d <= k < p + d
      ensures IsDomainChar(t[k])
    {
      assert t[k] == s[k - d];
    }
    assert ShapeAt(t, a + d, p + d);
  }

  /** The value a field reads from a row under the mapping: the trimmed cell of the
      mapped column, or the empty string when the field is unmapped or the cell is
      empty. */
  function MappedValue(item: Row, m: Mapping, f: Field): (v: string)
    ensures v == Trim(v)
    ensures f !in m ==> v == []
    ensures f in m && m[f] in item ==> v == Trim(item[m[f]])
  {
    TrimIdempotent(if f in m && m[f] in item then item[m[f]] else []);
    if f in m && m[f] in item && item[m[f]] != [] then Trim(item[m[f]]) else []
  }

  /** The read as the page writes it, `item[mapping[f]]`: an unmapped field's key is
      `undefined`, which JavaScript turns into the property name "undefined". The
      import reads every field this way. */
  function MappedValueAsWritten(item: Row, m: Mapping, f: Field): (v: string)
    ensures v == Trim(v)
    ensures f in m ==> v == MappedValue(item, m, f)
    ensures f !in m && "undefined" in item ==> v == Trim(item["undefined"])
    ensures f !in m && "undefined" !in item ==> v == []
  {
    var key := if f in m then m[f] else "undefined";
    TrimIdempotent(if key in item then item[key] else []);
    if key in item && item[key] != [] then Trim(item[key]) else []
  }

  /** The two reads differ exactly on unmapped fields of rows from a file that has a
      column named "undefined": that column's value leaks into every such field. */
  lemma UndefinedColumnLeaks(item: Row, m: Mapping, f: Field)
    requires f !in m && "undefined" in item && Trim(item["undefined"]) != []
    ensures MappedValueAsWritten(item, m, f) == Trim(item["undefined"])
    ensures MappedValue(item, m, f) == []
  {
  }

  /** Elsewhere the two reads agree. */
  lemma MappedValueAgrees(item: Row, m: Mapping, f: Field)
    requires f in m || "undefined" !in item
    ensures MappedValueAsWritten(item, m, f) == MappedValue(item, m, f)
  {
  }

  /** Why a row was skipped. */
  datatype SkipReason = InvalidEmail | MissingFirstName

  /** One row through the checks: the email first, then the first name. Every field
      is read as the page reads it. */
  function NormalizeRow(item: Row, m: Mapping): (r: Result<Candidate, SkipReason>)
  {
    var email := MappedValueAsWritten(item, m, Email);
    if email == [] || !HasEmailShape(email) then Err(InvalidEmail)
    else
      var first := MappedValueAsWritten(item, m, FirstName);
      if first == [] then Err(MissingFirstName)
      else Ok(Candidate(email, first,
        MappedValueAsWritten(item, m, LastName), MappedValueAsWritten(item, m, Company),
        MappedValueAsWritten(item, m, Title), MappedValueAsWritten(item, m, Industry),
        MappedValueAsWritten(item, m, CompanySize), MappedValueAsWritten(item, m, Notes), New))
  }

  /** Every field of a candidate is trimmed, its email matches the pattern, its first
      name is not empty and its status is `new`. */
  predicate WellFormed(c: Candidate)
  {
    c.status == New && c.first_name != [] && HasEmailShape(c.email)
    && c.email == Trim(c.email) && c.first_name == Trim(c.first_name)
    && c.last_name == Trim(c.last_name) && c.company == Trim(c.company)
    && c.title == Trim(c.title) && c.industry == Trim(c.industry)
    && c.company_size == Trim(c.company_size) && c.notes == Trim(c.notes)
  }

  /** A row is kept exactly when its email has the email shape and its first name is
      not blank; the email is checked first; a kept row becomes a well-formed
      candidate, each of whose fields is the trimmed cell the page reads for it. A
      kept row's email and first name come from mapped columns, or from a column
      named "undefined". */
  lemma NormalizeRowSpec(item: Row, m: Mapping)
    ensures var r := NormalizeRow(item, m);
      && (r.Ok? <==> HasEmailShape(MappedValueAsWritten(item, m, Email)) && MappedValueAsWritten(item, m, FirstName) != [])
      && (!HasEmailShape(MappedValueAsWritten(item, m, Email)) ==> r == Err(InvalidEmail))
      && (r.Ok? ==> WellFormed(r.value))
      && (r.Ok? ==> (Email in m || "undefined" in item) && (FirstName in m || "undefined" in item))
    ensures var r := NormalizeRow(item, m);
      r.Ok? ==> (
        && r.value.email == MappedValueAsWritten(item, m, Email)
        && r.value.first_name == MappedValueAsWritten(item, m, FirstName)
        && r.value.last_name == MappedValueAsWritten(item, m, LastName)
        && r.value.company == MappedValueAsWritten(item, m, Company)
        && r.value.title == MappedValueAsWritten(item, m, Title)
        && r.value.industry == MappedValueAsWritten(item, m, Industry)
        && r.value.company_size == MappedValueAsWritten(item, m, CompanySize)
        && r.value.notes == MappedValueAsWritten(item, m, Notes))
  {
    var email := MappedValueAsWritten(item, m, Email);
    if email == [] {
      assert !HasEmailShape(email);
    }
  }

  /** In a file without a column named "undefined" the page's reads are the corrected
      ones: a row is kept iff the corrected email has the shape and the corrected first
      name is not blank, and every field of the candidate is its corrected read. */
  lemma NormalizeRowCorrected(item: Row, m: Mapping)
    requires "undefined" !in item
    ensures var r := NormalizeRow(item, m);
      && (r.Ok? <==> HasEmailShape(MappedValue(item, m, Email)) && MappedValue(item, m, FirstName) != [])
      && (r.Ok? ==> r.value == Candidate(MappedValue(item, m, Email), MappedValue(item, m, FirstName),
           MappedValue(item, m, LastName), MappedValue(item, m, Company),
           MappedValue(item, m, Title), MappedValue(item, m, Industry),
           MappedValue(item, m, CompanySize), MappedValue(item, m, Notes), New))
  {
    NormalizeRowSpec(item, m);
    forall f: Field
      ensures MappedValueAsWritten(item, m, f) == MappedValue(item, m, f)
    {
      MappedValueAgrees(item, m, f);
    }
  }

  /** The candidates of the kept rows, in row order. */
  function CleanRows(rows: seq<Row>, m: Mapping): (r: seq<Candidate>)
    ensures |r| <= |rows|
  {
    if rows == [] then []
    else
      var n := |rows| - 1;
      var kept := NormalizeRow(rows[n], m);
      CleanRows(rows[..n], m) + (if kept.Ok? then [kept.value] else [])
  }

  /** The number of skipped rows. */
  function SkippedCount(rows: seq<Row>, m: Mapping): nat
  {
    if rows == [] then 0
    else
      var n := |rows| - 1;
      SkippedCount(rows[..n], m) + (if NormalizeRow(rows[n], m).Ok? then 0 else 1)
  }

  /** Every row is either kept or counted as skipped. */
  lemma {:induction false} CleanRowsCount(rows: seq<Row>, m: Mapping)
    ensures |CleanRows(rows, m)| + SkippedCount(rows, m) == |rows|
  {
    if rows != [] {
      CleanRowsCount(rows[..|rows| - 1], m);
    }
  }

  /** Kept rows keep their order: the candidates of a concatenation are those of each
      part. */
  lemma {:induction false} CleanRowsConcat(a: seq<Row>, b: seq<Row>, m: Mapping)
    ensures CleanRows(a + b, m) == CleanRows(a, m) + CleanRows(b, m)
  {
    if b == [] {
      assert a + b == a;
    } else {
      var n := |b| - 1;
      assert (a + b)[..|a + b| - 1] == a + b[..n];
      assert (a + b)[|a + b| - 1] == b[n];
      CleanRowsConcat(a, b[..n], m);
    }
  }

  /** Every candidate comes from a row, is well formed, and is what that row gives. */
  lemma {:induction false} CleanRowsWellFormed(rows: seq<Row>, m: Mapping)
    ensures forall c :: c in CleanRows(rows, m) ==> WellFormed(c)
    ensures forall c :: c in CleanRows(rows, m) ==> exists k :: 0 <= k < |rows| && NormalizeRow(rows[k], m) == Ok(c)
  {
    if rows != [] {
      var n := |rows| - 1;
      CleanRowsWellFormed(rows[..n], m);
      NormalizeRowSpec(rows[n], m);
      forall c | c in CleanRows(rows, m)
        ensures exists k :: 0 <= k < |rows| && NormalizeRow(rows[k], m) == Ok(c)
      {
        if c in CleanRows(rows[..n], m) {
          var k :| 0 <= k < n && NormalizeRow(rows[..n][k], m) == Ok(c);
          assert rows[..n][k] == rows[k];
        } else {
          assert NormalizeRow(rows[n], m) == Ok(c);
        }
      }
    }
  }

  /** The `rawData.map(...).filter(Boolean)` pass with its `skippedRows` counter. */
  method CleanData(rawData: seq<Row>, m: Mapping) returns (cleaned: seq<Candidate>, skipped: nat)
    ensures cleaned == CleanRows(rawData, m)
    ensures skipped == SkippedCount(rawData, m)
    ensures |cleaned| + skipped == |rawData|
  {
    cleaned, skipped := [], 0;
    var i := 0;
    while i < |rawData|
      invariant 0 <= i <= |rawData|
      invariant cleaned == CleanRows(rawData[..i], m)
      invariant skipped == SkippedCount(rawData[..i], m)
    {
      assert rawData[..i + 1][..i] == rawData[..i];
      var kept := NormalizeOne(rawData[i], m);
      match kept {
        case Ok(lead) => cleaned := cleaned + [lead];
        case Err(_) => skipped := skipped + 1;
      }
      i := i + 1;
    }
    assert rawData[..i] == rawData;
    CleanRowsCount(rawData, m);
  }

  /** The callback of `rawData.map(...)` for one row: the mapped email is read and
      checked, then the first name, and the candidate is built from the mapped cells. */
  method NormalizeOne(item: Row, m: Mapping) returns (r: Result<Candidate, SkipReason>)
    ensures r == NormalizeRow(item, m)
  {
    var email := MappedValueAsWritten(item, m, Email);
    if email == [] || !HasEmailShape(email) {
      return Err(InvalidEmail);
    }
    var first := MappedValueAsWritten(item, m, FirstName);
    if first == [] {
      return Err(MissingFirstName);
    }
    var lead := Candidate(email, first,
      MappedValueAsWritten(item, m, LastName), MappedValueAsWritten(item, m, Company),
      MappedValueAsWritten(item, m, Title), MappedValueAsWritten(item, m, Industry),
      MappedValueAsWritten(item, m, CompanySize), MappedValueAsWritten(item, m, Notes), New);
    return Ok(lead);
  }
}
