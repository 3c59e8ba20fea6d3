/** The column-mapping step of the import: the header-to-field guess made when the
    headers arrive, the per-field edits, and the gate that lets the mapping through
    only when the required fields are mapped. */
module ColumnMapper {
  import opened Wrappers
  import opened Text

  /** The lead fields a column can be mapped to. */
  datatype Field = Email | FirstName | LastName | Company | Title | Industry | CompanySize | Notes

  /** One row of the field tables: the field, its key, the label shown and whether it is required. */
  datatype FieldInfo = FieldInfo(field: Field, id: string, text: string, required: bool)

  const REQUIRED_FIELDS: seq<FieldInfo> := [
    FieldInfo(Email, "email", "Email Address", true),
    FieldInfo(FirstName, "first_name", "First Name", true)
  ]

  const OPTIONAL_FIELDS: seq<FieldInfo> := [
    FieldInfo(LastName, "last_name", "Last Name", false),
    FieldInfo(Company, "company", "Company Name", false),
    FieldInfo(Title, "title", "Job Title", false),
    FieldInfo(Industry, "industry", "Industry", false),
    FieldInfo(CompanySize, "company_size", "Company Size", false),
    FieldInfo(Notes, "notes", "Notes", false)
  ]

  const ALL_FIELDS: seq<FieldInfo> := REQUIRED_FIELDS + OPTIONAL_FIELDS

  /** The position of a field in the field tables. */
  function FieldIndex(f: Field): (k: nat)
    ensures k < |ALL_FIELDS| && ALL_FIELDS[k].field == f
  {
    match f
    case Email => 0 case FirstName => 1 case LastName => 2 case Company => 3
    case Title => 4 case Industry => 5 case CompanySize => 6 case Notes => 7
  }

  /** The field tables list every field once, and the required ones are exactly the
      email address and the first name. */
  lemma FieldTables()
    ensures forall i, j :: 0 <= i < j < |ALL_FIELDS| ==> ALL_FIELDS[i].field != ALL_FIELDS[j].field
    ensures forall k :: 0 <= k < |ALL_FIELDS| ==>
      (ALL_FIELDS[k].required <==> ALL_FIELDS[k].field == Email || ALL_FIELDS[k].field == FirstName)
  {
    forall i, j | 0 <= i < j < |ALL_FIELDS| ensures ALL_FIELDS[i].field != ALL_FIELDS[j].field {
      assert FieldIndex(ALL_FIELDS[i].field) == i;
      assert FieldIndex(ALL_FIELDS[j].field) == j;
    }
  }

  /** Field to the header it reads from. */
  type Mapping = map<Field, string>

  /** `!!mapping[field]`: the field is mapped to a non-empty header. */
  predicate IsMapped(m: Mapping, f: Field)
  {
    f in m && m[f] != []
  }

  /** The rule chain tried on each header, in its fixed order, on the lowercased
      header; the first rule that applies decides. */
  function MatchRule(header: string): (r: Option<Field>)
  {
    var h := ToLower(header);
    if Contains(h, "email") || Contains(h, "e-mail") then Some(Email)
    else if Contains(h, "first") && Contains(h, "name") then Some(FirstName)
    else if Contains(h, "last") && Contains(h, "name") then Some(LastName)
    else if Contains(h, "company") || Contains(h, "organization") then Some(Company)
    else if Contains(h, "title") || Contains(h, "position") then Some(Title)
    else if Contains(h, "industry") then Some(Industry)
    else if Contains(h, "size") then Some(CompanySize)
    else if Contains(h, "note") then Some(Notes)
    else None
  }

  /** The mapping the `forEach` over the headers builds with a rule chain: each
      matching header sets its field, so a later header overwrites an earlier one. */
  function MapBy(headers: seq<string>, rule: string -> Option<Field>): Mapping
  {
    if headers == [] then map[]
    else
      var n := |headers| - 1;
      var m := MapBy(headers[..n], rule);
      var r := rule(headers[n]);
      if r.Some? then m[r.value := headers[n]] else m
  }

  /** The auto-mapping of the headers. */
  function AutoMapping(headers: seq<string>): Mapping
  {
    MapBy(headers, MatchRule)
  }

  /** The index of the last header that the rule sends to the field. */
  predicate IsLastMatch(headers: seq<string>, rule: string -> Option<Field>, f: Field, k: int)
  {
    0 <= k < |headers| && rule(headers[k]) == Some(f)
    && forall j :: k < j < |headers| ==> rule(headers[j]) != Some(f)
  }

  /** A field is mapped exactly when some header matches it, and then to the last such
      header. */
  lemma {:induction false} MapByLastWins(headers: seq<string>, rule: string -> Option<Field>, f: Field)
    ensures f in MapBy(headers, rule) <==> exists k :: 0 <= k < |headers| && rule(headers[k]) == Some(f)
    ensures f in MapBy(headers, rule) ==> exists k :: IsLastMatch(headers, rule, f, k) && MapBy(headers, rule)[f] == headers[k]
  {
    if headers != [] {
      var n := |headers| - 1;
      var init := headers[..n];
      MapByLastWins(init, rule, f);
      if rule(headers[n]) == Some(f) {
        assert IsLastMatch(headers, rule, f, n);
      } else {
        if f in MapBy(headers, rule) {
          var k :| IsLastMatch(init, rule, f, k) && MapBy(init, rule)[f] == init[k];
          assert init[k] == headers[k];
          assert IsLastMatch(headers, rule, f, k);
        }
        forall k | 0 <= k < |headers| && rule(headers[k]) == Some(f)
          ensures exists j :: 0 <= j < |init| && rule(init[j]) == Some(f)
        {
          assert k < n && init[k] == headers[k];
        }
      }
    }
  }

  /** Auto-mapping: a field is mapped exactly when some header matches it, to the last
      matching header; so every value is one of the headers, the one whose own rule
      gives back that field (no header serves two fields), and headers that match
      nothing add no entry. */
  lemma AutoMappingLastWins(headers: seq<string>, f: Field)
    ensures f in AutoMapping(headers) <==> exists k :: 0 <= k < |headers| && MatchRule(headers[k]) == Some(f)
    ensures f in AutoMapping(headers) ==> exists k :: IsLastMatch(headers, MatchRule, f, k) && AutoMapping(headers)[f] == headers[k]
    ensures f in AutoMapping(headers) ==> AutoMapping(headers)[f] in headers && MatchRule(AutoMapping(headers)[f]) == Some(f)
  {
    MapByLastWins(headers, MatchRule, f);
  }

  /** "Company Size" is taken for the company, not the company size: the company rule
      comes first. */
  lemma CompanySizeHeader(header: string)
    requires header == "Company Size"
    ensures MatchRule(header) == Some(Company)
  {
    LowerCompanySize(header);
    CompanySizeWords();
  }

  lemma LowerCompanySize(header: string)
    requires header == "Company Size"
    ensures ToLower(header) == "company size"
  {
    var r := ToLower(header);
    assert r[0] == 'c' && r[1] == 'o' && r[2] == 'm' && r[3] == 'p' && r[4] == 'a' && r[5] == 'n';
    assert r[6] == 'y' && r[7] == ' ' && r[8] == 's' && r[9] == 'i' && r[10] == 'z' && r[11] == 'e';
  }

  lemma CompanySizeWords()
    ensures Contains("company size", "company")
    ensures !Contains("company size", "email") && !Contains("company size", "e-mail")
    ensures !Contains("company size", "first") && !Contains("company size", "last")
  {
    HasCompany();
    NoEmail();
    NoFirstLast();
  }

  lemma HasCompany()
    ensures Contains("company size", "company")
  {
    var h := "company size";
    assert OccursAt(h, "company", 0);
    ContainsAt(h, "company");
  }

  lemma NoEmail()
    ensures !Contains("company size", "email") && !Contains("company size", "e-mail")
  {
    var h := "company size";
    assert h[0] != 'e' && h[1] != 'e' && h[2] != 'e' && h[3] != 'e' && h[4] != 'e'
      && h[5] != 'e' && h[6] != 'e' && h[7] != 'e';
    NotContains(h, "email");
    NotContains(h, "e-mail");
  }

  lemma NoFirstLast()
    ensures !Contains("company size", "first") && !Contains("company size", "last")
  {
    NoFirst();
    NoLast();
  }

  lemma NoFirst()
    ensures !Contains("company size", "first")
  {
    var h := "company size";
    assert h[0] != 'f' && h[1] != 'f' && h[2] != 'f' && h[3] != 'f' && h[4] != 'f'
      && h[5] != 'f' && h[6] != 'f' && h[7] != 'f';
    NotContains(h, "first");
  }

  lemma NoLast()
    ensures !Contains("company size", "last")
  {
    var h := "company size";
    assert h[0] != 'l' && h[1] != 'l' && h[2] != 'l' && h[3] != 'l' && h[4] != 'l'
      && h[5] != 'l' && h[6] != 'l' && h[7] != 'l' && h[8] != 'l';
    NotContains(h, "last");
  }

  /** The mapping after `handleMappingChange(field, selected)`: "ignore" and the empty
      choice remove the field, any other choice maps it. */
  function ChangeMapping(m: Mapping, f: Field, selected: string): (r: Mapping)
    ensures selected == "ignore" || selected == [] ==> f !in r
    ensures selected != "ignore" && selected != [] ==> f in r && r[f] == selected
    ensures forall g :: g != f ==> (g in r <==> g in m) && (g in m ==> r[g] == m[g])
  {
    if selected == "ignore" || selected == [] then m - {f} else m[f := selected]
  }

  /** Mapping a field and then resetting it leaves no entry for it, whatever was
      there before. */
  lemma ChangeThenIgnore(m: Mapping, f: Field, h: string)
    ensures ChangeMapping(ChangeMapping(m, f, h), f, "ignore") == m - {f}
  {
  }

  const EMAIL_ERROR := "Email Address field must be mapped"
  const FIRST_NAME_ERROR := "First Name field must be mapped"

  /** The errors `handleConfirm` collects, email's first. */
  function ConfirmErrors(m: Mapping): (errs: seq<string>)
    ensures errs == [] <==> IsMapped(m, Email) && IsMapped(m, FirstName)
    ensures EMAIL_ERROR in errs <==> !IsMapped(m, Email)
    ensures FIRST_NAME_ERROR in errs <==> !IsMapped(m, FirstName)
    ensures |errs| <= 2
    ensures |errs| == 2 ==> errs == [EMAIL_ERROR, FIRST_NAME_ERROR]
  {
    (if IsMapped(m, Email) then [] else [EMAIL_ERROR])
      + (if IsMapped(m, FirstName) then [] else [FIRST_NAME_ERROR])
  }

  /** `disabled={!mapping.email || !mapping.first_name}` on the Continue button. */
  predicate ContinueDisabled(m: Mapping)
  {
    !IsMapped(m, Email) || !IsMapped(m, FirstName)
  }

  /** The button is disabled exactly when confirming would be refused. */
  lemma ContinueDisabledIff(m: Mapping)
    ensures ContinueDisabled(m) <==> ConfirmErrors(m) != []
  {
  }

  /** The auto-mapping loop over the headers, one header at a time. */
  method AutoMap(headers: seq<string>) returns (m: Mapping)
    ensures m == AutoMapping(headers)
    ensures forall f :: f in m ==> m[f] in headers && MatchRule(m[f]) == Some(f)
  {
    m := map[];
    var i := 0;
    while i < |headers|
      invariant 0 <= i <= |headers|
      invariant m == AutoMapping(headers[..i])
    {
      assert headers[..i + 1][..i] == headers[..i];
      var r := MatchRule(headers[i]);
      if r.Some? {
        m := m[r.value := headers[i]];
      }
      i := i + 1;
    }
    assert headers[..i] == headers;
    forall f | f in m ensures m[f] in headers && MatchRule(m[f]) == Some(f) {
      AutoMappingLastWins(headers, f);
    }
  }

  /** The mapper's state: the current mapping and the errors shown. */
  class Mapper {
    var mapping: Mapping
    var errors: seq<string>
    /** The mappings handed on by `onConfirm`, oldest first. */
    var confirmed: seq<Mapping>

    constructor ()
      ensures mapping == map[] && errors == [] && confirmed == []
    {
      mapping, errors, confirmed := map[], [], [];
    }

    /** The effect run when the headers change: nothing for an empty list, otherwise
      the auto-mapping replaces the mapping. */
    method OnHeadersChanged(headers: seq<string>)
      modifies this
      ensures headers == [] ==> mapping == old(mapping)
      ensures headers != [] ==> mapping == AutoMapping(headers)
      ensures errors == old(errors) && confirmed == old(confirmed)
    {
      if |headers| == 0 {
        return;
      }
      mapping := AutoMap(headers);
    }

    method HandleMappingChange(f: Field, selected: string)
      modifies this
      ensures mapping == ChangeMapping(old(mapping), f, selected)
      ensures errors == [] && confirmed == old(confirmed)
    {
      var updated := mapping;
      if selected == "ignore" || selected == [] {
        updated := updated - {f};
      } else {
        updated := updated[f := selected];
      }
      mapping := updated;
      errors := [];
    }

    /** Hands the mapping on exactly when both required fields are mapped; otherwise
      shows one error per missing field. */
    method HandleConfirm()
      modifies this
      ensures mapping == old(mapping)
      ensures ConfirmErrors(mapping) == [] ==> confirmed == old(confirmed) + [mapping] && errors == old(errors)
      ensures ConfirmErrors(mapping) != [] ==> confirmed == old(confirmed) && errors == ConfirmErrors(mapping)
    {
      var newErrors: seq<string> := [];
      if !IsMapped(mapping, Email) {
        newErrors := newErrors + [EMAIL_ERROR];
      }
      if !IsMapped(mapping, FirstName) {
        newErrors := newErrors + [FIRST_NAME_ERROR];
      }
      if |newErrors| > 0 {
        errors := newErrors;
        return;
      }
      confirmed := confirmed + [mapping];
    }
  }
}
