/** The preview shown before the import: which candidates count as valid, the counts
    derived from them and the ten-item window. */
module LeadPreview {
  import opened Wrappers
  import opened Seqs
  import opened Leads
  import Validation
  import Csv
  import ColumnMapper

  /** `lead.first_name && lead.email` */
  predicate IsValid(c: Candidate)
  {
    c.first_name != [] && c.email != []
  }

  function ValidLeads(leads: seq<Candidate>): (r: seq<Candidate>)
    ensures |r| <= |leads|
    ensures forall c :: c in r <==> c in leads && IsValid(c)
  {
    Filter(leads, IsValid)
  }

  /** `leads.length - validLeads.length` */
  function InvalidCount(leads: seq<Candidate>): (n: int)
  {
    |leads| - |ValidLeads(leads)|
  }

  /** The valid and invalid leads together are all the leads: the invalid count is the
      number of leads failing the check, never negative. */
  lemma InvalidCountSpec(leads: seq<Candidate>)
    ensures InvalidCount(leads) == |Filter(leads, (c: Candidate) => !IsValid(c))|
    ensures 0 <= InvalidCount(leads) <= |leads|
  {
    FilterPartition(leads, IsValid, (c: Candidate) => !IsValid(c));
  }

  /** Valid leads keep the input order: the valid leads of a concatenation are those
      of each part. */
  lemma ValidLeadsConcat(a: seq<Candidate>, b: seq<Candidate>)
    ensures ValidLeads(a + b) == ValidLeads(a) + ValidLeads(b)
  {
    FilterConcat(a, b, IsValid);
  }

  /** `validLeads.slice(0, 10)`: the listed leads. */
  function Window(leads: seq<Candidate>): (r: seq<Candidate>)
    ensures |r| <= 10
    ensures |r| == if |ValidLeads(leads)| < 10 then |ValidLeads(leads)| else 10
    ensures r == ValidLeads(leads)[..|r|]
  {
    Take(ValidLeads(leads), 10)
  }

  /** The "... and N more leads" line: present only for more than ten valid leads, and
      then N is what the window leaves out. */
  function MoreLine(leads: seq<Candidate>): (more: Option<nat>)
    ensures more.Some? <==> |ValidLeads(leads)| > 10
    ensures more.Some? ==> more.value + |Window(leads)| == |ValidLeads(leads)|
  {
    var n := |ValidLeads(leads)|;
    if n > 10 then Some(n - 10) else None
  }

  /** `validLeads.filter(l => l.company).length` */
  function WithCompany(leads: seq<Candidate>): (n: nat)
    ensures n <= |ValidLeads(leads)|
  {
    |Filter(ValidLeads(leads), (c: Candidate) => c.company != [])|
  }

  /** `validLeads.filter(l => l.title).length` */
  function WithTitle(leads: seq<Candidate>): (n: nat)
    ensures n <= |ValidLeads(leads)|
  {
    |Filter(ValidLeads(leads), (c: Candidate) => c.title != [])|
  }

  /** `disabled={validLeads.length === 0}` on the import button. */
  predicate ImportDisabled(leads: seq<Candidate>)
  {
    |ValidLeads(leads)| == 0
  }

  /** The import button is disabled exactly when no lead passes the check. */
  lemma ImportDisabledIff(leads: seq<Candidate>)
    ensures ImportDisabled(leads) <==> forall c :: c in leads ==> !IsValid(c)
  {
    if !ImportDisabled(leads) {
      assert ValidLeads(leads)[0] in ValidLeads(leads);
    }
  }

  /** The candidates the validation step produces all pass the preview's check, so the
      preview reports no invalid leads for them and lists all of them (up to ten). */
  lemma CleanedLeadsAllValid(rows: seq<Csv.Row>, m: ColumnMapper.Mapping)
    ensures ValidLeads(Validation.CleanRows(rows, m)) == Validation.CleanRows(rows, m)
    ensures InvalidCount(Validation.CleanRows(rows, m)) == 0
  {
    var leads := Validation.CleanRows(rows, m);
    Validation.CleanRowsWellFormed(rows, m);
    forall c | c in leads ensures IsValid(c) {
      assert Validation.WellFormed(c);
      if c.email == [] {
        assert !Validation.HasEmailShape(c.email);
      }
    }
    FilterAll(leads, IsValid);
  }
}
