/** The records the remote entity store keeps: leads and campaigns, and the partial
    updates the pages send for a lead. */
module Leads {
  import opened Wrappers
  import opened Text
  import opened Seqs

  /** A lead's stage in the outreach lifecycle. */
  datatype Status = New | EmailGenerated | Approved | Sent | Responded

  /** The string the store keeps for a status. */
  function StatusName(s: Status): (r: string)
    ensures r != []
  {
    match s
    case New => "new"
    case EmailGenerated => "email_generated"
    case Approved => "approved"
    case Sent => "sent"
    case Responded => "responded"
  }

  /** Two statuses are stored under the same name only when they are the same. */
  lemma StatusNameInjective(s: Status, t: Status)
    ensures StatusName(s) == StatusName(t) <==> s == t
  {
    if s != t {
      assert |StatusName(s)| != |StatusName(t)|;
    }
  }

  /** Whether an email has been generated for a lead under a stage: every stage from
      `email_generated` to `sent` (a `responded` lead is counted apart). */
  predicate IsGenerated(s: Status)
  {
    s == EmailGenerated || s == Approved || s == Sent
  }

  /** The number of leads at a stage (`leads.filter(l => l.status === s).length`). */
  function CountStatus(leads: seq<Lead>, s: Status): (n: nat)
    ensures n <= |leads|
  {
    |Filter(leads, (l: Lead) => l.status == s)|
  }

  /** The number of leads with a generated email. */
  function CountGenerated(leads: seq<Lead>): (n: nat)
    ensures n <= |leads|
  {
    |Filter(leads, (l: Lead) => IsGenerated(l.status))|
  }

  /** A lead as the import builds it, before the store gives it an id. */
  datatype Candidate = Candidate(
    email: string,
    first_name: string,
    last_name: string,
    company: string,
    title: string,
    industry: string,
    company_size: string,
    notes: string,
    status: Status)

  /** A stored lead. A field the store does not hold is the empty string, which the
      pages treat like a missing one; a lead with no campaign has `campaign_id == None`. */
  datatype Lead = Lead(
    id: nat,
    created_date: string,
    email: string,
    first_name: string,
    last_name: string,
    company: string,
    title: string,
    industry: string,
    company_size: string,
    notes: string,
    status: Status,
    generated_email: string,
    email_subject: string,
    campaign_id: Option<nat>)

  /** `!lead.generated_email` is false: the lead has a non-empty generated email. */
  predicate HasGeneratedEmail(l: Lead)
  {
    l.generated_email != []
  }

  /** The record the store creates for a candidate, with its new id and creation date. */
  function Create(c: Candidate, id: nat, now: string): (l: Lead)
    ensures l.id == id && l.created_date == now && l.status == c.status
    ensures l.email == c.email && l.first_name == c.first_name && l.last_name == c.last_name
    ensures l.company == c.company && l.title == c.title && l.industry == c.industry
    ensures l.company_size == c.company_size && l.notes == c.notes
    ensures !HasGeneratedEmail(l) && l.email_subject == [] && l.campaign_id == None
  {
    Lead(id, now, c.email, c.first_name, c.last_name, c.company, c.title, c.industry,
      c.company_size, c.notes, c.status, [], [], None)
  }

  /** The fields one `Lead.update(id, {...})` call sends; `None` leaves a field as it is. */
  datatype LeadPatch = LeadPatch(
    generated_email: Option<string>,
    email_subject: Option<string>,
    status: Option<Status>,
    campaign_id: Option<nat>)

  function Or<T>(o: Option<T>, d: T): T
  {
    if o.Some? then o.value else d
  }

  /** A partial update: the patched fields take their new values, every other field
      keeps its old one. */
  function ApplyPatch(l: Lead, p: LeadPatch): (r: Lead)
    ensures r.id == l.id && r.created_date == l.created_date
    ensures r.email == l.email && r.first_name == l.first_name && r.last_name == l.last_name
    ensures r.company == l.company && r.title == l.title && r.industry == l.industry
    ensures r.company_size == l.company_size && r.notes == l.notes
    ensures r.status == (if p.status.Some? then p.status.value else l.status)
    ensures r.generated_email == (if p.generated_email.Some? then p.generated_email.value else l.generated_email)
    ensures r.email_subject == (if p.email_subject.Some? then p.email_subject.value else l.email_subject)
    ensures r.campaign_id == (if p.campaign_id.Some? then p.campaign_id else l.campaign_id)
  {
    l.(status := Or(p.status, l.status),
       generated_email := Or(p.generated_email, l.generated_email),
       email_subject := Or(p.email_subject, l.email_subject),
       campaign_id := if p.campaign_id.Some? then p.campaign_id else l.campaign_id)
  }

  /** Sending the same update twice is the same as sending it once. */
  lemma ApplyPatchIdempotent(l: Lead, p: LeadPatch)
    ensures ApplyPatch(ApplyPatch(l, p), p) == ApplyPatch(l, p)
  {
  }

  /** An update that sends nothing changes nothing. */
  lemma ApplyEmptyPatch(l: Lead)
    ensures ApplyPatch(l, LeadPatch(None, None, None, None)) == l
  {
  }

  /** A campaign. `emails_sent` may be missing from the stored record. */
  datatype Campaign = Campaign(
    id: nat,
    name: string,
    description: string,
    email_template: string,
    status: string,
    total_leads: nat,
    emails_sent: Option<nat>,
    responses_received: nat)

  /** `campaign.emails_sent || 0`. */
  function EmailsSent(c: Campaign): (n: nat)
    ensures c.emails_sent.None? ==> n == 0
    ensures c.emails_sent.Some? ==> n == c.emails_sent.value
  {
    if c.emails_sent.Some? then c.emails_sent.value else 0
  }

  /** The ids of a list of leads, in order. */
  function Ids(ls: seq<Lead>): (r: seq<nat>)
    ensures |r| == |ls|
    ensures forall k :: 0 <= k < |ls| ==> r[k] == ls[k].id
  {
    if ls == [] then [] else [ls[0].id] + Ids(ls[1..])
  }

  /** No two leads of the list share an id. */
  predicate DistinctIds(ls: seq<Lead>)
  {
    forall i, j :: 0 <= i < j < |ls| ==> ls[i].id != ls[j].id
  }

  /** The list with the update applied to the leads with the given id. */
  function PatchWhere(ls: seq<Lead>, id: nat, p: LeadPatch): (r: seq<Lead>)
    ensures |r| == |ls|
    ensures forall k :: 0 <= k < |ls| ==> r[k] == if ls[k].id == id then ApplyPatch(ls[k], p) else ls[k]
  {
    seq(|ls|, k requires 0 <= k < |ls| => if ls[k].id == id then ApplyPatch(ls[k], p) else ls[k])
  }

  /** An update keeps the ids, so distinct ids stay distinct. */
  lemma PatchWhereIds(ls: seq<Lead>, id: nat, p: LeadPatch)
    ensures Ids(PatchWhere(ls, id, p)) == Ids(ls)
    ensures DistinctIds(ls) ==> DistinctIds(PatchWhere(ls, id, p))
  {
  }

  /** The list without the leads with the given id (`leads.filter(l => l.id !== id)`). */
  function RemoveId(ls: seq<Lead>, id: nat): (r: seq<Lead>)
    ensures |r| <= |ls|
    ensures forall l :: l in r <==> l in ls && l.id != id
  {
    if ls == [] then []
    else if ls[0].id == id then RemoveId(ls[1..], id)
    else [ls[0]] + RemoveId(ls[1..], id)
  }

  /** Removal keeps the other leads in their order: removing from a concatenation
      removes from each part. */
  lemma {:induction false} RemoveIdConcat(a: seq<Lead>, b: seq<Lead>, id: nat)
    ensures RemoveId(a + b, id) == RemoveId(a, id) + RemoveId(b, id)
  {
    if a == [] {
      assert a + b == b;
    } else {
      assert (a + b)[1..] == a[1..] + b;
      RemoveIdConcat(a[1..], b, id);
    }
  }

  /** A list without the id is left as it is, so removing twice is removing once. */
  lemma {:induction false} RemoveIdAbsent(ls: seq<Lead>, id: nat)
    requires forall l :: l in ls ==> l.id != id
    ensures RemoveId(ls, id) == ls
  {
    if ls != [] {
      assert ls[0] in ls;
      RemoveIdAbsent(ls[1..], id);
    }
  }

  /** Every lead of the list but the one removed is still there, in the same order: the
      result is the list minus exactly one element when the id occurs once. */
  lemma {:induction false} RemoveIdOnce(ls: seq<Lead>, k: nat)
    requires k < |ls| && DistinctIds(ls)
    ensures RemoveId(ls, ls[k].id) == ls[..k] + ls[k + 1..]
  {
    var id := ls[k].id;
    assert ls == ls[..k] + ([ls[k]] + ls[k + 1..]);
    RemoveIdConcat(ls[..k], [ls[k]] + ls[k + 1..], id);
    RemoveIdConcat([ls[k]], ls[k + 1..], id);
    RemoveIdAbsent(ls[..k], id);
    RemoveIdAbsent(ls[k + 1..], id);
    assert RemoveId([ls[k]], id) == [];
  }
}
