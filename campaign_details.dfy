/** The campaign page: which leads it shows for a campaign, its counters, and the lead
    lifecycle it drives — generating an email for every lead without one, approving or
    editing a generated email, and sending the approved ones. The store is the
    in-memory `LeadStore`; the language model and every store call that may fail are
    parameters giving their answers. */
module CampaignDetails {
  import opened Wrappers
  import opened Seqs
  import opened Text
  import opened Leads
  import opened Store

  const NO_CAMPAIGN_ID := "No campaign ID provided"
  const NOT_FOUND := "Campaign not found"
  const LOAD_FAILED := "Failed to load campaign data"
  const GENERATE_FAILED := "Failed to generate emails. Please try again."
  const NO_APPROVED := "No approved emails to send. Please approve emails first."
  const SEND_FAILED := "Failed to send emails. Please try again."

  /** `Lead.list("-created_date", 1000)` */
  const LEAD_LIMIT: nat := 1000

  /** `Successfully sent ${n} emails!` */
  function SentMessage(n: nat): string
  {
    "Successfully sent " + NatToString(n) + " emails!"
  }

  // ---------------------------------------------------------------------------
  // The leads shown for a campaign, and their counters

  /** `lead.campaign_id === campaignId || lead.status === 'new'` */
  predicate InCampaign(l: Lead, cid: nat)
  {
    l.campaign_id == Some(cid) || l.status == New
  }

  /** The leads the page shows for campaign `cid`, in list order. */
  function CampaignLeads(all: seq<Lead>, cid: nat): (r: seq<Lead>)
    ensures |r| <= |all|
    ensures forall l :: l in r <==> l in all && (l.campaign_id == Some(cid) || l.status == New)
  {
    Filter(all, (l: Lead) => InCampaign(l, cid))
  }

  /** The campaign's leads keep the list order: those of a concatenation are those of
      each part. */
  lemma CampaignLeadsConcat(a: seq<Lead>, b: seq<Lead>, cid: nat)
    ensures CampaignLeads(a + b, cid) == CampaignLeads(a, cid) + CampaignLeads(b, cid)
  {
    FilterConcat(a, b, (l: Lead) => InCampaign(l, cid));
  }

  /** The page's `stats`. */
  datatype CampaignStats = CampaignStats(totalLeads: nat, generated: nat, approved: nat, sent: nat)

  function GetCampaignStats(leads: seq<Lead>): CampaignStats
  {
    CampaignStats(|leads|, CountGenerated(leads), CountStatus(leads, Approved), CountStatus(leads, Sent))
  }

  /** The counters are ordered: approved and sent leads are both among the generated
      ones, and never the same lead, and the generated ones are among all leads. */
  lemma CampaignStatsOrdered(leads: seq<Lead>)
    ensures var st := GetCampaignStats(leads);
      && st.totalLeads == |leads|
      && st.approved <= st.generated
      && st.sent <= st.generated <= st.totalLeads
      && st.approved + st.sent <= st.generated
  {
    var isApproved := (l: Lead) => l.status == Approved;
    var isSent := (l: Lead) => l.status == Sent;
    var isGen := (l: Lead) => IsGenerated(l.status);
    var either := (l: Lead) => l.status == Approved || l.status == Sent;
    FilterMonotone(leads, isApproved, isGen);
    FilterMonotone(leads, isSent, isGen);
    FilterDisjoint(leads, isApproved, isSent, either);
    FilterMonotone(leads, either, isGen);
  }

  // ---------------------------------------------------------------------------
  // Loading

  /** `campaignData.find(c => c.id === campaignId)`; no campaign matches a missing id. */
  function FindById(cs: seq<Campaign>, cid: Option<nat>): (r: Option<Campaign>)
    ensures cid.None? ==> r.None?
    ensures r.Some? ==> r.value in cs && cid == Some(r.value.id)
  {
    if cid.None? then None else FindCampaign(cs, cid.value)
  }

  /** What the page shows: the spinner while loading, the error panel when there is an
      error or no campaign, and the campaign otherwise. */
  datatype Screen = Spinner | ErrorPanel(message: string) | Details

  function ScreenOf(isLoading: bool, error: Option<string>, campaign: Option<Campaign>): (s: Screen)
    ensures s.Spinner? <==> isLoading
    ensures s.Details? <==> !isLoading && error.None? && campaign.Some?
    ensures !isLoading && error.None? && campaign.None? ==> s == ErrorPanel(NOT_FOUND)
  {
    if isLoading then Spinner
    else if error.Some? then ErrorPanel(error.value)
    else if campaign.None? then ErrorPanel(NOT_FOUND)
    else Details
  }

  /** The part of the page's state that loading sets. */
  datatype PageData = PageData(campaign: Option<Campaign>, leads: seq<Lead>, error: Option<string>)

  /** What `loadCampaignData` leaves in the page's data: `campaignsOk` and `leadsOk`
      are whether `Campaign.list()` and `Lead.list(...)` answer. An error keeps the data
      loaded before; the error of an earlier call is not cleared. */
  function LoadOutcome(before: PageData, cs: seq<Campaign>, ls: seq<Lead>, cid: Option<nat>,
                       campaignsOk: bool, leadsOk: bool): (after: PageData)
    ensures !campaignsOk ==> after == before.(error := Some(LOAD_FAILED))
    ensures campaignsOk && FindById(cs, cid).None? ==> after == before.(error := Some(NOT_FOUND))
    ensures campaignsOk && FindById(cs, cid).Some? ==>
      && after.campaign.Some? && after.campaign.value in cs && cid == Some(after.campaign.value.id)
      && (leadsOk ==> after.error == before.error
                      && after.leads == CampaignLeads(Take(ls, LEAD_LIMIT), cid.value))
      && (!leadsOk ==> after.error == Some(LOAD_FAILED) && after.leads == before.leads)
  {
    if !campaignsOk then before.(error := Some(LOAD_FAILED))
    else
      var current := FindById(cs, cid);
      if current.None? then before.(error := Some(NOT_FOUND))
      else if !leadsOk then before.(campaign := current, error := Some(LOAD_FAILED))
      else before.(campaign := current, leads := CampaignLeads(Take(ls, LEAD_LIMIT), cid.value))
  }

  /** Once loaded, the page shows the campaign exactly when no error was pending, both
      lists answered and the campaign exists; and an unknown campaign gets the panel
      saying so unless another error was pending. */
  lemma LoadedScreen(before: PageData, cs: seq<Campaign>, ls: seq<Lead>, cid: Option<nat>,
                     campaignsOk: bool, leadsOk: bool)
    ensures var after := LoadOutcome(before, cs, ls, cid, campaignsOk, leadsOk);
      ScreenOf(false, after.error, after.campaign).Details?
      <==> before.error.None? && campaignsOk && leadsOk && FindById(cs, cid).Some?
    ensures var after := LoadOutcome(before, cs, ls, cid, campaignsOk, leadsOk);
      campaignsOk && FindById(cs, cid).None? ==> ScreenOf(false, after.error, after.campaign) == ErrorPanel(NOT_FOUND)
  {
  }

  // ---------------------------------------------------------------------------
  // Generation

  /** The subject and body the language model returns for a lead. */
  datatype Email = Email(subject: string, body: string)

  /** The update a generated email sends for a lead. */
  function GenerationPatch(e: Email, cid: nat): LeadPatch
  {
    LeadPatch(Some(e.body), Some(e.subject), Some(EmailGenerated), Some(cid))
  }

  /** `leads.filter(lead => !lead.generated_email)`: the leads still without an email. */
  function ToGenerate(leads: seq<Lead>): (r: seq<Lead>)
    ensures |r| <= |leads|
    ensures forall l :: l in r <==> l in leads && !HasGeneratedEmail(l)
  {
    Filter(leads, (l: Lead) => !HasGeneratedEmail(l))
  }

  /** Whether the email for `todo[i]` is stored: the model answers (`llm(i)`), the
      update is accepted (`updOk(i)`) and the store holds the lead. */
  predicate Stored(ls: seq<Lead>, todo: seq<Lead>, i: nat, llm: nat -> Option<Email>, updOk: nat -> bool)
    requires i < |todo|
  {
    llm(i).Some? && updOk(i) && HasId(ls, todo[i].id)
  }

  /** A stored lead after the first `k` leads of `todo` were processed. */
  function GenerateOne(l: Lead, todo: seq<Lead>, k: nat, cid: nat, llm: nat -> Option<Email>, updOk: nat -> bool): (r: Lead)
    requires k <= |todo|
    ensures r.id == l.id
  {
    if k == 0 then l
    else
      var prev := GenerateOne(l, todo, k - 1, cid, llm, updOk);
      if todo[k - 1].id == l.id && llm(k - 1).Some? && updOk(k - 1)
      then ApplyPatch(prev, GenerationPatch(llm(k - 1).value, cid))
      else prev
  }

  /** The store's leads after the first `k` leads of `todo` were processed. */
  function Generated(ls: seq<Lead>, todo: seq<Lead>, k: nat, cid: nat, llm: nat -> Option<Email>, updOk: nat -> bool): (r: seq<Lead>)
    requires k <= |todo|
    ensures |r| == |ls|
    ensures forall m :: 0 <= m < |ls| ==> r[m] == GenerateOne(ls[m], todo, k, cid, llm, updOk)
  {
    seq(|ls|, m requires 0 <= m < |ls| => GenerateOne(ls[m], todo, k, cid, llm, updOk))
  }

  /** An update for an id the store does not hold changes nothing. */
  lemma PatchAbsent(ls: seq<Lead>, id: nat, p: LeadPatch)
    requires !HasId(ls, id)
    ensures PatchWhere(ls, id, p) == ls
  {
  }

  /** Processing one more lead of `todo` patches the stored lead with its id exactly
      when the model answered and the update was accepted. */
  lemma GeneratedStep(ls: seq<Lead>, todo: seq<Lead>, k: nat, cid: nat, llm: nat -> Option<Email>, updOk: nat -> bool)
    requires k < |todo|
    ensures Generated(ls, todo, k + 1, cid, llm, updOk)
      == if llm(k).Some? && updOk(k)
         then PatchWhere(Generated(ls, todo, k, cid, llm, updOk), todo[k].id, GenerationPatch(llm(k).value, cid))
         else Generated(ls, todo, k, cid, llm, updOk)
  {
    var next := Generated(ls, todo, k + 1, cid, llm, updOk);
    var prev := Generated(ls, todo, k, cid, llm, updOk);
    if llm(k).Some? && updOk(k) {
      var patched := PatchWhere(prev, todo[k].id, GenerationPatch(llm(k).value, cid));
      assert |next| == |patched|;
      forall m | 0 <= m < |ls| ensures next[m] == patched[m] {
      }
    } else {
      assert |next| == |prev|;
      forall m | 0 <= m < |ls| ensures next[m] == prev[m] {
      }
    }
  }

  /** A stored lead whose id is not among the processed leads is left as it is. */
  lemma {:induction false} GenerateOneUntouched(l: Lead, todo: seq<Lead>, k: nat, cid: nat, llm: nat -> Option<Email>, updOk: nat -> bool)
    requires k <= |todo|
    requires forall j :: 0 <= j < k ==> todo[j].id != l.id
    ensures GenerateOne(l, todo, k, cid, llm, updOk) == l
  {
    if k > 0 {
      GenerateOneUntouched(l, todo, k - 1, cid, llm, updOk);
    }
  }

  /** A stored lead whose id is that of the `j`-th processed lead, and of no other,
      takes that lead's generated email when it was produced and accepted, and is
      otherwise left as it is. */
  lemma {:induction false} GenerateOneOnce(l: Lead, todo: seq<Lead>, k: nat, j: nat, cid: nat, llm: nat -> Option<Email>, updOk: nat -> bool)
    requires j < k <= |todo|
    requires todo[j].id == l.id
    requires forall i :: 0 <= i < k && i != j ==> todo[i].id != l.id
    ensures GenerateOne(l, todo, k, cid, llm, updOk)
      == if llm(j).Some? && updOk(j) then ApplyPatch(l, GenerationPatch(llm(j).value, cid)) else l
  {
    if k - 1 == j {
      GenerateOneUntouched(l, todo, j, cid, llm, updOk);
    } else {
      GenerateOneOnce(l, todo, k - 1, j, cid, llm, updOk);
    }
  }

  /** Filtering keeps ids distinct. */
  lemma {:induction false} FilterDistinct(leads: seq<Lead>, p: Lead -> bool)
    requires DistinctIds(leads)
    ensures DistinctIds(Filter(leads, p))
  {
    if leads != [] {
      assert DistinctIds(leads[1..]) by {
        forall i, j | 0 <= i < j < |leads[1..]| ensures leads[1..][i].id != leads[1..][j].id {
          assert leads[1..][i] == leads[i + 1] && leads[1..][j] == leads[j + 1];
        }
      }
      FilterDistinct(leads[1..], p);
      var rest := Filter(leads[1..], p);
      if p(leads[0]) {
        var r := [leads[0]] + rest;
        forall i, j | 0 <= i < j < |r| ensures r[i].id != r[j].id {
          if i == 0 {
            assert r[j] in rest;
            var m :| 0 <= m < |leads[1..]| && leads[1..][m] == r[j];
            assert leads[m + 1] == r[j];
          } else {
            assert r[i] == rest[i - 1] && r[j] == rest[j - 1];
          }
        }
      }
    }
  }

  /** Two leads of a list with distinct ids that share an id are the same lead. */
  lemma SameIdSameLead(leads: seq<Lead>, a: Lead, b: Lead)
    requires DistinctIds(leads) && a in leads && b in leads && a.id == b.id
    ensures a == b
  {
    var i :| 0 <= i < |leads| && leads[i] == a;
    var j :| 0 <= j < |leads| && leads[j] == b;
  }

  /** Generation over the page's leads (ids distinct) gives every stored lead with the
      id of the `j`-th lead without an email that lead's generated email, when the model
      answered and the update was accepted. */
  lemma GenerationStoresEmail(ls: seq<Lead>, leads: seq<Lead>, m: nat, j: nat, cid: nat, llm: nat -> Option<Email>, updOk: nat -> bool)
    requires DistinctIds(leads) && m < |ls|
    requires j < |ToGenerate(leads)| && ToGenerate(leads)[j].id == ls[m].id
    ensures var todo := ToGenerate(leads);
      Generated(ls, todo, |todo|, cid, llm, updOk)[m]
      == if llm(j).Some? && updOk(j) then ApplyPatch(ls[m], GenerationPatch(llm(j).value, cid)) else ls[m]
  {
    var todo := ToGenerate(leads);
    FilterDistinct(leads, (l: Lead) => !HasGeneratedEmail(l));
    forall i | 0 <= i < |todo| && i != j ensures todo[i].id != ls[m].id {
      if i < j {
        assert todo[i].id != todo[j].id;
      } else {
        assert todo[j].id != todo[i].id;
      }
    }
    GenerateOneOnce(ls[m], todo, |todo|, j, cid, llm, updOk);
  }

  /** A stored lead that is one of the page's leads (ids distinct) and already has an
      email is never updated by generation. */
  lemma GenerationSkipsGenerated(ls: seq<Lead>, leads: seq<Lead>, m: nat, cid: nat, llm: nat -> Option<Email>, updOk: nat -> bool)
    requires DistinctIds(leads) && m < |ls|
    requires exists l :: l in leads && l.id == ls[m].id && HasGeneratedEmail(l)
    ensures var todo := ToGenerate(leads);
      Generated(ls, todo, |todo|, cid, llm, updOk)[m] == ls[m]
  {
    var todo := ToGenerate(leads);
    var l :| l in leads && l.id == ls[m].id && HasGeneratedEmail(l);
    forall j | 0 <= j < |todo| ensures todo[j].id != ls[m].id {
      assert todo[j] in todo;
      if todo[j].id == ls[m].id {
        SameIdSameLead(leads, todo[j], l);
      }
    }
    GenerateOneUntouched(ls[m], todo, |todo|, cid, llm, updOk);
  }

  /** A stored lead with the id of no lead still without an email is never updated. */
  lemma GenerationLeavesOthers(ls: seq<Lead>, leads: seq<Lead>, m: nat, cid: nat, llm: nat -> Option<Email>, updOk: nat -> bool)
    requires m < |ls|
    requires forall l :: l in ToGenerate(leads) ==> l.id != ls[m].id
    ensures var todo := ToGenerate(leads);
      Generated(ls, todo, |todo|, cid, llm, updOk)[m] == ls[m]
  {
    var todo := ToGenerate(leads);
    forall j | 0 <= j < |todo| ensures todo[j].id != ls[m].id {
      assert todo[j] in todo;
    }
    GenerateOneUntouched(ls[m], todo, |todo|, cid, llm, updOk);
  }

  /** The progress bar after the first `k` leads of `todo`: it is set only when a lead's
      email is stored, to the share of the list processed by then. */
  function ProgressAfter(ls: seq<Lead>, todo: seq<Lead>, k: nat, llm: nat -> Option<Email>, updOk: nat -> bool): (p: real)
    requires k <= |todo|
    ensures 0.0 <= p <= 100.0
    ensures k > 0 && Stored(ls, todo, k - 1, llm, updOk) ==> p == (k as real / |todo| as real) * 100.0
    ensures k > 0 && !Stored(ls, todo, k - 1, llm, updOk) ==> p == ProgressAfter(ls, todo, k - 1, llm, updOk)
  {
    if k == 0 then 0.0
    else if Stored(ls, todo, k - 1, llm, updOk) then (k as real / |todo| as real) * 100.0
    else ProgressAfter(ls, todo, k - 1, llm, updOk)
  }

  /** The bar ends full when, and only when, the last lead's email is stored: a failure
      on the last lead leaves it where the last stored one put it. */
  lemma ProgressFull(ls: seq<Lead>, todo: seq<Lead>, llm: nat -> Option<Email>, updOk: nat -> bool)
    requires todo != []
    ensures ProgressAfter(ls, todo, |todo|, llm, updOk) == 100.0 <==> Stored(ls, todo, |todo| - 1, llm, updOk)
  {
    if !Stored(ls, todo, |todo| - 1, llm, updOk) {
      ProgressBelow(ls, todo, |todo| - 1, llm, updOk);
    }
  }

  /** Before the last lead the bar is below full. */
  lemma {:induction false} ProgressBelow(ls: seq<Lead>, todo: seq<Lead>, k: nat, llm: nat -> Option<Email>, updOk: nat -> bool)
    requires k < |todo|
    ensures ProgressAfter(ls, todo, k, llm, updOk) < 100.0
  {
    if k > 0 {
      if Stored(ls, todo, k - 1, llm, updOk) {
        assert k as real / |todo| as real < 1.0;
      } else {
        ProgressBelow(ls, todo, k - 1, llm, updOk);
      }
    }
  }

  // ---------------------------------------------------------------------------
  // Approving, editing and sending

  const APPROVE_PATCH := LeadPatch(None, None, Some(Approved), None)

  /** The update `handleEditEmail` sends. */
  function EditPatch(content: string, subject: string): LeadPatch
  {
    LeadPatch(Some(content), Some(subject), Some(Approved), None)
  }

  const SENT_PATCH := LeadPatch(None, None, Some(Sent), None)

  /** `leads.filter(lead => lead.status === 'approved')` */
  function ApprovedLeads(leads: seq<Lead>): (r: seq<Lead>)
    ensures |r| <= |leads|
    ensures forall l :: l in r <==> l in leads && l.status == Approved
  {
    Filter(leads, (l: Lead) => l.status == Approved)
  }

  /** Whether one of the first `k` approved leads has the id. */
  predicate SentBefore(approved: seq<Lead>, k: nat, id: nat)
    requires k <= |approved|
  {
    exists j :: 0 <= j < k && approved[j].id == id
  }

  /** A stored lead after the first `k` approved leads were sent. */
  function MarkSent(l: Lead, approved: seq<Lead>, k: nat): (r: Lead)
    requires k <= |approved|
    ensures r == if SentBefore(approved, k, l.id) then l.(status := Sent) else l
  {
    if SentBefore(approved, k, l.id) then ApplyPatch(l, SENT_PATCH) else l
  }

  /** The store's leads after the first `k` approved leads were sent. */
  function SentUpTo(ls: seq<Lead>, approved: seq<Lead>, k: nat): (r: seq<Lead>)
    requires k <= |approved|
    ensures |r| == |ls|
    ensures forall m :: 0 <= m < |ls| ==> r[m] == MarkSent(ls[m], approved, k)
  {
    seq(|ls|, m requires 0 <= m < |ls| => MarkSent(ls[m], approved, k))
  }

  /** Sending one more approved lead patches the stored leads with its id. */
  lemma SentStep(ls: seq<Lead>, approved: seq<Lead>, k: nat)
    requires k < |approved|
    ensures SentUpTo(ls, approved, k + 1) == PatchWhere(SentUpTo(ls, approved, k), approved[k].id, SENT_PATCH)
  {
    var next := SentUpTo(ls, approved, k + 1);
    var patched := PatchWhere(SentUpTo(ls, approved, k), approved[k].id, SENT_PATCH);
    forall m | 0 <= m < |ls| ensures next[m] == patched[m] {
      if ls[m].id == approved[k].id {
        assert SentBefore(approved, k + 1, ls[m].id);
      } else if SentBefore(approved, k + 1, ls[m].id) {
        var j :| 0 <= j < k + 1 && approved[j].id == ls[m].id;
        assert SentBefore(approved, k, ls[m].id);
      }
    }
  }

  /** Whether the update for `approved[j]` succeeds. */
  predicate SendAccepted(ls: seq<Lead>, approved: seq<Lead>, updOk: nat -> bool, j: nat)
  {
    j < |approved| && updOk(j) && HasId(ls, approved[j].id)
  }

  /** The number of approved leads sent before the first refused update. */
  function SendStop(ls: seq<Lead>, approved: seq<Lead>, updOk: nat -> bool): nat
  {
    FirstFailure(|approved|, (j: nat) => SendAccepted(ls, approved, updOk, j))
  }

  /** Every update before the stop is accepted, and the one at the stop, if any, is
      refused. */
  lemma SendStopSpec(ls: seq<Lead>, approved: seq<Lead>, updOk: nat -> bool)
    ensures SendStop(ls, approved, updOk) <= |approved|
    ensures forall j :: 0 <= j < SendStop(ls, approved, updOk) ==> SendAccepted(ls, approved, updOk, j)
    ensures SendStop(ls, approved, updOk) < |approved| ==>
      !SendAccepted(ls, approved, updOk, SendStop(ls, approved, updOk))
  {
    var accept := (j: nat) => SendAccepted(ls, approved, updOk, j);
    var k := FirstFailure(|approved|, accept);
    forall j | 0 <= j < k ensures SendAccepted(ls, approved, updOk, j) {
      assert accept(j);
    }
  }

  /** Whether every approved lead of the page's list is sent. */
  predicate AllSent(ls: seq<Lead>, leads: seq<Lead>, updOk: nat -> bool)
  {
    SendStop(ls, ApprovedLeads(leads), updOk) == |ApprovedLeads(leads)|
  }

  /** Each lead moved from approved to sent. */
  function MarkApproved(leads: seq<Lead>): (r: seq<Lead>)
    ensures |r| == |leads|
    ensures forall m :: 0 <= m < |leads| ==>
      r[m] == if leads[m].status == Approved then leads[m].(status := Sent) else leads[m]
  {
    if leads == [] then []
    else [if leads[0].status == Approved then leads[0].(status := Sent) else leads[0]] + MarkApproved(leads[1..])
  }

  /** When the store holds the page's leads (ids distinct), sending all the approved
      ones moves exactly the approved leads to sent. */
  lemma SendAllMarksApproved(leads: seq<Lead>)
    requires DistinctIds(leads)
    ensures var approved := ApprovedLeads(leads);
      SentUpTo(leads, approved, |approved|) == MarkApproved(leads)
  {
    var approved := ApprovedLeads(leads);
    forall m | 0 <= m < |leads| ensures MarkSent(leads[m], approved, |approved|) == MarkApproved(leads)[m] {
      if SentBefore(approved, |approved|, leads[m].id) {
        var j :| 0 <= j < |approved| && approved[j].id == leads[m].id;
        assert approved[j] in approved;
        SameIdSameLead(leads, approved[j], leads[m]);
      } else if leads[m].status == Approved {
        assert leads[m] in approved;
      }
    }
  }

  /** After every approved lead is sent none is left approved, the sent counter grows
      by the approved count, and the generated and total counters stay. */
  lemma {:induction false} SendAllCounts(leads: seq<Lead>)
    ensures var st, st' := GetCampaignStats(leads), GetCampaignStats(MarkApproved(leads));
      && st'.totalLeads == st.totalLeads
      && st'.approved == 0
      && st'.sent == st.sent + st.approved
      && st'.generated == st.generated
  {
    if leads != [] {
      SendAllCounts(leads[1..]);
      assert MarkApproved(leads)[1..] == MarkApproved(leads[1..]);
    }
  }

  // ---------------------------------------------------------------------------
  // The page

  class CampaignPage {
    /** The `id` of the page's address, if any. */
    var campaignId: Option<nat>
    var campaign: Option<Campaign>
    var leads: seq<Lead>
    var isLoading: bool
    var isGenerating: bool
    /** The generation progress bar, in percent. */
    var generationProgress: real
    var error: Option<string>
    /** The alerts shown, oldest first. */
    var alerts: seq<string>

    /** The loaded campaign is the one the address names. */
    ghost predicate Consistent()
      reads this
    {
      campaign.Some? ==> campaignId == Some(campaign.value.id)
    }

    function Data(): PageData
      reads this
    {
      PageData(campaign, leads, error)
    }

    function Screen(): Screen
      reads this
    {
      ScreenOf(isLoading, error, campaign)
    }

    constructor (id: Option<nat>)
      ensures Consistent()
      ensures campaignId == id && campaign == None && leads == [] && isLoading
      ensures !isGenerating && generationProgress == 0.0 && error == None && alerts == []
    {
      campaignId, campaign, leads := id, None, [];
      isLoading, isGenerating, generationProgress := true, false, 0.0;
      error, alerts := None, [];
    }

    /** `loadCampaignData()` as written: a campaign that is not found returns before
      the spinner is turned off, so the "Campaign not found" panel is never shown. */
    method LoadCampaignDataAsWritten(store: LeadStore, campaignsOk: bool, leadsOk: bool)
      requires Consistent()
      modifies this
      ensures Consistent()
      ensures Data() == LoadOutcome(old(Data()), store.campaigns, store.leads, campaignId, campaignsOk, leadsOk)
      ensures isLoading <==> campaignsOk && FindById(store.campaigns, campaignId).None?
      ensures campaignsOk && FindById(store.campaigns, campaignId).None? ==> Screen() == Spinner
      ensures campaignId == old(campaignId) && isGenerating == old(isGenerating)
      ensures generationProgress == old(generationProgress) && alerts == old(alerts)
    {
      isLoading := true;
      if !campaignsOk {
        error := Some(LOAD_FAILED);
        isLoading := false;
        return;
      }
      var current := FindById(store.campaigns, campaignId);
      if current.None? {
        error := Some(NOT_FOUND);
        return;
      }
      campaign := current;
      if !leadsOk {
        error := Some(LOAD_FAILED);
      } else {
        leads := CampaignLeads(store.List(LEAD_LIMIT), campaignId.value);
      }
      isLoading := false;
    }

    /** `loadCampaignData()` with the spinner turned off on every path. */
    method LoadCampaignData(store: LeadStore, campaignsOk: bool, leadsOk: bool)
      requires Consistent()
      modifies this
      ensures Consistent()
      ensures Data() == LoadOutcome(old(Data()), store.campaigns, store.leads, campaignId, campaignsOk, leadsOk)
      ensures !isLoading
      ensures campaignsOk && FindById(store.campaigns, campaignId).None? && old(error).None? ==>
        Screen() == ErrorPanel(NOT_FOUND)
      ensures campaignId == old(campaignId) && isGenerating == old(isGenerating)
      ensures generationProgress == old(generationProgress) && alerts == old(alerts)
    {
      isLoading := true;
      if !campaignsOk {
        error := Some(LOAD_FAILED);
        isLoading := false;
        return;
      }
      var current := FindById(store.campaigns, campaignId);
      if current.None? {
        error := Some(NOT_FOUND);
        isLoading := false;
        return;
      }
      campaign := current;
      if !leadsOk {
        error := Some(LOAD_FAILED);
      } else {
        leads := CampaignLeads(store.List(LEAD_LIMIT), campaignId.value);
      }
      isLoading := false;
    }

    /** The page's effect on its address: load the campaign it names, or report that
      it names none. */
    method Mount(store: LeadStore, campaignsOk: bool, leadsOk: bool)
      requires Consistent()
      modifies this
      ensures Consistent()
      ensures campaignId.None? ==> error == Some(NO_CAMPAIGN_ID) && campaign == old(campaign) && leads == old(leads)
      ensures campaignId.None? ==> !isLoading
      ensures campaignId.Some? ==>
        Data() == LoadOutcome(old(Data()), store.campaigns, store.leads, campaignId, campaignsOk, leadsOk)
      ensures campaignId.Some? ==> (isLoading <==> campaignsOk && FindById(store.campaigns, campaignId).None?)
      ensures campaignId == old(campaignId) && alerts == old(alerts)
      ensures isGenerating == old(isGenerating) && generationProgress == old(generationProgress)
    {
      if campaignId.Some? {
        LoadCampaignDataAsWritten(store, campaignsOk, leadsOk);
      } else {
        error := Some(NO_CAMPAIGN_ID);
        isLoading := false;
      }
    }

    /** `generateEmailsForLeads()`. `userOk` is whether `User.me()` answers, `llm(i)`
      the model's email for the `i`-th lead without one (`None` when it fails),
      `updOk(i)` whether that lead's update is accepted, and the last two the answers
      of the reload at the end. */
    method GenerateEmailsForLeads(store: LeadStore, userOk: bool, llm: nat -> Option<Email>, updOk: nat -> bool,
                                  campaignsOk: bool, leadsOk: bool)
      requires store.Valid() && Consistent()
      modifies this, store
      ensures store.Valid() && Consistent()
      ensures store.campaigns == old(store.campaigns)
      ensures old(campaign).None? || old(leads) == [] ==>
        && store.leads == old(store.leads) && Data() == old(Data()) && isLoading == old(isLoading)
        && isGenerating == old(isGenerating) && generationProgress == old(generationProgress)
      ensures old(campaign).Some? && old(leads) != [] && !userOk ==>
        && store.leads == old(store.leads)
        && Data() == old(Data()).(error := Some(GENERATE_FAILED))
        && !isGenerating && generationProgress == 0.0 && isLoading == old(isLoading)
      ensures old(campaign).Some? && old(leads) != [] && userOk ==>
        var todo := ToGenerate(old(leads));
        && store.leads == Generated(old(store.leads), todo, |todo|, old(campaign).value.id, llm, updOk)
        && generationProgress == ProgressAfter(old(store.leads), todo, |todo|, llm, updOk)
        && Data() == LoadOutcome(old(Data()).(error := None), store.campaigns, store.leads, campaignId,
                                 campaignsOk, leadsOk)
        && !isGenerating
        && (isLoading <==> campaignsOk && FindById(store.campaigns, campaignId).None?)
      ensures campaignId == old(campaignId) && alerts == old(alerts)
    {
      if campaign.None? || |leads| == 0 {
        return;
      }
      isGenerating := true;
      generationProgress := 0.0;
      error := None;
      var todo := ToGenerate(leads);
      if !userOk {
        error := Some(GENERATE_FAILED);
        isGenerating := false;
        return;
      }
      generationProgress := GenerateAll(store, todo, campaign.value.id, llm, updOk);
      LoadCampaignDataAsWritten(store, campaignsOk, leadsOk);
      isGenerating := false;
    }

    /** `handleApproveEmail(leadId)`: a refused update changes nothing, an accepted one
      approves that lead and reloads. */
    method HandleApproveEmail(store: LeadStore, id: nat, updOk: bool, campaignsOk: bool, leadsOk: bool)
      requires store.Valid() && Consistent()
      modifies this, store
      ensures store.Valid() && Consistent()
      ensures store.campaigns == old(store.campaigns)
      ensures store.leads == if updOk && HasId(old(store.leads), id) then PatchWhere(old(store.leads), id, APPROVE_PATCH) else old(store.leads)
      ensures updOk && HasId(old(store.leads), id) ==>
        && Data() == LoadOutcome(old(Data()), store.campaigns, store.leads, campaignId, campaignsOk, leadsOk)
        && (isLoading <==> campaignsOk && FindById(store.campaigns, campaignId).None?)
      ensures !(updOk && HasId(old(store.leads), id)) ==> Data() == old(Data()) && isLoading == old(isLoading)
      ensures campaignId == old(campaignId) && alerts == old(alerts)
      ensures isGenerating == old(isGenerating) && generationProgress == old(generationProgress)
    {
      var ok := store.Update(id, APPROVE_PATCH, updOk);
      if ok {
        LoadCampaignDataAsWritten(store, campaignsOk, leadsOk);
      }
    }

    /** `handleEditEmail(leadId, newContent, newSubject)`: the edited email is saved and
      approved in one update. */
    method HandleEditEmail(store: LeadStore, id: nat, content: string, subject: string, updOk: bool,
                           campaignsOk: bool, leadsOk: bool)
      requires store.Valid() && Consistent()
      modifies this, store
      ensures store.Valid() && Consistent()
      ensures store.campaigns == old(store.campaigns)
      ensures store.leads == if updOk && HasId(old(store.leads), id) then PatchWhere(old(store.leads), id, EditPatch(content, subject)) else old(store.leads)
      ensures updOk && HasId(old(store.leads), id) ==>
        && Data() == LoadOutcome(old(Data()), store.campaigns, store.leads, campaignId, campaignsOk, leadsOk)
        && (isLoading <==> campaignsOk && FindById(store.campaigns, campaignId).None?)
      ensures !(updOk && HasId(old(store.leads), id)) ==> Data() == old(Data()) && isLoading == old(isLoading)
      ensures campaignId == old(campaignId) && alerts == old(alerts)
      ensures isGenerating == old(isGenerating) && generationProgress == old(generationProgress)
    {
      var ok := store.Update(id, EditPatch(content, subject), updOk);
      if ok {
        LoadCampaignDataAsWritten(store, campaignsOk, leadsOk);
      }
    }

    /** `handleSendEmails()`. `updOk(j)` is whether the update of the `j`-th approved
      lead is accepted and `campaignOk` whether the campaign update is; the first
      refusal stops the sending. Without a loaded campaign the counter update cannot
      be computed and counts as a refusal. */
    method HandleSendEmails(store: LeadStore, updOk: nat -> bool, campaignOk: bool, campaignsOk: bool, leadsOk: bool)
      requires store.Valid() && Consistent()
      modifies this, store
      ensures store.Valid() && Consistent()
      ensures campaignId == old(campaignId)
      ensures isGenerating == old(isGenerating) && generationProgress == old(generationProgress)
      ensures ApprovedLeads(old(leads)) == [] ==>
        && store.leads == old(store.leads) && store.campaigns == old(store.campaigns)
        && alerts == old(alerts) + [NO_APPROVED] && Data() == old(Data()) && isLoading == old(isLoading)
      ensures ApprovedLeads(old(leads)) != [] ==>
        store.leads == SentUpTo(old(store.leads), ApprovedLeads(old(leads)), SendStop(old(store.leads), ApprovedLeads(old(leads)), updOk))
      ensures ApprovedLeads(old(leads)) != [] && !(AllSent(old(store.leads), old(leads), updOk) && old(campaign).Some? && campaignOk) ==>
        && store.campaigns == old(store.campaigns)
        && alerts == old(alerts) + [SEND_FAILED] && Data() == old(Data()) && isLoading == old(isLoading)
      ensures ApprovedLeads(old(leads)) != [] && AllSent(old(store.leads), old(leads), updOk) && old(campaign).Some? && campaignOk ==>
        && store.campaigns == SetCounters(old(store.campaigns), old(campaign).value.id,
                                          EmailsSent(old(campaign).value) + |ApprovedLeads(old(leads))|, |old(leads)|)
        && alerts == old(alerts) + [SentMessage(|ApprovedLeads(old(leads))|)]
        && Data() == LoadOutcome(old(Data()), store.campaigns, store.leads, campaignId, campaignsOk, leadsOk)
        && (isLoading <==> campaignsOk && FindById(store.campaigns, campaignId).None?)
    {
      var approved := ApprovedLeads(leads);
      if |approved| == 0 {
        alerts := alerts + [NO_APPROVED];
        return;
      }
      var ok := SendAndCount(store, approved, updOk, campaign, |leads|, campaignOk);
      if !ok {
        alerts := alerts + [SEND_FAILED];
        return;
      }
      ReportSent(store, |approved|, campaignsOk, leadsOk);
    }

    /** The end of a send that went through: the count alert, then the reload. */
    method ReportSent(store: LeadStore, count: nat, campaignsOk: bool, leadsOk: bool)
      requires Consistent()
      modifies this
      ensures Consistent()
      ensures alerts == old(alerts) + [SentMessage(count)]
      ensures Data() == LoadOutcome(old(Data()), store.campaigns, store.leads, campaignId, campaignsOk, leadsOk)
      ensures isLoading <==> campaignsOk && FindById(store.campaigns, campaignId).None?
      ensures campaignId == old(campaignId) && isGenerating == old(isGenerating)
      ensures generationProgress == old(generationProgress)
    {
      alerts := alerts + [SentMessage(count)];
      LoadCampaignDataAsWritten(store, campaignsOk, leadsOk);
    }
  }

  /** The loop of `generateEmailsForLeads` over the leads without an email: a lead
      whose email the model produces and the store accepts is updated and moves the
      progress bar, any other is skipped. The result is the bar's final value. */
  method GenerateAll(store: LeadStore, todo: seq<Lead>, cid: nat, llm: nat -> Option<Email>, updOk: nat -> bool)
    returns (progress: real)
    requires store.Valid()
    modifies store
    ensures store.Valid() && store.campaigns == old(store.campaigns)
    ensures store.leads == Generated(old(store.leads), todo, |todo|, cid, llm, updOk)
    ensures progress == ProgressAfter(old(store.leads), todo, |todo|, llm, updOk)
  {
    ghost var ls0 := store.leads;
    progress := 0.0;
    var i := 0;
    while i < |todo|
      invariant 0 <= i <= |todo|
      invariant store.Valid() && store.campaigns == old(store.campaigns)
      invariant store.leads == Generated(ls0, todo, i, cid, llm, updOk)
      invariant progress == ProgressAfter(ls0, todo, i, llm, updOk)
    {
      GenerateAllStep(ls0, todo, i, cid, llm, updOk);
      var answer := llm(i);
      if answer.Some? {
        var ok := store.Update(todo[i].id, GenerationPatch(answer.value, cid), updOk(i));
        if ok {
          progress := ((i + 1) as real / |todo| as real) * 100.0;
        }
      }
      i := i + 1;
    }
  }

  /** The loop of `handleSendEmails`: the approved leads are marked sent in order until
      the first refused update. The result is the number marked. */
  method SendApproved(store: LeadStore, approved: seq<Lead>, updOk: nat -> bool) returns (sent: nat)
    requires store.Valid()
    modifies store
    ensures store.Valid() && store.campaigns == old(store.campaigns)
    ensures sent == SendStop(old(store.leads), approved, updOk)
    ensures store.leads == SentUpTo(old(store.leads), approved, sent)
  {
    ghost var ls0 := store.leads;
    SendStopSpec(ls0, approved, updOk);
    ghost var k := SendStop(ls0, approved, updOk);
    sent := 0;
    while sent < |approved|
      invariant 0 <= sent <= k
      invariant store.Valid() && store.campaigns == old(store.campaigns)
      invariant store.leads == SentUpTo(ls0, approved, sent)
    {
      SendApprovedStep(ls0, approved, sent);
      var ok := store.Update(approved[sent].id, SENT_PATCH, updOk(sent));
      if !ok {
        assert !SendAccepted(ls0, approved, updOk, sent);
        return;
      }
      sent := sent + 1;
    }
  }

  /** The store's side of `handleSendEmails`: the approved leads are sent, then the
      campaign's counters are updated. `ok` is false when an update is refused or there
      is no campaign to count for. */
  method SendAndCount(store: LeadStore, approved: seq<Lead>, updOk: nat -> bool, campaign: Option<Campaign>,
                      totalLeads: nat, campaignOk: bool) returns (ok: bool)
    requires store.Valid()
    modifies store
    ensures store.Valid()
    ensures store.leads == SentUpTo(old(store.leads), approved, SendStop(old(store.leads), approved, updOk))
    ensures ok == (SendStop(old(store.leads), approved, updOk) == |approved| && campaign.Some? && campaignOk)
    ensures store.campaigns == if ok
      then SetCounters(old(store.campaigns), campaign.value.id, EmailsSent(campaign.value) + |approved|, totalLeads)
      else old(store.campaigns)
  {
    var sent := SendApproved(store, approved, updOk);
    ok := sent == |approved| && campaign.Some?;
    if ok {
      ok := store.UpdateCampaign(campaign.value.id, EmailsSent(campaign.value) + |approved|, totalLeads, campaignOk);
    }
  }

  /** What one more send does to the store's list. */
  lemma SendApprovedStep(ls0: seq<Lead>, approved: seq<Lead>, k: nat)
    requires k < |approved|
    ensures HasId(SentUpTo(ls0, approved, k), approved[k].id) <==> HasId(ls0, approved[k].id)
    ensures PatchWhere(SentUpTo(ls0, approved, k), approved[k].id, SENT_PATCH) == SentUpTo(ls0, approved, k + 1)
  {
    SentStep(ls0, approved, k);
    SameIdsHasId(SentUpTo(ls0, approved, k), ls0, approved[k].id);
  }

  /** What processing one more lead does to the store's list: the update is applied
      exactly when the model answered, the store accepts and holds the lead. */
  lemma GenerateAllStep(ls0: seq<Lead>, todo: seq<Lead>, k: nat, cid: nat, llm: nat -> Option<Email>, updOk: nat -> bool)
    requires k < |todo|
    ensures HasId(Generated(ls0, todo, k, cid, llm, updOk), todo[k].id) <==> HasId(ls0, todo[k].id)
    ensures Generated(ls0, todo, k + 1, cid, llm, updOk)
      == if Stored(ls0, todo, k, llm, updOk)
         then PatchWhere(Generated(ls0, todo, k, cid, llm, updOk), todo[k].id, GenerationPatch(llm(k).value, cid))
         else Generated(ls0, todo, k, cid, llm, updOk)
  {
    var prev := Generated(ls0, todo, k, cid, llm, updOk);
    GeneratedStep(ls0, todo, k, cid, llm, updOk);
    SameIdsHasId(prev, ls0, todo[k].id);
    if llm(k).Some? && !HasId(ls0, todo[k].id) {
      PatchAbsent(prev, todo[k].id, GenerationPatch(llm(k).value, cid));
    }
  }

  /** Two lists whose leads have the same ids position by position hold the same ids. */
  lemma SameIdsHasId(a: seq<Lead>, b: seq<Lead>, id: nat)
    requires |a| == |b| && forall m :: 0 <= m < |a| ==> a[m].id == b[m].id
    ensures HasId(a, id) <==> HasId(b, id)
  {
  }
}
