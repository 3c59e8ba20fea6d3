/** The remote entity store the pages call (`Lead.bulkCreate`, `Lead.update`,
    `Lead.delete`, `Lead.list`, `Campaign.update`, `Campaign.list`), as an in-memory
    list of records. Whether a call succeeds is not up to the pages: every changing
    call takes `accept`, the store's answer, and fails without changing anything when
    it is false. */
module Store {
  import opened Wrappers
  import opened Seqs
  import opened Leads

  /** The records `bulkCreate` adds for a batch: consecutive ids from `first`, in
      batch order, all created at `now`. */
  function CreateAll(batch: seq<Candidate>, first: nat, now: string): (r: seq<Lead>)
    ensures |r| == |batch|
    ensures forall k :: 0 <= k < |batch| ==> r[k] == Create(batch[k], first + k, now)
  {
    seq(|batch|, k requires 0 <= k < |batch| => Create(batch[k], first + k, now))
  }

  /** The campaign list with the counters of the campaigns with the given id replaced. */
  function SetCounters(cs: seq<Campaign>, id: nat, emailsSent: nat, totalLeads: nat): (r: seq<Campaign>)
    ensures |r| == |cs|
    ensures forall k :: 0 <= k < |cs| ==>
      r[k] == if cs[k].id == id then cs[k].(emails_sent := Some(emailsSent), total_leads := totalLeads) else cs[k]
  {
    seq(|cs|, k requires 0 <= k < |cs| =>
      if cs[k].id == id then cs[k].(emails_sent := Some(emailsSent), total_leads := totalLeads) else cs[k])
  }

  /** The first campaign with the given id (`campaigns.find(c => c.id === id)`). */
  function FindCampaign(cs: seq<Campaign>, id: nat): (r: Option<Campaign>)
    ensures r.None? <==> forall k :: 0 <= k < |cs| ==> cs[k].id != id
    ensures r.Some? ==> r.value in cs && r.value.id == id
  {
    if cs == [] then None
    else if cs[0].id == id then Some(cs[0])
    else FindCampaign(cs[1..], id)
  }

  /** Whether some lead of the list has the given id. */
  predicate HasId(ls: seq<Lead>, id: nat)
  {
    exists k :: 0 <= k < |ls| && ls[k].id == id
  }

  class LeadStore {
    var leads: seq<Lead>
    var campaigns: seq<Campaign>
    /** The id the next created lead receives. */
    var nextId: nat

    /** Ids are distinct and all below `nextId`. */
    ghost predicate Valid()
      reads this
    {
      DistinctIds(leads) && forall k :: 0 <= k < |leads| ==> leads[k].id < nextId
    }

    constructor (leads0: seq<Lead>, campaigns0: seq<Campaign>, nextId0: nat)
      requires DistinctIds(leads0) && forall k :: 0 <= k < |leads0| ==> leads0[k].id < nextId0
      ensures Valid()
      ensures leads == leads0 && campaigns == campaigns0 && nextId == nextId0
    {
      leads, campaigns, nextId := leads0, campaigns0, nextId0;
    }

    /** `Lead.list(order, limit)`: at most `limit` leads, in the store's order. */
    function List(limit: nat): (r: seq<Lead>)
      reads this
      ensures |r| <= limit && |r| <= |leads|
      ensures forall k :: 0 <= k < |r| ==> r[k] == leads[k]
    {
      Take(leads, limit)
    }

    /** `Lead.bulkCreate(batch)`: every lead of the batch is stored, or none is. */
    method BulkCreate(batch: seq<Candidate>, now: string, accept: bool) returns (ok: bool)
      requires Valid()
      modifies this
      ensures Valid()
      ensures ok == accept
      ensures campaigns == old(campaigns)
      ensures ok ==> leads == old(leads) + CreateAll(batch, old(nextId), now) && nextId == old(nextId) + |batch|
      ensures !ok ==> leads == old(leads) && nextId == old(nextId)
    {
      ok := accept;
      if ok {
        leads := leads + CreateAll(batch, nextId, now);
        nextId := nextId + |batch|;
      }
    }

    /** `Lead.update(id, patch)`: fails when the store refuses or holds no lead with
      that id; otherwise that lead, and no other, takes the patch. */
    method Update(id: nat, p: LeadPatch, accept: bool) returns (ok: bool)
      requires Valid()
      modifies this
      ensures Valid()
      ensures ok == (accept && HasId(old(leads), id))
      ensures campaigns == old(campaigns) && nextId == old(nextId)
      ensures leads == if ok then PatchWhere(old(leads), id, p) else old(leads)
    {
      ok := accept && HasId(leads, id);
      if ok {
        PatchWhereIds(leads, id, p);
        leads := PatchWhere(leads, id, p);
      }
    }

    /** `Lead.delete(id)`. */
    method Delete(id: nat, accept: bool) returns (ok: bool)
      requires Valid()
      modifies this
      ensures Valid()
      ensures ok == accept
      ensures campaigns == old(campaigns) && nextId == old(nextId)
      ensures leads == if ok then RemoveId(old(leads), id) else old(leads)
    {
      ok := accept;
      if ok {
        RemoveIdDistinct(leads, id);
        leads := RemoveId(leads, id);
      }
    }

    /** `Campaign.update(id, {emails_sent, total_leads})`. */
    method UpdateCampaign(id: nat, emailsSent: nat, totalLeads: nat, accept: bool) returns (ok: bool)
      requires Valid()
      modifies this
      ensures Valid()
      ensures ok == accept
      ensures leads == old(leads) && nextId == old(nextId)
      ensures campaigns == if ok then SetCounters(old(campaigns), id, emailsSent, totalLeads) else old(campaigns)
    {
      ok := accept;
      if ok {
        campaigns := SetCounters(campaigns, id, emailsSent, totalLeads);
      }
    }
  }

  /** Removing leads keeps the rest in order, so ids stay distinct. */
  lemma {:induction false} RemoveIdDistinct(ls: seq<Lead>, id: nat)
    requires DistinctIds(ls)
    ensures DistinctIds(RemoveId(ls, id))
  {
    if ls != [] {
      DistinctTail(ls);
      RemoveIdDistinct(ls[1..], id);
      if ls[0].id != id {
        DistinctCons(ls[0], RemoveId(ls[1..], id));
      }
    }
  }

  /** The leads after the first keep distinct ids, none of them the first one's. */
  lemma DistinctTail(ls: seq<Lead>)
    requires ls != [] && DistinctIds(ls)
    ensures DistinctIds(ls[1..])
    ensures forall l :: l in ls[1..] ==> l.id != ls[0].id
  {
    forall i, j | 0 <= i < j < |ls[1..]| ensures ls[1..][i].id != ls[1..][j].id {
      assert ls[1..][i] == ls[i + 1] && ls[1..][j] == ls[j + 1];
    }
  }

  /** A lead whose id none of a list with distinct ids carries can go in front of it. */
  lemma DistinctCons(x: Lead, rest: seq<Lead>)
    requires DistinctIds(rest)
    requires forall l :: l in rest ==> l.id != x.id
    ensures DistinctIds([x] + rest)
  {
    var r := [x] + rest;
    forall i, j | 0 <= i < j < |r| ensures r[i].id != r[j].id {
      assert r[j] == rest[j - 1];
      if i > 0 {
        assert r[i] == rest[i - 1];
      }
    }
  }
}
