/** The all-leads page: the search box, the sortable columns, and deleting a lead. The
    list is loaded from the store and shown filtered by the search term and sorted by
    the chosen column, on a copy that leaves the loaded list as it is. */
module AllLeads {
  import opened Wrappers
  import opened Seqs
  import opened Text
  import opened Leads
  import opened Store

  /** `Lead.list("-created_date", 1000)` */
  const LEAD_LIMIT: nat := 1000

  /** The sortable columns (`columnKey`). */
  datatype SortKey = FirstName | Email | Company | Status | CreatedDate

  datatype Direction = Asc | Desc

  datatype SortConfig = SortConfig(key: SortKey, direction: Direction)

  /** The page opens sorted by creation date, newest first. */
  const INITIAL_SORT := SortConfig(CreatedDate, Desc)

  /** `requestSort(key)`: clicking the column already sorted ascending turns it
      descending, and any other click sorts that column ascending. */
  function RequestSort(cfg: SortConfig, key: SortKey): (r: SortConfig)
    ensures r.key == key
    ensures r.direction == Desc <==> cfg.key == key && cfg.direction == Asc
  {
    if cfg.key == key && cfg.direction == Asc then SortConfig(key, Desc) else SortConfig(key, Asc)
  }

  /** Clicking the same column again always flips the direction, and a first click on
      the column of the initial order sorts it ascending. */
  lemma RequestSortAlternates(cfg: SortConfig, key: SortKey)
    ensures RequestSort(RequestSort(cfg, key), key).direction != RequestSort(cfg, key).direction
    ensures RequestSort(RequestSort(RequestSort(cfg, key), key), key) == RequestSort(cfg, key)
    ensures RequestSort(INITIAL_SORT, CreatedDate) == SortConfig(CreatedDate, Asc)
  {
  }

  // ---------------------------------------------------------------------------
  // Search

  /** `Object.values(lead).map(String)`: the lead's values as strings; a lead with no
      campaign has no `campaign_id` value. */
  function Values(l: Lead): (vs: seq<string>)
    ensures l.email in vs && l.first_name in vs && l.last_name in vs && l.company in vs
    ensures StatusName(l.status) in vs && NatToString(l.id) in vs
    ensures l.campaign_id.Some? ==> NatToString(l.campaign_id.value) in vs
  {
    [NatToString(l.id), l.created_date, l.email, l.first_name, l.last_name, l.company, l.title,
     l.industry, l.company_size, l.notes, StatusName(l.status), l.generated_email, l.email_subject]
    + (if l.campaign_id.Some? then [NatToString(l.campaign_id.value)] else [])
  }

  /** Some value of the lead contains the term, ignoring letter case. */
  predicate Matches(l: Lead, term: string)
  {
    exists v :: v in Values(l) && Contains(ToLower(v), ToLower(term))
  }

  /** The search filter: an empty term keeps every lead, any other keeps the leads with
      a value containing it, in their order. */
  function Search(leads: seq<Lead>, term: string): (r: seq<Lead>)
    ensures term == [] ==> r == leads
    ensures forall l :: l in r <==> l in leads && (term == [] || Matches(l, term))
  {
    if term == [] then leads else Filter(leads, (l: Lead) => Matches(l, term))
  }

  /** The search ignores case: a term and its lower-case form keep the same leads. */
  lemma SearchIgnoresCase(leads: seq<Lead>, term: string)
    requires term != []
    ensures Search(leads, ToLower(term)) == Search(leads, term)
  {
    ToLowerIdempotent(term);
    FilterSame(leads, (l: Lead) => Matches(l, ToLower(term)), (l: Lead) => Matches(l, term));
  }

  /** A lead whose email contains the term is found by it. */
  lemma SearchFindsEmail(leads: seq<Lead>, l: Lead, term: string)
    requires l in leads && Contains(ToLower(l.email), ToLower(term))
    ensures l in Search(leads, term)
  {
  }

  /** Searching keeps the order: the results of a concatenation are those of each part. */
  lemma SearchConcat(a: seq<Lead>, b: seq<Lead>, term: string)
    ensures Search(a + b, term) == Search(a, term) + Search(b, term)
  {
    if term != [] {
      FilterConcat(a, b, (l: Lead) => Matches(l, term));
    }
  }

  // ---------------------------------------------------------------------------
  // Sort

  /** `lead[sortConfig.key]` as a string. */
  function Key(l: Lead, key: SortKey): string
  {
    match key
    case FirstName => l.first_name
    case Email => l.email
    case Company => l.company
    case Status => StatusName(l.status)
    case CreatedDate => l.created_date
  }

  /** `a` may come before `b`: the comparator does not put `b` first. */
  predicate InOrder(a: Lead, b: Lead, cfg: SortConfig)
  {
    if cfg.direction == Asc then !Less(Key(b, cfg.key), Key(a, cfg.key))
    else !Less(Key(a, cfg.key), Key(b, cfg.key))
  }

  /** Of two leads, one may always come first. */
  lemma InOrderTotal(a: Lead, b: Lead, cfg: SortConfig)
    ensures InOrder(a, b, cfg) || InOrder(b, a, cfg)
  {
    var x, y := Key(a, cfg.key), Key(b, cfg.key);
    if Less(x, y) && Less(y, x) {
      LessTransitive(x, y, x);
      LessIrreflexive(x);
    }
  }

  lemma InOrderTransitive(a: Lead, b: Lead, c: Lead, cfg: SortConfig)
    requires InOrder(a, b, cfg) && InOrder(b, c, cfg)
    ensures InOrder(a, c, cfg)
  {
    var x, y, z := Key(a, cfg.key), Key(b, cfg.key), Key(c, cfg.key);
    LessTotal(x, y);
    LessTotal(y, z);
    if cfg.direction == Asc {
      if Less(z, x) {
        if Less(x, y) { LessTransitive(z, x, y); }
        else if Less(y, x) { }
        else { }
      }
    } else {
      if Less(x, z) {
        if Less(z, y) { LessTransitive(x, z, y); }
      }
    }
  }

  /** Every lead may come before every later one. */
  predicate Sorted(s: seq<Lead>, cfg: SortConfig)
  {
    forall i, j :: 0 <= i < j < |s| ==> InOrder(s[i], s[j], cfg)
  }

  /** Every lead may come before the next one. */
  predicate AdjacentSorted(s: seq<Lead>, cfg: SortConfig)
  {
    forall k :: 0 < k < |s| ==> InOrder(s[k - 1], s[k], cfg)
  }

  /** Neighbours in order give the whole list in order. */
  lemma {:induction false} AdjacentSortedIsSorted(s: seq<Lead>, cfg: SortConfig)
    requires AdjacentSorted(s, cfg)
    ensures Sorted(s, cfg)
  {
    forall i, j | 0 <= i < j < |s| ensures InOrder(s[i], s[j], cfg) {
      InOrderUpTo(s, cfg, i, j);
    }
  }

  lemma {:induction false} InOrderUpTo(s: seq<Lead>, cfg: SortConfig, i: nat, j: nat)
    requires AdjacentSorted(s, cfg) && i < j < |s|
    ensures InOrder(s[i], s[j], cfg)
  {
    if j > i + 1 {
      InOrderUpTo(s, cfg, i, j - 1);
      InOrderTransitive(s[i], s[j - 1], s[j], cfg);
    }
  }

  /** `array.sort(compare)`: insertion sort by a comparison `le` under which any two
      elements are ordered one way or the other; each element in turn is moved left
      past the elements `le` puts after it. */
  method SortBy<T(!new)>(a: array<T>, le: (T, T) -> bool)
    requires forall x, y :: le(x, y) || le(y, x)
    modifies a
    ensures forall k :: 0 < k < a.Length ==> le(a[k - 1], a[k])
    ensures multiset(a[..]) == multiset(old(a[..]))
  {
    var i := 0;
    while i < a.Length
      invariant 0 <= i <= a.Length
      invariant forall k :: 0 < k < i ==> le(a[k - 1], a[k])
      invariant multiset(a[..]) == multiset(old(a[..]))
    {
      SinkBy(a, i, le);
      i := i + 1;
    }
  }

  /** Every neighbouring pair among positions `lo .. hi - 1` of `s` is in `le` order. */
  ghost predicate OrderedRun<T>(s: seq<T>, lo: nat, hi: nat, le: (T, T) -> bool)
    requires lo <= hi <= |s|
  {
    forall k :: lo < k < hi ==> le(s[k - 1], s[k])
  }

  /** One insertion step: with the first `i` elements in order, element `i` is swapped
      left until `le` lets it stay, leaving the first `i + 1` in order. */
  method SinkBy<T(!new)>(a: array<T>, i: nat, le: (T, T) -> bool)
    requires forall x, y :: le(x, y) || le(y, x)
    requires i < a.Length
    requires forall k :: 0 < k < i ==> le(a[k - 1], a[k])
    modifies a
    ensures forall k :: 0 < k <= i ==> le(a[k - 1], a[k])
    ensures multiset(a[..]) == multiset(old(a[..]))
  {
    var j := i;
    while j > 0 && !le(a[j - 1], a[j])
      invariant 0 <= j <= i
      invariant OrderedRun(a[..], 0, j, le) && OrderedRun(a[..], j, i + 1, le)
      invariant 0 < j < i ==> le(a[j - 1], a[j + 1])
      invariant multiset(a[..]) == multiset(old(a[..]))
    {
      ghost var before := a[..];
      a[j - 1], a[j] := a[j], a[j - 1];
      SinkStep(before, a[..], i, j, le);
      j := j - 1;
    }
    assert OrderedRun(a[..], 0, i + 1, le);
  }

  /** Swapping an out-of-order pair `j - 1, j` keeps what the insertion step needs:
      both ordered runs, now split at `j - 1`, the bridge over `j - 1`, and the
      elements themselves. */
  lemma SinkStep<T(!new)>(s: seq<T>, t: seq<T>, i: nat, j: nat, le: (T, T) -> bool)
    requires forall x, y :: le(x, y) || le(y, x)
    requires 0 < j <= i < |s|
    requires OrderedRun(s, 0, j, le) && OrderedRun(s, j, i + 1, le)
    requires j < i ==> le(s[j - 1], s[j + 1])
    requires !le(s[j - 1], s[j])
    requires t == s[j - 1 := s[j]][j := s[j - 1]]
    ensures OrderedRun(t, 0, j - 1, le) && OrderedRun(t, j - 1, i + 1, le)
    ensures 1 < j < i + 1 ==> le(t[j - 2], t[j])
    ensures multiset(t) == multiset(s)
  {
    assert le(s[j], s[j - 1]);
  }

  /** `sortedAndFilteredLeads`: the searched leads, copied and sorted. The result holds
      exactly the searched leads, each as often, in the chosen order. */
  method SortedAndFiltered(leads: seq<Lead>, term: string, cfg: SortConfig) returns (r: seq<Lead>)
    ensures multiset(r) == multiset(Search(leads, term))
    ensures Sorted(r, cfg)
  {
    var items := Search(leads, term);
    var a := new Lead[|items|](k requires 0 <= k < |items| => items[k]);
    assert a[..] == items;
    var le := (x: Lead, y: Lead) => InOrder(x, y, cfg);
    forall x: Lead, y: Lead ensures le(x, y) || le(y, x) {
      InOrderTotal(x, y, cfg);
    }
    SortBy(a, le);
    r := a[..];
    assert AdjacentSorted(r, cfg) by {
      forall k | 0 < k < |r| ensures InOrder(r[k - 1], r[k], cfg) {
        assert le(a[k - 1], a[k]);
      }
    }
    AdjacentSortedIsSorted(r, cfg);
  }

  // ---------------------------------------------------------------------------
  // The page

  class AllLeadsPage {
    var leads: seq<Lead>
    var isLoading: bool
    var searchTerm: string
    var sortConfig: SortConfig

    constructor ()
      ensures leads == [] && isLoading && searchTerm == [] && sortConfig == INITIAL_SORT
    {
      leads, isLoading, searchTerm, sortConfig := [], true, [], INITIAL_SORT;
    }

    /** `loadLeads()`; `ok` is whether `Lead.list` answers. A failure keeps the list. */
    method LoadLeads(store: LeadStore, ok: bool)
      modifies this
      ensures !isLoading
      ensures leads == if ok then store.List(LEAD_LIMIT) else old(leads)
      ensures searchTerm == old(searchTerm) && sortConfig == old(sortConfig)
    {
      isLoading := true;
      if ok {
        leads := store.List(LEAD_LIMIT);
      }
      isLoading := false;
    }

    /** `handleDelete(leadId)`: the store deletes the lead, and on success the page
      drops the leads with that id; a refused delete changes nothing. */
    method HandleDelete(store: LeadStore, id: nat, ok: bool)
      requires store.Valid()
      modifies this, store
      ensures store.Valid()
      ensures store.leads == if ok then RemoveId(old(store.leads), id) else old(store.leads)
      ensures leads == if ok then RemoveId(old(leads), id) else old(leads)
      ensures isLoading == old(isLoading) && searchTerm == old(searchTerm) && sortConfig == old(sortConfig)
    {
      var deleted := store.Delete(id, ok);
      if deleted {
        leads := RemoveId(leads, id);
      }
    }

    /** A click on a column header. */
    method HandleSortClick(key: SortKey)
      modifies this
      ensures sortConfig == RequestSort(old(sortConfig), key)
      ensures leads == old(leads) && searchTerm == old(searchTerm) && isLoading == old(isLoading)
    {
      sortConfig := RequestSort(sortConfig, key);
    }

    /** Typing in the search box. */
    method HandleSearch(term: string)
      modifies this
      ensures searchTerm == term
      ensures leads == old(leads) && sortConfig == old(sortConfig) && isLoading == old(isLoading)
    {
      searchTerm := term;
    }

    /** The rows shown; computing them changes nothing on the page. */
    method Rows() returns (r: seq<Lead>)
      ensures multiset(r) == multiset(Search(leads, searchTerm))
      ensures Sorted(r, sortConfig)
    {
      r := SortedAndFiltered(leads, searchTerm, sortConfig);
    }
  }

  /** A delete that succeeds removes the lead and keeps every other one in its place in
      the order; when ids are distinct exactly one lead goes. */
  lemma DeleteKeepsOthers(leads: seq<Lead>, k: nat)
    requires k < |leads| && DistinctIds(leads)
    ensures RemoveId(leads, leads[k].id) == leads[..k] + leads[k + 1..]
    ensures |RemoveId(leads, leads[k].id)| == |leads| - 1
  {
    RemoveIdOnce(leads, k);
  }
}
