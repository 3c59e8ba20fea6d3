/** The dashboard's status counters and its recent-campaigns panel. */
module Dashboard {
  import opened Seqs
  import opened Leads
  import opened Reals

  /** The counters of `getStats`. `responseRate` is a percentage, before the page
      rounds it to one decimal. */
  datatype Stats = Stats(
    totalLeads: nat,
    emailsGenerated: nat,
    emailsSent: nat,
    responses: nat,
    responseRate: real)

  /** `responses / emailsSent * 100`, or 0 when nothing is counted as sent. */
  function ResponseRateAsWritten(responses: nat, emailsSent: nat): (rate: real)
    ensures emailsSent == 0 ==> rate == 0.0
    ensures emailsSent > 0 ==> rate * emailsSent as real == responses as real * 100.0
    ensures 0.0 <= rate
    ensures responses <= emailsSent ==> rate <= 100.0
  {
    if emailsSent > 0 then
      WrittenRateBounds(responses, emailsSent);
      (responses as real / emailsSent as real) * 100.0
    else 0.0
  }

  lemma WrittenRateBounds(responses: nat, emailsSent: nat)
    requires emailsSent > 0
    ensures var q := responses as real / emailsSent as real;
      && q * emailsSent as real == responses as real
      && 0.0 <= q
      && (responses <= emailsSent ==> q <= 1.0)
  {
    var q := responses as real / emailsSent as real;
    if responses <= emailsSent && q > 1.0 {
      assert q * emailsSent as real > emailsSent as real;
    }
  }

  /** A lead that has responded is no longer counted as sent, so the rate as written
      divides by the wrong number: two responses and one lead still waiting give 200
      percent, and a campaign whose every lead responded shows 0. */
  lemma ResponseRateAsWrittenExceeds()
    ensures ResponseRateAsWritten(2, 1) == 200.0
    ensures ResponseRateAsWritten(1, 0) == 0.0
  {
  }

  /** The response rate over the leads that were emailed: those still counted as sent
      and those that have responded. */
  function ResponseRate(responses: nat, emailsSent: nat): (rate: real)
    ensures 0.0 <= rate <= 100.0
    ensures responses + emailsSent == 0 ==> rate == 0.0
    ensures responses > 0 ==> rate > 0.0
    ensures emailsSent == 0 && responses > 0 ==> rate == 100.0
  {
    var emailed := responses + emailsSent;
    if emailed > 0 then (responses as real / emailed as real) * 100.0 else 0.0
  }

  /** `getStats()` */
  function GetStats(leads: seq<Lead>): (st: Stats)
  {
    var sent := CountStatus(leads, Sent);
    var responses := CountStatus(leads, Responded);
    Stats(|leads|, CountGenerated(leads), sent, responses, ResponseRateAsWritten(responses, sent))
  }

  /** The counters are ordered: sent leads are among the generated ones, which are
      among all leads, and responded leads are counted in neither, so the generated and
      responded counts together never exceed the total. The rate is 0 while nothing is
      counted as sent, and a percentage as long as the responses do not outnumber the
      leads still counted as sent. */
  lemma StatsBounds(leads: seq<Lead>)
    ensures var st := GetStats(leads);
      && st.totalLeads == |leads|
      && st.emailsSent <= st.emailsGenerated <= st.totalLeads
      && st.emailsGenerated + st.responses <= st.totalLeads
      && (st.emailsSent == 0 ==> st.responseRate == 0.0)
      && (st.emailsSent > 0 ==> st.responseRate * st.emailsSent as real == st.responses as real * 100.0)
      && 0.0 <= st.responseRate
      && (st.responses <= st.emailsSent ==> st.responseRate <= 100.0)
  {
    CountersOrdered(leads);
  }

  /** The order of the three counters, shared by both versions of the statistics. */
  lemma CountersOrdered(leads: seq<Lead>)
    ensures CountStatus(leads, Sent) <= CountGenerated(leads) <= |leads|
    ensures CountGenerated(leads) + CountStatus(leads, Responded) <= |leads|
  {
    var isSent := (l: Lead) => l.status == Sent;
    var isGen := (l: Lead) => IsGenerated(l.status);
    var isResp := (l: Lead) => l.status == Responded;
    FilterMonotone(leads, isSent, isGen);
    var either := (l: Lead) => IsGenerated(l.status) || l.status == Responded;
    FilterDisjoint(leads, isGen, isResp, either);
  }

  /** The statistics with the corrected rate: the same counters, and a rate over every
      lead that was emailed, which stays a percentage on every input. */
  function GetStatsCorrected(leads: seq<Lead>): (st: Stats)
    ensures st == GetStats(leads).(responseRate := st.responseRate)
    ensures 0.0 <= st.responseRate <= 100.0
    ensures st.emailsSent == 0 && st.responses == 0 ==> st.responseRate == 0.0
    ensures st.responses > 0 ==> st.responseRate > 0.0
    ensures st.emailsSent > 0 && st.responses <= st.emailsSent ==> st.responseRate <= GetStats(leads).responseRate
  {
    var sent := CountStatus(leads, Sent);
    var responses := CountStatus(leads, Responded);
    CorrectedRateBelow(responses, sent);
    Stats(|leads|, CountGenerated(leads), sent, responses, ResponseRate(responses, sent))
  }

  /** Counting the responded leads in the denominator never raises the rate. */
  lemma CorrectedRateBelow(responses: nat, emailsSent: nat)
    ensures emailsSent > 0 ==> ResponseRate(responses, emailsSent) <= ResponseRateAsWritten(responses, emailsSent)
  {
    if emailsSent == 0 {
      return;
    }
    var a, b := responses as real, emailsSent as real;
    var x := a / (a + b);
    assert x * (a + b) == a;
    assert x * a >= 0.0;
    assert x * b <= a / b * b;
    CancelFactor(x, a / b, b);
  }

  /** A lead moving from `sent` to `responded` lowers the sent count by one and raises
      the response count by one, and leaves the total as it is. */
  lemma RespondShiftsCounts(a: seq<Lead>, l: Lead, b: seq<Lead>)
    requires l.status == Sent
    ensures var before := GetStats(a + [l] + b);
      var after := GetStats(a + [l.(status := Responded)] + b);
      && after.totalLeads == before.totalLeads
      && after.emailsSent + 1 == before.emailsSent
      && after.responses == before.responses + 1
      && after.emailsGenerated + 1 == before.emailsGenerated
  {
    var r := l.(status := Responded);
    var isSent := (x: Lead) => x.status == Sent;
    var isResp := (x: Lead) => x.status == Responded;
    var isGen := (x: Lead) => IsGenerated(x.status);
    FilterConcat(a + [l], b, isSent);
    FilterConcat(a, [l], isSent);
    FilterConcat(a + [r], b, isSent);
    FilterConcat(a, [r], isSent);
    FilterConcat(a + [l], b, isResp);
    FilterConcat(a, [l], isResp);
    FilterConcat(a + [r], b, isResp);
    FilterConcat(a, [r], isResp);
    FilterConcat(a + [l], b, isGen);
    FilterConcat(a, [l], isGen);
    FilterConcat(a + [r], b, isGen);
    FilterConcat(a, [r], isGen);
  }

  /** `campaigns.slice(0, 5)`: the panel lists the first five campaigns at most. */
  function RecentCampaigns(campaigns: seq<Campaign>): (r: seq<Campaign>)
    ensures |r| <= 5
    ensures |r| == if |campaigns| < 5 then |campaigns| else 5
    ensures r == campaigns[..|r|]
  {
    Take(campaigns, 5)
  }
}
