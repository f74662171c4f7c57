/** The metric family builders: query results turned into labelled samples. */
module Families {
  import opened Metrics
  import opened Store
  import opened Histogram

  /** Result row of the report-count query. */
  datatype ReportCounts = ReportCounts(resolved: int, unresolved: int)

  /** Result row of the account-count query. */
  datatype AccountCounts =
    AccountCounts(unsuspended: int, bots: int, groups: int, people: int, suspended: int)

  /** The two `num_reports` gauges: resolved reports under `resolved="true"`,
      then unresolved ones under `resolved="false"`. */
  function ReportSamples(c: ReportCounts): seq<Metric>
  {
    [Gauge(NumReports, ["true"], c.resolved), Gauge(NumReports, ["false"], c.unresolved)]
  }

  lemma ReportSamplesByLabel(c: ReportCounts)
    ensures |ReportSamples(c)| == 2
    ensures ReportSamples(c)[0].labelValues == ["true"]
    ensures (set m | m in ReportSamples(c) :: m.labelValues) == {["true"], ["false"]}
    ensures forall m :: m in ReportSamples(c) ==>
      && m.Gauge? && m.family == NumReports && WellFormed(m)
      && m.value == if m.labelValues == ["true"] then c.resolved else c.unresolved
  {
    var r := ReportSamples(c);
    assert r[0] in r && r[1] in r;
    assert ["true"] != ["false"] by { assert ["true"][0] != ["false"][0]; }
  }

  /** The account gauges' `type` label values paired with their counts, in
      the order they are emitted. */
  function AccountLabelValues(c: AccountCounts): seq<(string, int)>
  {
    [("unsuspended", c.unsuspended), ("bots", c.bots), ("groups", c.groups),
     ("people", c.people), ("suspended", c.suspended)]
  }

  /** One `num_accounts` gauge per account type. */
  function AccountSamples(c: AccountCounts): seq<Metric>
  {
    var lvs := AccountLabelValues(c);
    seq(|lvs|, k requires 0 <= k < |lvs| => Gauge(NumAccounts, [lvs[k].0], lvs[k].1))
  }

  lemma AccountSamplesInOrder(c: AccountCounts)
    ensures AccountSamples(c) == [
      Gauge(NumAccounts, ["unsuspended"], c.unsuspended),
      Gauge(NumAccounts, ["bots"], c.bots),
      Gauge(NumAccounts, ["groups"], c.groups),
      Gauge(NumAccounts, ["people"], c.people),
      Gauge(NumAccounts, ["suspended"], c.suspended)]
    ensures forall m :: m in AccountSamples(c) ==> m.family == NumAccounts && WellFormed(m)
  {
  }

  /** Builds the account gauges by appending one per account type; a failed
      query yields no gauges. */
  method GetNumAccounts(query: QueryResult<AccountCounts>) returns (r: QueryResult<seq<Metric>>)
    ensures r.Success? <==> query.Success?
    ensures r.Success? ==> r.value == AccountSamples(query.value)
  {
    if query.Failure? {
      return Failure;
    }
    var lvs := AccountLabelValues(query.value);
    var ret: seq<Metric> := [];
    var k := 0;
    while k < |lvs|
      invariant 0 <= k <= |lvs|
      invariant ret == AccountSamples(query.value)[..k]
    {
      ret := ret + [Gauge(NumAccounts, [lvs[k].0], lvs[k].1)];
      k := k + 1;
    }
    return Success(ret);
  }

  /** The single, unlabelled `num_posts` gauge. */
  function PostSamples(n: int): (r: seq<Metric>)
    ensures |r| == 1
    ensures r[0].Gauge? && r[0].family == NumPosts && r[0].value == n
    ensures WellFormed(r[0]) && r[0].labelValues == []
  {
    [Gauge(NumPosts, [], n)]
  }

  /** The resolution-time histogram, or failure when the query fails or any
      of its rows cannot be scanned. */
  function ResolvedStats(query: QueryResult<seq<Row>>): QueryResult<Metric>
  {
    match query
    case Failure => Failure
    case Success(rows) =>
      match CollectRows(rows)
      case Failure => Failure
      case Success(numbers) => Success(HistogramOf(numbers))
  }

  /** A single unscannable row fails the whole family: a histogram is built
      from all rows or not at all. */
  lemma NoPartialHistogram(query: QueryResult<seq<Row>>)
    ensures ResolvedStats(query).Success? <==>
      query.Success? && forall i :: 0 <= i < |query.value| ==> query.value[i].Scanned?
    ensures ResolvedStats(query).Success? ==>
      && ResolvedStats(query).value.count == |query.value|
      && exists numbers: seq<real> ::
        && |numbers| == |query.value|
        && (forall i :: 0 <= i < |numbers| ==> numbers[i] == query.value[i].seconds)
        && ResolvedStats(query).value == HistogramOf(numbers)
  {
    if query.Success? && CollectRows(query.value).Success? {
      var numbers := CollectRows(query.value).value;
      assert ResolvedStats(query).value == HistogramOf(numbers);
    }
  }

  /** Runs the resolution-time query's rows through the bucketing engine. */
  method GetResolvedStats(query: QueryResult<seq<Row>>) returns (r: QueryResult<Metric>)
    ensures r == ResolvedStats(query)
  {
    if query.Failure? {
      return Failure;
    }
    var numbers := CollectRows(query.value);
    if numbers.Failure? {
      return Failure;
    }
    var hist := ResolvedMetricFromNums(numbers.value);
    return Success(hist);
  }
}
