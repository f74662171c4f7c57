/** The scrape orchestrator: each metric family is queried in turn, emitted
    when its query succeeds and counted as an error when it fails, and the
    `errors` gauge always closes the scrape. */
module Exporter {
  import opened Metrics
  import opened Store
  import opened Histogram
  import opened Families

  /** What the database answers, during one scrape, to each family's query. */
  datatype Queries = Queries(
    reports: QueryResult<ReportCounts>,
    resolutionTimes: QueryResult<seq<Row>>,
    accounts: QueryResult<AccountCounts>,
    posts: QueryResult<int>)

  /** The families that issue a query, in scrape order. */
  const QueriedFamilies: seq<Family> := [NumReports, ResolvedTimeSeconds, NumAccounts, NumPosts]

  /** The samples family `f` contributes to a scrape, or failure. */
  function FamilyResult(q: Queries, f: Family): QueryResult<seq<Metric>>
    requires f != Errors
  {
    match f
    case NumReports =>
      if q.reports.Success? then Success(ReportSamples(q.reports.value)) else Failure
    case ResolvedTimeSeconds =>
      var hist := ResolvedStats(q.resolutionTimes);
      if hist.Success? then Success([hist.value]) else Failure
    case NumAccounts =>
      if q.accounts.Success? then Success(AccountSamples(q.accounts.value)) else Failure
    case NumPosts =>
      if q.posts.Success? then Success(PostSamples(q.posts.value)) else Failure
  }

  /** What a family emits: its samples, or nothing when it failed. */
  function Emitted(r: QueryResult<seq<Metric>>): seq<Metric>
  {
    if r.Success? then r.value else []
  }

  /** One for a failed family, zero for one that succeeded. */
  function ErrorOf(q: Queries, f: Family): nat
    requires f != Errors
  {
    if FamilyResult(q, f).Failure? then 1 else 0
  }

  /** The scrape's error tally, accumulated family by family. */
  function NumErrors(q: Queries): nat
  {
    ErrorOf(q, NumReports) + ErrorOf(q, ResolvedTimeSeconds)
      + ErrorOf(q, NumAccounts) + ErrorOf(q, NumPosts)
  }

  /** The families whose query failed in this scrape. */
  function FailedFamilies(q: Queries): set<Family>
  {
    set f | f in QueriedFamilies && FamilyResult(q, f).Failure?
  }

  /** The `errors` gauge sample: unlabelled, carrying the tally. */
  function ErrorsGauge(n: int): Metric
  {
    Gauge(Errors, [], n)
  }

  /** Everything one scrape emits, in order. */
  function ScrapeOutput(q: Queries): seq<Metric>
  {
    Emitted(FamilyResult(q, NumReports))
      + Emitted(FamilyResult(q, ResolvedTimeSeconds))
      + Emitted(FamilyResult(q, NumAccounts))
      + Emitted(FamilyResult(q, NumPosts))
      + [ErrorsGauge(NumErrors(q))]
  }

  /** Every sample a family contributes belongs to that family. */
  lemma FamilyResultOwnSamples(q: Queries, f: Family)
    requires f != Errors
    ensures forall m :: m in Emitted(FamilyResult(q, f)) ==> m.family == f && WellFormed(m)
  {
    match f
    case NumReports =>
      if q.reports.Success? { ReportSamplesByLabel(q.reports.value); }
    case ResolvedTimeSeconds =>
      if q.resolutionTimes.Success? && CollectRows(q.resolutionTimes.value).Success? {
        HistogramWellFormed(CollectRows(q.resolutionTimes.value).value);
      }
    case NumAccounts =>
      if q.accounts.Success? { AccountSamplesInOrder(q.accounts.value); }
    case NumPosts =>
  }

  /** The queried families whose flag is set. */
  function FlagSet(fa: bool, fb: bool, fc: bool, fd: bool): set<Family>
  {
    (if fa then {NumReports} else {}) + (if fb then {ResolvedTimeSeconds} else {})
      + (if fc then {NumAccounts} else {}) + (if fd then {NumPosts} else {})
  }

  lemma FlagsCardinality(fa: bool, fb: bool, fc: bool, fd: bool)
    ensures |FlagSet(fa, fb, fc, fd)|
      == (if fa then 1 else 0) + (if fb then 1 else 0) + (if fc then 1 else 0) + (if fd then 1 else 0)
  {
    var a: set<Family> := if fa then {NumReports} else {};
    var b: set<Family> := if fb then {ResolvedTimeSeconds} else {};
    var c: set<Family> := if fc then {NumAccounts} else {};
    var d: set<Family> := if fd then {NumPosts} else {};
    assert |a + b| == |a| + |b| by { assert a * b == {}; }
    assert |a + b + c| == |a + b| + |c| by { assert (a + b) * c == {}; }
    assert |a + b + c + d| == |a + b + c| + |d| by { assert (a + b + c) * d == {}; }
  }

  lemma FailedFamiliesByFlags(q: Queries)
    ensures FailedFamilies(q) == FlagSet(
      FamilyResult(q, NumReports).Failure?, FamilyResult(q, ResolvedTimeSeconds).Failure?,
      FamilyResult(q, NumAccounts).Failure?, FamilyResult(q, NumPosts).Failure?)
  {
    forall f
      ensures f in FailedFamilies(q) <==> f in FlagSet(
        FamilyResult(q, NumReports).Failure?, FamilyResult(q, ResolvedTimeSeconds).Failure?,
        FamilyResult(q, NumAccounts).Failure?, FamilyResult(q, NumPosts).Failure?)
    {
      match f
      case NumReports => assert QueriedFamilies[0] == f;
      case ResolvedTimeSeconds => assert QueriedFamilies[1] == f;
      case NumAccounts => assert QueriedFamilies[2] == f;
      case NumPosts => assert QueriedFamilies[3] == f;
      case Errors =>
    }
  }

  lemma FamilyRun(q: Queries, f: Family)
    requires f != Errors
    ensures OfFamily(Emitted(FamilyResult(q, f)), f)
  {
    FamilyResultOwnSamples(q, f);
    OfFamilyIntro(Emitted(FamilyResult(q, f)), f);
  }

  /** The error tally is the number of families whose query failed, so it
      lies between 0 and 4 and is 0 exactly when no family failed. */
  lemma ErrorsCountFailedFamilies(q: Queries)
    ensures NumErrors(q) == |FailedFamilies(q)| <= 4
    ensures NumErrors(q) == 0 <==> FailedFamilies(q) == {}
  {
    FailedFamiliesByFlags(q);
    FlagsCardinality(FamilyResult(q, NumReports).Failure?, FamilyResult(q, ResolvedTimeSeconds).Failure?,
      FamilyResult(q, NumAccounts).Failure?, FamilyResult(q, NumPosts).Failure?);
  }

  /** Five consecutive single-family runs, filtered by family, give back
      the run of that family. */
  lemma SamplesOfRuns(e1: seq<Metric>, e2: seq<Metric>, e3: seq<Metric>, e4: seq<Metric>,
                      e5: seq<Metric>, f: Family)
    requires OfFamily(e1, NumReports) && OfFamily(e2, ResolvedTimeSeconds)
    requires OfFamily(e3, NumAccounts) && OfFamily(e4, NumPosts) && OfFamily(e5, Errors)
    ensures SamplesOf(e1 + e2 + e3 + e4 + e5, f) ==
      match f
      case NumReports => e1
      case ResolvedTimeSeconds => e2
      case NumAccounts => e3
      case NumPosts => e4
      case Errors => e5
  {
    SamplesOfSingleFamily(e1, f, NumReports);
    SamplesOfExtend(e1, e2, f, ResolvedTimeSeconds);
    SamplesOfExtend(e1 + e2, e3, f, NumAccounts);
    SamplesOfExtend(e1 + e2 + e3, e4, f, NumPosts);
    SamplesOfExtend(e1 + e2 + e3 + e4, e5, f, Errors);
  }

  /** The `errors` gauge is the last sample of every scrape and the only one
      of its family, whatever failed. */
  lemma ErrorsGaugeLast(q: Queries)
    ensures |ScrapeOutput(q)| >= 1
    ensures ScrapeOutput(q)[|ScrapeOutput(q)| - 1] == ErrorsGauge(NumErrors(q))
    ensures SamplesOf(ScrapeOutput(q), Errors) == [ErrorsGauge(NumErrors(q))]
  {
    FamilyIsolation(q, Errors);
  }

  /** Per family, a scrape emits exactly what that family's own query
      produced: nothing when it failed, all of its samples when it succeeded;
      the `errors` family holds just the tally. */
  lemma FamilyIsolation(q: Queries, f: Family)
    ensures SamplesOf(ScrapeOutput(q), f) ==
      if f == Errors then [ErrorsGauge(NumErrors(q))] else Emitted(FamilyResult(q, f))
  {
    var e1 := Emitted(FamilyResult(q, NumReports));
    var e2 := Emitted(FamilyResult(q, ResolvedTimeSeconds));
    var e3 := Emitted(FamilyResult(q, NumAccounts));
    var e4 := Emitted(FamilyResult(q, NumPosts));
    var e5 := [ErrorsGauge(NumErrors(q))];
    FamilyRun(q, NumReports);
    FamilyRun(q, ResolvedTimeSeconds);
    FamilyRun(q, NumAccounts);
    FamilyRun(q, NumPosts);
    assert OfFamily(e5, Errors);
    SamplesOfRuns(e1, e2, e3, e4, e5, f);
    assert ScrapeOutput(q) == e1 + e2 + e3 + e4 + e5;
  }

  /** The queries `q` and `q'` agree on every family's query except `f`'s. */
  predicate SameQueriesExcept(q: Queries, q': Queries, f: Family)
  {
    match f
    case NumReports => q.(reports := q'.reports) == q'
    case ResolvedTimeSeconds => q.(resolutionTimes := q'.resolutionTimes) == q'
    case NumAccounts => q.(accounts := q'.accounts) == q'
    case NumPosts => q.(posts := q'.posts) == q'
    case Errors => q == q'
  }

  /** Changing one family's query, for instance to a failure, changes
      nothing that the other queried families emit. */
  lemma FailureIsolation(q: Queries, q': Queries, f: Family)
    requires SameQueriesExcept(q, q', f)
    ensures forall g :: g != Errors && g != f ==>
      SamplesOf(ScrapeOutput(q), g) == SamplesOf(ScrapeOutput(q'), g)
  {
    forall g | g != Errors && g != f
      ensures SamplesOf(ScrapeOutput(q), g) == SamplesOf(ScrapeOutput(q'), g)
    {
      assert FamilyResult(q, g) == FamilyResult(q', g);
      FamilyIsolation(q, g);
      FamilyIsolation(q', g);
    }
  }

  /** A failed report query leaves every other queried family's samples as
      they were. */
  lemma ReportsFailureLeavesOthers(q: Queries, g: Family)
    requires g != Errors && g != NumReports
    ensures SamplesOf(ScrapeOutput(q.(reports := Failure)), g) == SamplesOf(ScrapeOutput(q), g)
  {
    FailureIsolation(q.(reports := Failure), q, NumReports);
  }

  /** A successful post query yields exactly one unlabelled `num_posts`
      gauge carrying the post count; a failed one yields none. */
  lemma PostGauge(q: Queries)
    ensures q.posts.Success? ==>
      SamplesOf(ScrapeOutput(q), NumPosts) == [Gauge(NumPosts, [], q.posts.value)]
    ensures q.posts.Failure? ==> SamplesOf(ScrapeOutput(q), NumPosts) == []
  {
    FamilyIsolation(q, NumPosts);
  }

  lemma {:induction false} RankedConcat(a: seq<Metric>, b: seq<Metric>, r: nat)
    requires forall i, j :: 0 <= i < j < |a| ==> ScrapeRank(a[i].family) <= ScrapeRank(a[j].family)
    requires forall m :: m in a ==> ScrapeRank(m.family) <= r
    requires forall m :: m in b ==> ScrapeRank(m.family) == r
    ensures forall i, j :: 0 <= i < j < |a + b| ==>
      ScrapeRank((a + b)[i].family) <= ScrapeRank((a + b)[j].family)
  {
    forall i, j | 0 <= i < j < |a + b|
      ensures ScrapeRank((a + b)[i].family) <= ScrapeRank((a + b)[j].family)
    {
      if j >= |a| {
        assert (a + b)[j] in b;
        if i < |a| { assert (a + b)[i] in a; } else { assert (a + b)[i] in b; }
      }
    }
  }

  /** Families are emitted in a fixed order: reports, the resolution-time
      histogram, accounts, posts, and finally the error gauge. */
  lemma ScrapeOrder(q: Queries)
    ensures forall i, j :: 0 <= i < j < |ScrapeOutput(q)| ==>
      ScrapeRank(ScrapeOutput(q)[i].family) <= ScrapeRank(ScrapeOutput(q)[j].family)
  {
    var e1 := Emitted(FamilyResult(q, NumReports));
    var e2 := Emitted(FamilyResult(q, ResolvedTimeSeconds));
    var e3 := Emitted(FamilyResult(q, NumAccounts));
    var e4 := Emitted(FamilyResult(q, NumPosts));
    var e5 := [ErrorsGauge(NumErrors(q))];
    FamilyResultOwnSamples(q, NumReports);
    FamilyResultOwnSamples(q, ResolvedTimeSeconds);
    FamilyResultOwnSamples(q, NumAccounts);
    FamilyResultOwnSamples(q, NumPosts);
    RankedConcat([], e1, 0);
    assert [] + e1 == e1;
    RankedConcat(e1, e2, 1);
    RankedConcat(e1 + e2, e3, 2);
    RankedConcat(e1 + e2 + e3, e4, 3);
    RankedConcat(e1 + e2 + e3 + e4, e5, 4);
  }

  /** Every emitted sample has the kind and label arity of its family. */
  lemma ScrapeWellFormed(q: Queries)
    ensures forall m :: m in ScrapeOutput(q) ==> WellFormed(m)
  {
    FamilyResultOwnSamples(q, NumReports);
    FamilyResultOwnSamples(q, ResolvedTimeSeconds);
    FamilyResultOwnSamples(q, NumAccounts);
    FamilyResultOwnSamples(q, NumPosts);
  }

  /** When every query fails, the error gauge, with value 4, is all a scrape emits. */
  lemma AllFamiliesFail(q: Queries)
    requires q.reports.Failure? && q.resolutionTimes.Failure?
    requires q.accounts.Failure? && q.posts.Failure?
    ensures ScrapeOutput(q) == [ErrorsGauge(4)]
  {
  }

  /** When every query succeeds, a scrape emits ten samples and a zero error gauge. */
  lemma AllFamiliesSucceed(q: Queries)
    requires q.reports.Success? && ResolvedStats(q.resolutionTimes).Success?
    requires q.accounts.Success? && q.posts.Success?
    ensures |ScrapeOutput(q)| == 10
    ensures ScrapeOutput(q)[9] == ErrorsGauge(0)
  {
  }

  /** Sends the samples one at a time, in order, after those already sent. */
  method SendAll(sent: seq<Metric>, samples: seq<Metric>) returns (r: seq<Metric>)
    ensures r == sent + samples
  {
    r := sent;
    var k := 0;
    while k < |samples|
      invariant 0 <= k <= |samples|
      invariant r == sent + samples[..k]
    {
      r := r + [samples[k]];
      k := k + 1;
    }
    assert samples[..k] == samples;
  }

  /** The exporter. Of its state only the `errors` gauge changes while it runs. */
  class MastodonExporter {
    /** Current value of the `errors` gauge. */
    var errors: int

    constructor ()
      ensures errors == 0
    {
      errors := 0;
    }

    /** One scrape: every family in turn, then the error tally. */
    method Scrape(q: Queries) returns (emitted: seq<Metric>)
      modifies this
      ensures errors == NumErrors(q)
      ensures emitted == ScrapeOutput(q)
    {
      ghost var reports := Emitted(FamilyResult(q, NumReports));
      ghost var hist := Emitted(FamilyResult(q, ResolvedTimeSeconds));
      ghost var accountSamples := Emitted(FamilyResult(q, NumAccounts));
      ghost var posts := Emitted(FamilyResult(q, NumPosts));
      var numErrors := 0;
      emitted := [];

      if q.reports.Failure? {
        numErrors := numErrors + 1;
      } else {
        emitted := emitted + ReportSamples(q.reports.value);
      }
      assert emitted == reports && numErrors == ErrorOf(q, NumReports);

      var resolvedHist := GetResolvedStats(q.resolutionTimes);
      if resolvedHist.Failure? {
        numErrors := numErrors + 1;
      } else {
        emitted := emitted + [resolvedHist.value];
      }
      assert emitted == reports + hist;
      assert numErrors == ErrorOf(q, NumReports) + ErrorOf(q, ResolvedTimeSeconds);

      var accounts := GetNumAccounts(q.accounts);
      if accounts.Failure? {
        numErrors := numErrors + 1;
      } else {
        emitted := SendAll(emitted, accounts.value);
      }
      assert emitted == reports + hist + accountSamples;
      assert numErrors == ErrorOf(q, NumReports) + ErrorOf(q, ResolvedTimeSeconds)
        + ErrorOf(q, NumAccounts);

      if q.posts.Failure? {
        numErrors := numErrors + 1;
      } else {
        emitted := emitted + PostSamples(q.posts.value);
      }
      assert emitted == reports + hist + accountSamples + posts;
      assert numErrors == NumErrors(q);

      errors := numErrors;
      emitted := emitted + [ErrorsGauge(errors)];
    }
  }
}
