/** The metric values an exporter scrape produces: the five metric families
    declared when the exporter is built, and the samples emitted for them. */
module Metrics {

  /** The metric families of the exporter, named `mastodon_exporter_<suffix>`:
      num_accounts, num_posts, num_reports, resolved_time_seconds and errors. */
  datatype Family = NumAccounts | NumPosts | NumReports | ResolvedTimeSeconds | Errors

  /** The variable label names each family is declared with. */
  function LabelNames(f: Family): seq<string>
  {
    match f
    case NumAccounts => ["type"]
    case NumReports => ["resolved"]
    case _ => []
  }

  /** One emitted sample: a gauge with concrete label values and a value, or a
      cumulative histogram with its total count, sum and upper-bound counts. */
  datatype Metric =
    | Gauge(family: Family, labelValues: seq<string>, value: int)
    | Histogram(family: Family, count: nat, sum: real, buckets: map<real, nat>)

  /** A sample of the right shape: its family has the right kind and it
      carries one value per declared label (what the metrics library checks
      when it builds a constant sample), and, as the cumulative-histogram
      invariant requires, no bucket of a histogram exceeds the total count
      (the implicit +Inf bucket). */
  predicate WellFormed(m: Metric)
  {
    match m
    case Gauge(f, labelValues, _) =>
      f != ResolvedTimeSeconds && |labelValues| == |LabelNames(f)|
    case Histogram(f, count, _, buckets) =>
      f == ResolvedTimeSeconds && forall b :: b in buckets ==> buckets[b] <= count
  }

  /** Position of a family in the fixed order in which a scrape emits them. */
  function ScrapeRank(f: Family): nat
  {
    match f
    case NumReports => 0
    case ResolvedTimeSeconds => 1
    case NumAccounts => 2
    case NumPosts => 3
    case Errors => 4
  }

  /** The samples of `s` that belong to family `f`, in their order in `s`. */
  function SamplesOf(s: seq<Metric>, f: Family): seq<Metric>
  {
    if s == [] then []
    else (if s[0].family == f then [s[0]] else []) + SamplesOf(s[1..], f)
  }

  lemma {:induction false} SamplesOfAppend(a: seq<Metric>, b: seq<Metric>, f: Family)
    ensures SamplesOf(a + b, f) == SamplesOf(a, f) + SamplesOf(b, f)
  {
    if a != [] {
      assert (a + b)[0] == a[0];
      assert (a + b)[1..] == a[1..] + b;
      SamplesOfAppend(a[1..], b, f);
    } else {
      assert a + b == b;
    }
  }

  /** Every sample of `s` belongs to family `g`. */
  predicate OfFamily(s: seq<Metric>, g: Family)
  {
    s == [] || (s[0].family == g && OfFamily(s[1..], g))
  }

  lemma {:induction false} OfFamilyIntro(s: seq<Metric>, g: Family)
    requires forall m :: m in s ==> m.family == g
    ensures OfFamily(s, g)
  {
    if s != [] {
      assert s[0] in s;
      assert forall m :: m in s[1..] ==> m in s;
      OfFamilyIntro(s[1..], g);
    }
  }

  lemma {:induction false} SamplesOfSingleFamily(s: seq<Metric>, f: Family, g: Family)
    requires OfFamily(s, g)
    ensures SamplesOf(s, f) == if f == g then s else []
  {
    if s != [] {
      SamplesOfSingleFamily(s[1..], f, g);
    }
  }

  /** Appending a run of family `g` adds that run to `g`'s samples only. */
  lemma SamplesOfExtend(a: seq<Metric>, b: seq<Metric>, f: Family, g: Family)
    requires OfFamily(b, g)
    ensures SamplesOf(a + b, f) == SamplesOf(a, f) + if f == g then b else []
  {
    SamplesOfAppend(a, b, f);
    SamplesOfSingleFamily(b, f, g);
  }
}
