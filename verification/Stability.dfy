/**
 Whether publication debt was stable over the last three minutes of a measured window.
 */
module Stability {
  import opened Results
  import opened TrendLine

  datatype Progress = Progress(oldest: Option<real>, pending: real, retained: real)

  datatype Frontier = Frontier(error: bool, fenced: bool, tiered: int, proven: int, issued: int)

  /** One endpoint's metrics; only an owner reports a runtime, and progress is absent when it could not be read. */
  datatype Metrics = Metrics(
    unpublished: Option<real>, session: int, schema: int, elapsedNs: int,
    progress: Option<Progress>, frontier: Option<Frontier>)

  /** The endpoints observed at one point of the window. */
  type Snapshot = seq<Metrics>

  datatype Report = Unavailable | Available(pass: bool, debt: real, age: real, pending: real, retained: real)

  function Owners(s: Snapshot): seq<Metrics> {
    if s == [] then []
    else if s[0].unpublished.Some? then [s[0]] + Owners(s[1..])
    else Owners(s[1..])
  }

  function Seconds(m: Metrics): real {
    m.elapsedNs as real / 1_000_000_000.0
  }

  function Times(values: seq<Metrics>): (r: seq<real>)
    ensures |r| == |values|
  {
    seq(|values|, i requires 0 <= i < |values| => Seconds(values[i]))
  }

  /** Successive samples are a minute apart, within ten seconds. */
  predicate Punctual(times: seq<real>) {
    forall i :: 0 <= i < |times| - 1 ==> 50.0 <= times[i + 1] - times[i] <= 70.0
  }

  function Debt(m: Metrics): real {
    if m.unpublished.Some? then m.unpublished.value else 0.0
  }

  function Age(m: Metrics): real {
    if m.progress.Some? && m.progress.value.oldest.Some? then m.progress.value.oldest.value else 0.0
  }

  function Pending(m: Metrics): real {
    if m.progress.Some? then m.progress.value.pending else 0.0
  }

  function Retained(m: Metrics): real {
    if m.progress.Some? then m.progress.value.retained else 0.0
  }

  function Series(values: seq<Metrics>, f: Metrics -> real): (r: seq<real>)
    ensures |r| == |values|
  {
    seq(|values|, i requires 0 <= i < |values| => f(values[i]))
  }

  predicate FrontierOk(m: Metrics) {
    m.frontier.Some? ==>
      var f := m.frontier.value;
      !f.error && !f.fenced && f.tiered <= f.issued && f.proven <= f.issued
  }

  predicate FrontiersOk(values: seq<Metrics>) {
    forall i :: 0 <= i < |values| ==> FrontierOk(values[i])
  }

  lemma {:induction false} PunctualIncreases(times: seq<real>, i: nat, j: nat)
    requires Punctual(times) && i < j < |times|
    ensures times[i] < times[j]
    decreases j
  {
    if i + 1 < j {
      PunctualIncreases(times, i, j - 1);
    }
    assert 50.0 <= times[j - 1 + 1] - times[j - 1];
  }

  /** The observations a slope is fitted to: one owner in each of the last four, one process, on time, with progress. */
  predicate Usable(values: seq<Metrics>) {
    && |values| == 4
    && (forall i :: 0 <= i < |values| ==> values[i].session == values[0].session && values[i].schema == values[0].schema)
    && Punctual(Times(values))
    && (forall i :: 0 <= i < |values| ==> values[i].progress.Some?)
  }

  function Fitted(values: seq<Metrics>, f: Metrics -> real): real
    requires Usable(values)
  {
    var times := Times(values);
    assert Increasing(times) by {
      forall i, j | 0 <= i < j < |times| {
        PunctualIncreases(times, i, j);
      }
    }
    SpreadIsPositive(times);
    Slope(times, Series(values, f))
  }

  /** The last four points: the window's start, its minutes and its end, of which any may be missing. */
  function LastFour(points: seq<Option<Snapshot>>): Option<seq<Metrics>> {
    var n := |points|;
    if n < 4 || exists i :: 0 <= i < n && points[i].None? then None
    else if exists i :: n - 4 <= i < n && |Owners(points[i].value)| != 1 then None
    else Some(seq(4, i requires 0 <= i < 4 => Owners(points[n - 4 + i].value)[0]))
  }

  function StabilityReport(points: seq<Option<Snapshot>>): Report {
    match LastFour(points)
    case None => Unavailable
    case Some(values) =>
      if !Usable(values) then Unavailable
      else
        var debt, age := Fitted(values, Debt), Fitted(values, Age);
        Available(FrontiersOk(values) && debt <= 0.0 && age <= 0.0, debt, age,
                  Fitted(values, Pending), Fitted(values, Retained))
  }

  // ----- which observations count

  /** The snapshot's only endpoint with a runtime. */
  predicate SoleOwner(s: Snapshot, m: Metrics) {
    exists j :: 0 <= j < |s| && s[j] == m && m.unpublished.Some?
                && forall k :: 0 <= k < |s| && k != j ==> s[k].unpublished.None?
  }

  lemma {:induction false} NoOwners(s: Snapshot)
    ensures Owners(s) == [] <==> forall k :: 0 <= k < |s| ==> s[k].unpublished.None?
    decreases |s|
  {
    if s != [] {
      NoOwners(s[1..]);
      assert forall k :: 0 < k < |s| ==> s[k] == s[1..][k - 1];
    }
  }

  lemma {:induction false} SoleOwnerFound(s: Snapshot, m: Metrics)
    requires Owners(s) == [m]
    ensures SoleOwner(s, m)
    decreases |s|
  {
    var rest := s[1..];
    if s[0].unpublished.Some? {
      assert Owners(s)[0] == s[0] && Owners(s)[1..] == Owners(rest);
      NoOwners(rest);
      assert forall k :: 0 < k < |s| ==> s[k] == rest[k - 1];
    } else {
      SoleOwnerFound(rest, m);
      var j :| 0 <= j < |rest| && rest[j] == m && m.unpublished.Some?
               && forall k :: 0 <= k < |rest| && k != j ==> rest[k].unpublished.None?;
      assert s[j + 1] == m;
      assert forall k :: 0 < k < |s| ==> s[k] == rest[k - 1];
    }
  }

  lemma {:induction false} OwnersFound(s: Snapshot, m: Metrics, j: nat)
    requires j < |s| && s[j] == m && m.unpublished.Some?
    requires forall k :: 0 <= k < |s| && k != j ==> s[k].unpublished.None?
    ensures Owners(s) == [m]
    decreases |s|
  {
    var rest := s[1..];
    assert forall k :: 0 < k < |s| ==> s[k] == rest[k - 1];
    if j == 0 {
      NoOwners(rest);
    } else {
      OwnersFound(rest, m, j - 1);
    }
  }

  /** Every point is there, and each of the last four observed one owner. */
  ghost predicate Observes(points: seq<Option<Snapshot>>, w: seq<Metrics>) {
    && |points| >= 4 && |w| == 4
    && (forall i :: 0 <= i < |points| ==> points[i].Some?)
    && (forall i :: 0 <= i < 4 ==> SoleOwner(points[|points| - 4 + i].value, w[i]))
  }

  lemma OwnerOf(points: seq<Option<Snapshot>>, w: seq<Metrics>, k: nat)
    requires Observes(points, w) && k < 4
    ensures Owners(points[|points| - 4 + k].value) == [w[k]]
  {
    var s, m := points[|points| - 4 + k].value, w[k];
    assert SoleOwner(s, m);
    var j :| 0 <= j < |s| && s[j] == m && m.unpublished.Some?
             && forall k :: 0 <= k < |s| && k != j ==> s[k].unpublished.None?;
    OwnersFound(s, m, j);
  }

  lemma ObservesMeans(points: seq<Option<Snapshot>>, w: seq<Metrics>)
    ensures LastFour(points) == Some(w) <==> Observes(points, w)
  {
    var n := |points|;
    if Observes(points, w) {
      forall i | n - 4 <= i < n
        ensures Owners(points[i].value) == [w[i - (n - 4)]]
      {
        OwnerOf(points, w, i - (n - 4));
      }
      assert LastFour(points).value == w;
    }
    if LastFour(points) == Some(w) {
      forall i | 0 <= i < 4
        ensures SoleOwner(points[n - 4 + i].value, w[i])
      {
        assert |Owners(points[n - 4 + i].value)| == 1;
        SoleOwnerFound(points[n - 4 + i].value, w[i]);
      }
    }
  }

  /** One process, observed a minute apart within ten seconds, with its progress each time. */
  predicate Comparable(w: seq<Metrics>)
    requires |w| == 4
  {
    && (forall i :: 0 <= i < 3 ==> w[i].session == w[i + 1].session && w[i].schema == w[i + 1].schema)
    && (forall i :: 0 <= i < 3 ==> 50_000_000_000 <= w[i + 1].elapsedNs - w[i].elapsedNs <= 70_000_000_000)
    && (forall i :: 0 <= i < 4 ==> w[i].progress.Some?)
  }

  lemma Apart(a: Metrics, b: Metrics)
    ensures 50.0 <= Seconds(b) - Seconds(a) <= 70.0 <==> 50_000_000_000 <= b.elapsedNs - a.elapsedNs <= 70_000_000_000
  {
    assert Seconds(b) - Seconds(a) == (b.elapsedNs - a.elapsedNs) as real / 1_000_000_000.0;
  }

  lemma UsableMeans(w: seq<Metrics>)
    requires |w| == 4
    ensures Usable(w) <==> Comparable(w)
  {
    forall i | 0 <= i < 3
      ensures 50.0 <= Times(w)[i + 1] - Times(w)[i] <= 70.0 <==>
              50_000_000_000 <= w[i + 1].elapsedNs - w[i].elapsedNs <= 70_000_000_000
    {
      Apart(w[i], w[i + 1]);
    }
    OneProcess(w);
  }

  lemma OneProcess(w: seq<Metrics>)
    requires |w| == 4
    ensures (forall i :: 0 <= i < 4 ==> w[i].session == w[0].session && w[i].schema == w[0].schema) <==>
            forall i :: 0 <= i < 3 ==> w[i].session == w[i + 1].session && w[i].schema == w[i + 1].schema
  {
    if forall i :: 0 <= i < 3 ==> w[i].session == w[i + 1].session && w[i].schema == w[i + 1].schema {
      assert w[0].session == w[0 + 1].session && w[1].session == w[1 + 1].session && w[2].session == w[2 + 1].session;
    }
  }

  /** A report exists exactly if there are four such observations. */
  lemma AvailableMeans(points: seq<Option<Snapshot>>)
    ensures StabilityReport(points).Available? <==> exists w :: Observes(points, w) && Comparable(w)
  {
    if LastFour(points).Some? {
      var w := LastFour(points).value;
      ObservesMeans(points, w);
      UsableMeans(w);
    }
    if w :| Observes(points, w) && Comparable(w) {
      ObservesMeans(points, w);
      UsableMeans(w);
    }
  }

  // ----- what a verdict means

  lemma UsableTimes(values: seq<Metrics>)
    requires Usable(values)
    ensures Increasing(Times(values)) && Spread(Times(values)) > 0.0
  {
    var times := Times(values);
    forall i, j | 0 <= i < j < |times|
      ensures times[i] < times[j]
    {
      PunctualIncreases(times, i, j);
    }
    SpreadIsPositive(times);
  }

  /** A series of four samples of one quantity. */
  predicate Samples(w: seq<Metrics>, f: Metrics -> real, series: seq<real>) {
    |w| == |series| == 4 && forall i :: 0 <= i < 4 ==> series[i] == f(w[i])
  }

  ghost function DebtOf(): Metrics -> real {
    (m: Metrics) => if m.unpublished.Some? then m.unpublished.value else 0.0
  }

  /** The age of the oldest unpublished write; none counts as zero. */
  ghost function AgeOf(): Metrics -> real {
    (m: Metrics) => if m.progress.Some? && m.progress.value.oldest.Some? then m.progress.value.oldest.value else 0.0
  }

  ghost function PendingOf(): Metrics -> real {
    (m: Metrics) => if m.progress.Some? then m.progress.value.pending else 0.0
  }

  ghost function RetainedOf(): Metrics -> real {
    (m: Metrics) => if m.progress.Some? then m.progress.value.retained else 0.0
  }

  lemma SamplesAre(w: seq<Metrics>, f: Metrics -> real, g: Metrics -> real, series: seq<real>)
    requires Samples(w, f, series) && forall m :: f(m) == g(m)
    ensures Series(w, g) == series
  {
  }

  /** No frontier that was read shows an error, a fence, or anything beyond what was issued. */
  predicate Sound(w: seq<Metrics>) {
    forall i :: 0 <= i < |w| && w[i].frontier.Some? ==>
      var f := w[i].frontier.value;
      f.error == false && f.fenced == false && f.issued >= f.tiered && f.issued >= f.proven
  }

  /** The verdict passes exactly if the frontiers are sound and neither reported slope is positive. */
  lemma PassMeans(points: seq<Option<Snapshot>>, w: seq<Metrics>)
    requires StabilityReport(points).Available? && Observes(points, w)
    ensures var r := StabilityReport(points); r.pass <==> Sound(w) && r.debt <= 0.0 && r.age <= 0.0
  {
    ObservesMeans(points, w);
  }

  /** Debt or age that only grew over the last four points cannot pass. */
  lemma GrowthNeverPasses(points: seq<Option<Snapshot>>, w: seq<Metrics>, series: seq<real>)
    requires Observes(points, w) && (Samples(w, DebtOf(), series) || Samples(w, AgeOf(), series))
    requires Nondecreasing(series) && series[0] < series[3]
    ensures !(StabilityReport(points).Available? && StabilityReport(points).pass)
  {
    ObservesMeans(points, w);
    if StabilityReport(points).Available? {
      UsableTimes(w);
      GrowthShows(Times(w), series);
      if Samples(w, DebtOf(), series) {
        SamplesAre(w, DebtOf(), Debt, series);
      } else {
        SamplesAre(w, AgeOf(), Age, series);
      }
    }
  }

  /** Observations that are all there, comparable and sound, with debt and age that never rise, always pass. */
  lemma DeclineAlwaysPasses(points: seq<Option<Snapshot>>, w: seq<Metrics>, debt: seq<real>, age: seq<real>)
    requires Observes(points, w) && Comparable(w) && Sound(w)
    requires Samples(w, DebtOf(), debt) && Nonincreasing(debt) && Samples(w, AgeOf(), age) && Nonincreasing(age)
    ensures StabilityReport(points).Available? && StabilityReport(points).pass
  {
    ObservesMeans(points, w);
    UsableMeans(w);
    UsableTimes(w);
    SamplesAre(w, DebtOf(), Debt, debt);
    SamplesAre(w, AgeOf(), Age, age);
    DeclineShows(Times(w), debt);
    DeclineShows(Times(w), age);
  }

  /** The slope belongs to a line that fits the samples, in seconds, better than any line of another slope. */
  ghost predicate BestSlope(best: real, w: seq<Metrics>, series: seq<real>)
    requires |w| == |series| == 4
  {
    forall times: seq<real> ::
      |times| == 4 && (forall i :: 0 <= i < 4 ==> times[i] * 1_000_000_000.0 == w[i].elapsedNs as real) ==>
        exists intercept: real :: Fits(best, intercept, times, series)
  }

  ghost predicate Fits(best: real, level: real, times: seq<real>, series: seq<real>)
    requires |times| == |series|
  {
    forall slope: real, intercept: real ::
      && SquaredError(times, series, best, level) <= SquaredError(times, series, slope, intercept)
      && (slope != best ==> SquaredError(times, series, best, level) < SquaredError(times, series, slope, intercept))
  }

  lemma FittedIsBest(w: seq<Metrics>, f: Metrics -> real, series: seq<real>)
    requires Usable(w) && Series(w, f) == series
    ensures BestSlope(Fitted(w, f), w, series)
  {
    forall times: seq<real> | |times| == 4 && (forall i :: 0 <= i < 4 ==> times[i] * 1_000_000_000.0 == w[i].elapsedNs as real)
      ensures exists intercept: real :: Fits(Fitted(w, f), intercept, times, series)
    {
      assert times == Times(w);
      UsableTimes(w);
      var level := Intercept(times, series);
      forall slope: real, intercept: real
        ensures SquaredError(times, series, Fitted(w, f), level) <= SquaredError(times, series, slope, intercept)
        ensures slope != Fitted(w, f) ==>
                SquaredError(times, series, Fitted(w, f), level) < SquaredError(times, series, slope, intercept)
      {
        LeastSquares(times, series, slope, intercept);
      }
      assert Fits(Fitted(w, f), level, times, series);
    }
  }

  /** Each reported slope is that of the best-fitting line of its own quantity over the last four points. */
  lemma ReportedSlopesAreBest(points: seq<Option<Snapshot>>, w: seq<Metrics>, debt: seq<real>, age: seq<real>,
                              pending: seq<real>, retained: seq<real>)
    requires StabilityReport(points).Available? && Observes(points, w)
    requires Samples(w, DebtOf(), debt) && Samples(w, AgeOf(), age)
    requires Samples(w, PendingOf(), pending) && Samples(w, RetainedOf(), retained)
    ensures var r := StabilityReport(points);
            && BestSlope(r.debt, w, debt) && BestSlope(r.age, w, age)
            && BestSlope(r.pending, w, pending) && BestSlope(r.retained, w, retained)
  {
    ObservesMeans(points, w);
    SamplesAre(w, DebtOf(), Debt, debt);
    SamplesAre(w, AgeOf(), Age, age);
    SamplesAre(w, PendingOf(), Pending, pending);
    SamplesAre(w, RetainedOf(), Retained, retained);
    FittedIsBest(w, Debt, debt);
    FittedIsBest(w, Age, age);
    FittedIsBest(w, Pending, pending);
    FittedIsBest(w, Retained, retained);
  }
}
