// The search and classification gate: the scores of a row, their means whole and by group, and the
// baseline a run is recorded in and later judged against. Scores are exact reals here.

module SearchEval {
  import opened Options

  // ---------------------------------------------------------------------------------------
  // Scores of one row
  // ---------------------------------------------------------------------------------------

  predicate Share(x: real) {
    0.0 <= x <= 1.0
  }

  function Found(expected: seq<string>, top: set<string>): nat {
    if expected == [] then 0
    else Found(expected[..|expected| - 1], top) + if expected[|expected| - 1] in top then 1 else 0
  }

  function Top(predicted: seq<string>, k: nat): set<string> {
    if k < |predicted| then set key | key in predicted[..k] else set key | key in predicted
  }

  function RecallAtK(expected: seq<string>, predicted: seq<string>, k: nat): real {
    if expected == [] then if predicted == [] then 1.0 else 0.0
    else Found(expected, Top(predicted, k)) as real / |expected| as real
  }

  lemma {:induction false} FoundGrows(expected: seq<string>, top: set<string>, more: set<string>)
    requires top <= more
    ensures Found(expected, top) <= Found(expected, more) <= |expected|
  {
    if expected != [] {
      FoundGrows(expected[..|expected| - 1], top, more);
    }
  }

  lemma {:induction false} FoundSays(expected: seq<string>, top: set<string>)
    ensures Found(expected, top) == |expected| <==> forall i :: 0 <= i < |expected| ==> expected[i] in top
    ensures Found(expected, top) == 0 <==> forall i :: 0 <= i < |expected| ==> expected[i] !in top
  {
    if expected != [] {
      FoundSays(expected[..|expected| - 1], top);
      FoundGrows(expected[..|expected| - 1], top, top);
    }
  }

  lemma Quotient(a: nat, b: nat, n: nat)
    requires a <= b <= n && 0 < n
    ensures Share(a as real / n as real) && a as real / n as real <= b as real / n as real
    ensures a as real / n as real == 1.0 <==> a == n
    ensures a as real / n as real == 0.0 <==> a == 0
  {
    var x, y := a as real / n as real, b as real / n as real;
    assert x * n as real == a as real && y * n as real == b as real;
  }

  // The key is one of the first k answers.
  predicate AmongFirst(key: string, predicted: seq<string>, k: nat) {
    exists i :: 0 <= i < |predicted| && i < k && predicted[i] == key
  }

  lemma TopMeans(predicted: seq<string>, k: nat, key: string)
    ensures key in Top(predicted, k) <==> AmongFirst(key, predicted, k)
  {
    if k < |predicted| && key in predicted[..k] {
      var i :| 0 <= i < k && predicted[..k][i] == key;
      assert predicted[i] == key;
    }
    if AmongFirst(key, predicted, k) && k < |predicted| {
      var i :| 0 <= i < |predicted| && i < k && predicted[i] == key;
      assert predicted[..k][i] == key;
    }
  }

  lemma TimesBack(x: real, n: real)
    requires n != 0.0
    ensures x / n * n == x
  {
  }

  // Recall is a share that never falls as more answers are read; it is 1 exactly when every expected
  // key is among the first k, and 0 exactly when none is. A question with no answer is right only
  // when nothing came back.
  lemma RecallMeans(expected: seq<string>, predicted: seq<string>, k: nat, more: nat)
    requires k <= more
    ensures Share(RecallAtK(expected, predicted, k))
    ensures RecallAtK(expected, predicted, k) <= RecallAtK(expected, predicted, more)
    ensures expected != [] ==>
              (RecallAtK(expected, predicted, k) == 1.0 <==>
               forall key :: key in expected ==> AmongFirst(key, predicted, k))
    ensures expected != [] ==>
              (RecallAtK(expected, predicted, k) == 0.0 <==>
               forall key :: key in expected ==> !AmongFirst(key, predicted, k))
    ensures expected == [] ==> (RecallAtK(expected, predicted, k) == 1.0 <==> predicted == [])
  {
    if expected != [] {
      forall key
        ensures key in Top(predicted, k) <==> AmongFirst(key, predicted, k)
      {
        TopMeans(predicted, k, key);
      }
      TopGrows(predicted, k, more);
      FoundGrows(expected, Top(predicted, k), Top(predicted, more));
      FoundSays(expected, Top(predicted, k));
      Quotient(Found(expected, Top(predicted, k)), Found(expected, Top(predicted, more)), |expected|);
    }
  }

  // Each expected key carries the same weight, once for every time it is expected.
  lemma RecallMoves(expected: seq<string>, key: string, predicted: seq<string>, k: nat)
    ensures RecallAtK(expected + [key], predicted, k) * (|expected| + 1) as real ==
            (if expected == [] then 0.0 else RecallAtK(expected, predicted, k) * |expected| as real) +
            if AmongFirst(key, predicted, k) then 1.0 else 0.0
  {
    var all := expected + [key];
    assert all[..|expected|] == expected;
    TimesBack(Found(all, Top(predicted, k)) as real, (|expected| + 1) as real);
    if expected != [] {
      TimesBack(Found(expected, Top(predicted, k)) as real, |expected| as real);
    }
    TopMeans(predicted, k, key);
  }

  lemma TopGrows(predicted: seq<string>, k: nat, more: nat)
    requires k <= more
    ensures Top(predicted, k) <= Top(predicted, more)
  {
    if more < |predicted| {
      assert predicted[..k] == predicted[..more][..k];
    }
  }

  // The first answer that is expected stands at place i.
  predicate FirstHit(expected: seq<string>, predicted: seq<string>, i: nat) {
    i < |predicted| && predicted[i] in expected && forall j :: 0 <= j < i ==> predicted[j] !in expected
  }

  method ReciprocalRank(expected: seq<string>, predicted: seq<string>) returns (score: real)
    ensures Share(score)
    ensures expected == [] ==> score == if predicted == [] then 1.0 else 0.0
    ensures expected != [] && (forall key :: key in predicted ==> key !in expected) ==> score == 0.0
    ensures forall i: nat :: FirstHit(expected, predicted, i) ==> score == 1.0 / (i + 1) as real
  {
    if expected == [] {
      return if predicted == [] then 1.0 else 0.0;
    }
    for i := 0 to |predicted|
      invariant forall j :: 0 <= j < i ==> predicted[j] !in expected
    {
      if predicted[i] in expected {
        Quotient(1, 1, i + 1);
        assert forall j: nat :: FirstHit(expected, predicted, j) ==> j == i;
        return 1.0 / (i + 1) as real;
      }
    }
    return 0.0;
  }

  function Jaccard(a: set<string>, b: set<string>): real {
    if a + b == {} then 1.0 else |a * b| as real / |a + b| as real
  }

  lemma JaccardMeans(a: set<string>, b: set<string>)
    ensures Share(Jaccard(a, b)) && Jaccard(a, b) == Jaccard(b, a)
    ensures Jaccard(a, b) == 1.0 <==> a == b
    ensures Jaccard(a, b) == 0.0 <==> a * b == {} && a + b != {}
    ensures Jaccard(a, b) * |a + b| as real == |a * b| as real
  {
    assert a + b == b + a && a * b == b * a;
    if a + b != {} {
      var apart := (a + b) - a * b;
      assert a + b == apart + a * b;
      Quotient(|a * b|, |a * b|, |a + b|);
      if |a * b| == |a + b| {
        assert apart == {};
        assert a + b == a * b;
      }
    }
  }

  lemma PartOf(x: real, whole: real)
    requires 0.0 <= x <= whole && 0.0 < whole
    ensures Share(x / whole) && (x / whole == 1.0 <==> x == whole)
  {
    NotOver(x, whole);
    NotUnder(x, whole);
    OneOnly(x, whole);
  }

  lemma NotOver(x: real, whole: real)
    requires x <= whole && 0.0 < whole
    ensures x / whole <= 1.0
  {
  }

  lemma NotUnder(x: real, whole: real)
    requires 0.0 <= x && 0.0 < whole
    ensures 0.0 <= x / whole
  {
  }

  lemma OneOnly(x: real, whole: real)
    requires 0.0 < whole
    ensures x / whole == 1.0 <==> x == whole
  {
  }

  // The terms a row expects in one dimension and those predicted there.
  datatype Dimension = Dimension(expected: set<string>, predicted: set<string>)

  function Agreement(dimensions: seq<Dimension>): real {
    if dimensions == [] then 0.0
    else
      var last := dimensions[|dimensions| - 1];
      Agreement(dimensions[..|dimensions| - 1]) + Jaccard(last.expected, last.predicted)
  }

  // `mirrored`: a term of a dimension the row must not be given was sent, a miss however right the rest is.
  function ScopeAccuracy(dimensions: seq<Dimension>, mirrored: bool): real {
    if mirrored then 0.0 else if dimensions == [] then 1.0 else Agreement(dimensions) / |dimensions| as real
  }

  lemma {:induction false} AgreementIsPart(dimensions: seq<Dimension>)
    ensures 0.0 <= Agreement(dimensions) <= |dimensions| as real
    ensures Agreement(dimensions) == |dimensions| as real <==> forall d :: d in dimensions ==> d.expected == d.predicted
  {
    if dimensions != [] {
      var n := |dimensions| - 1;
      AgreementIsPart(dimensions[..n]);
      JaccardMeans(dimensions[n].expected, dimensions[n].predicted);
      assert dimensions == dimensions[..n] + [dimensions[n]];
    }
  }

  // The scope score is a share, and 1 exactly when no mirrored term was sent and every expected
  // dimension is met term for term.
  lemma ScopeAccuracyMeans(dimensions: seq<Dimension>, mirrored: bool)
    ensures Share(ScopeAccuracy(dimensions, mirrored))
    ensures ScopeAccuracy(dimensions, mirrored) == 1.0 <==> !mirrored && forall d :: d in dimensions ==>
            d.expected == d.predicted
  {
    AgreementIsPart(dimensions);
    if dimensions != [] {
      PartOf(Agreement(dimensions), |dimensions| as real);
    }
  }

  lemma AgreementMoves(dimensions: seq<Dimension>, dimension: Dimension)
    ensures Agreement(dimensions + [dimension]) ==
            Agreement(dimensions) + Jaccard(dimension.expected, dimension.predicted)
  {
    assert (dimensions + [dimension])[..|dimensions|] == dimensions;
  }

  // The agreement a score is the mean of.
  function Agreed(dimensions: seq<Dimension>): (agreed: real)
    ensures agreed == Agreement(dimensions)
  {
    if dimensions == [] then 0.0
    else
      TimesBack(Agreement(dimensions), |dimensions| as real);
      ScopeAccuracy(dimensions, false) * |dimensions| as real
  }

  // Each dimension carries the same weight; a mirrored term takes everything away.
  lemma ScopeAccuracyMoves(dimensions: seq<Dimension>, dimension: Dimension)
    ensures Agreed(dimensions + [dimension]) ==
            Agreed(dimensions) + Jaccard(dimension.expected, dimension.predicted)
    ensures ScopeAccuracy(dimensions, true) == 0.0
  {
    AgreementMoves(dimensions, dimension);
  }

  // ---------------------------------------------------------------------------------------
  // Means, whole and by group
  // ---------------------------------------------------------------------------------------

  datatype Track = Retrieval | Classification

  datatype Metric =
    | RecallAtTen | ReciprocalRankOf
    | ChangeType | Flags | ScopeTerms | Screen | InScope | StandardTerm

  function TrackOf(metric: Metric): Track {
    if metric.RecallAtTen? || metric.ReciprocalRankOf? then Retrieval else Classification
  }

  // Where the gate's own list names the metric.
  function Place(metric: Metric): nat {
    match metric
    case RecallAtTen => 0
    case ReciprocalRankOf => 1
    case ChangeType => 2
    case Flags => 3
    case ScopeTerms => 4
    case Screen => 5
    case InScope => 6
    case StandardTerm => 7
  }

  function MetricsOf(track: Track): (metrics: seq<Metric>)
    ensures forall metric :: metric in metrics <==> TrackOf(metric) == track
    ensures forall i, j :: 0 <= i < j < |metrics| ==> Place(metrics[i]) < Place(metrics[j])
  {
    match track
    case Retrieval => [RecallAtTen, ReciprocalRankOf]
    case Classification => [ChangeType, Flags, ScopeTerms, Screen, InScope, StandardTerm]
  }

  // A row's language or kind of text, and its score on every metric.
  datatype Row = Row(group: string, score: Metric -> real)

  function Total(rows: seq<Row>, metric: Metric): real {
    if rows == [] then 0.0 else Total(rows[..|rows| - 1], metric) + rows[|rows| - 1].score(metric)
  }

  function Mean(rows: seq<Row>, metric: Metric): real {
    if rows == [] then 0.0 else Total(rows, metric) / |rows| as real
  }

  // A mean weighted by how many rows it is of.
  function Weight(rows: seq<Row>, metric: Metric): (weight: real)
    ensures weight == Total(rows, metric)
  {
    |rows| as real * Mean(rows, metric)
  }

  lemma {:induction false} TotalIsPart(rows: seq<Row>, metric: Metric)
    requires forall i :: 0 <= i < |rows| ==> Share(rows[i].score(metric))
    ensures 0.0 <= Total(rows, metric) <= |rows| as real
  {
    if rows != [] {
      TotalIsPart(rows[..|rows| - 1], metric);
    }
  }

  // A mean of shares is a share.
  lemma MeanIsShare(rows: seq<Row>, metric: Metric)
    requires forall i :: 0 <= i < |rows| ==> Share(rows[i].score(metric))
    ensures Share(Mean(rows, metric))
  {
    if rows != [] {
      TotalIsPart(rows, metric);
      PartOf(Total(rows, metric), |rows| as real);
    }
  }

  lemma MeanIsOfTotal(rows: seq<Row>, metric: Metric)
    ensures Mean(rows, metric) * |rows| as real == Total(rows, metric)
  {
    if rows != [] {
      TimesBack(Total(rows, metric), |rows| as real);
    }
  }

  // Each row carries the same weight.
  lemma MeanMoves(rows: seq<Row>, row: Row, metric: Metric)
    ensures Mean([], metric) == 0.0
    ensures Mean(rows + [row], metric) * |rows + [row]| as real ==
            Mean(rows, metric) * |rows| as real + row.score(metric)
  {
    MeanIsOfTotal(rows, metric);
    MeanIsOfTotal(rows + [row], metric);
    assert (rows + [row])[..|rows|] == rows;
  }

  function OfGroup(rows: seq<Row>, group: string): seq<Row> {
    if rows == [] then []
    else OfGroup(rows[..|rows| - 1], group) + if rows[|rows| - 1].group == group then [rows[|rows| - 1]] else []
  }

  function Groups(rows: seq<Row>): set<string> {
    if rows == [] then {} else Groups(rows[..|rows| - 1]) + {rows[|rows| - 1].group}
  }

  ghost predicate Grouped(groups: map<string, seq<Row>>, rows: seq<Row>) {
    groups.Keys == Groups(rows) && forall group :: OfGroup(rows, group) == if group in groups then groups[group] else []
  }

  lemma GroupedStep(groups: map<string, seq<Row>>, rows: seq<Row>, row: Row)
    requires Grouped(groups, rows)
    ensures Grouped(groups[row.group := (if row.group in groups then groups[row.group] else []) + [row]], rows + [row])
  {
    assert (rows + [row])[..|rows|] == rows;
  }

  function Means(rows: seq<Row>, metrics: set<Metric>): map<Metric, real> {
    map metric | metric in metrics :: Mean(rows, metric)
  }

  method GroupRows(rows: seq<Row>) returns (groups: map<string, seq<Row>>)
    ensures Grouped(groups, rows)
  {
    groups := map[];
    for i := 0 to |rows|
      invariant Grouped(groups, rows[..i])
    {
      assert rows[..i + 1] == rows[..i] + [rows[i]];
      GroupedStep(groups, rows[..i], rows[i]);
      var group := rows[i].group;
      groups := groups[group := (if group in groups then groups[group] else []) + [rows[i]]];
    }
    assert rows[..|rows|] == rows;
  }

  // Every group with the mean of its own rows on every metric.
  method Breakdown(rows: seq<Row>, metrics: set<Metric>) returns (means: map<string, map<Metric, real>>)
    ensures means.Keys == Groups(rows)
    ensures forall group :: group in means ==> means[group] == Means(OfGroup(rows, group), metrics)
  {
    var groups := GroupRows(rows);
    means := map group | group in groups :: Means(groups[group], metrics);
    forall group | group in means
      ensures means[group] == Means(OfGroup(rows, group), metrics)
    {
      assert OfGroup(rows, group) == groups[group];
    }
  }

  // The groups' means, each weighted by how many rows it has.
  function Weighted(rows: seq<Row>, groups: seq<string>, metric: Metric): real {
    if groups == [] then 0.0
    else
      var n := |groups| - 1;
      Weighted(rows, groups[..n], metric) + Weight(OfGroup(rows, groups[n]), metric)
  }

  // The total of the rows of these groups.
  function TotalIn(rows: seq<Row>, groups: set<string>, metric: Metric): real {
    if rows == [] then 0.0
    else
      var n := |rows| - 1;
      TotalIn(rows[..n], groups, metric) + if rows[n].group in groups then rows[n].score(metric) else 0.0
  }

  lemma {:induction false} OneMoreGroup(rows: seq<Row>, groups: set<string>, group: string, metric: Metric)
    requires group !in groups
    ensures TotalIn(rows, groups + {group}, metric) == TotalIn(rows, groups, metric) +
            Total(OfGroup(rows, group), metric)
  {
    if rows != [] {
      var n := |rows| - 1;
      OneMoreGroup(rows[..n], groups, group, metric);
      var before := OfGroup(rows[..n], group);
      if rows[n].group == group {
        assert (before + [rows[n]])[..|before|] == before;
      } else {
        assert before + [] == before;
      }
    }
  }

  lemma {:induction false} AllGroups(rows: seq<Row>, groups: set<string>, metric: Metric)
    requires Groups(rows) <= groups
    ensures TotalIn(rows, groups, metric) == Total(rows, metric)
  {
    if rows != [] {
      AllGroups(rows[..|rows| - 1], groups, metric);
    }
  }

  lemma {:induction false} NoGroups(rows: seq<Row>, metric: Metric)
    ensures TotalIn(rows, {}, metric) == 0.0
  {
    if rows != [] {
      NoGroups(rows[..|rows| - 1], metric);
    }
  }

  function Members(groups: seq<string>): set<string> {
    set group | group in groups
  }

  lemma OneMoreMember(groups: seq<string>)
    requires groups != []
    ensures Members(groups) == Members(groups[..|groups| - 1]) + {groups[|groups| - 1]}
  {
    assert groups == groups[..|groups| - 1] + [groups[|groups| - 1]];
  }

  lemma {:induction false} WeightedIsTotal(rows: seq<Row>, groups: seq<string>, metric: Metric)
    requires forall i, j :: 0 <= i < j < |groups| ==> groups[i] != groups[j]
    ensures Weighted(rows, groups, metric) == TotalIn(rows, Members(groups), metric)
  {
    if groups == [] {
      NoGroups(rows, metric);
      assert Members(groups) == {};
    } else {
      var n := |groups| - 1;
      WeightedIsTotal(rows, groups[..n], metric);
      OneMoreGroup(rows, Members(groups[..n]), groups[n], metric);
      OneMoreMember(groups);
    }
  }

  // Weighted by group size, the groups' means recombine to the overall mean, in whatever order the
  // groups are listed.
  lemma GroupsRecombine(rows: seq<Row>, groups: seq<string>, metric: Metric)
    requires Members(groups) == Groups(rows)
    requires forall i, j :: 0 <= i < j < |groups| ==> groups[i] != groups[j]
    ensures Weighted(rows, groups, metric) == Weight(rows, metric)
  {
    WeightedIsTotal(rows, groups, metric);
    AllGroups(rows, Members(groups), metric);
  }

  // ---------------------------------------------------------------------------------------
  // The gate
  // ---------------------------------------------------------------------------------------

  // `recorded` is None where the file does not say.
  datatype TrackRecord = TrackRecord(recorded: Option<bool>, evaluator: string, rows: nat, recordedAt: string)

  // A metric is None while it is null in the file.
  datatype Baseline = Baseline(recorded: bool, tracks: map<Track, TrackRecord>, metrics: map<Metric, Option<real>>)

  datatype TrackResult = TrackResult(scored: bool, evaluator: string, isMock: bool, metrics: map<Metric, real>,
    rows: nat)

  predicate IsRecorded(b: Baseline, track: Track) {
    track in b.tracks && b.tracks[track].recorded == Some(true)
  }

  ghost predicate ValidBaseline(b: Baseline) {
    && (forall track: Track :: track in b.tracks && b.tracks[track].recorded.Some?)
    && (forall metric: Metric :: metric in b.metrics)
    && (b.recorded <==> IsRecorded(b, Retrieval) || IsRecorded(b, Classification))
    && forall metric: Metric :: IsRecorded(b, TrackOf(metric)) ==> b.metrics[metric].Some?
  }

  // Rounding to 4 decimals, a tie to the even neighbour.
  function Round4(x: real): real {
    var units := (x * 10000.0).Floor;
    var over := x * 10000.0 - units as real;
    (if over < 0.5 || (over == 0.5 && units % 2 == 0) then units else units + 1) as real / 10000.0
  }

  const HALF_UNIT := 0.00005

  lemma RoundsWithin(x: real)
    ensures x - HALF_UNIT <= Round4(x) <= x + HALF_UNIT
    ensures Share(x) ==> Share(Round4(x))
  {
    var units := (x * 10000.0).Floor;
    assert Round4(x) * 10000.0 == units as real || Round4(x) * 10000.0 == (units + 1) as real;
  }

  // The multiple of 0.0001 nearest to the score, and of two as near the even one.
  lemma RoundsToEven(x: real)
    ensures var units := (Round4(x) * 10000.0).Floor;
            && Round4(x) == units as real / 10000.0
            && x * 10000.0 - 0.5 <= units as real <= x * 10000.0 + 0.5
            && (units as real == x * 10000.0 - 0.5 || units as real == x * 10000.0 + 0.5 ==> units % 2 == 0)
  {
    var units := (x * 10000.0).Floor;
    assert Round4(x) * 10000.0 == units as real || Round4(x) * 10000.0 == (units + 1) as real;
  }

  predicate Real(result: TrackResult) {
    result.scored && !result.isMock
  }

  // A scored result has a mean for each metric of its track.
  ghost predicate Complete(track: Track, result: TrackResult) {
    Real(result) ==> forall metric: Metric :: TrackOf(metric) == track ==> metric in result.metrics
  }

  // The files hold a tolerance between 0 and 1 for every metric.
  ghost predicate Tolerances(tolerance: map<Metric, real>) {
    forall metric: Metric :: metric in tolerance && Share(tolerance[metric])
  }

  ghost predicate Judgeable(metrics: seq<Metric>, scores: map<Metric, real>, b: Baseline, tolerance: map<Metric,
                            real>)
  {
    forall metric :: metric in metrics ==>
      metric in scores && metric in tolerance && metric in b.metrics && b.metrics[metric].Some?
  }

  predicate UnderFloor(metric: Metric, scores: map<Metric, real>, b: Baseline, tolerance: map<Metric, real>)
    requires metric in scores && metric in tolerance && metric in b.metrics && b.metrics[metric].Some?
  {
    scores[metric] < b.metrics[metric].value - tolerance[metric]
  }

  // The track's own line when a recorded track has no real evaluator, and each metric under its floor.
  datatype Failure = NoEvaluator(track: Track) | Under(metric: Metric)

  // Metrics alone, each once, in the order of the gate's list.
  predicate Listed(failures: seq<Failure>) {
    && (forall i :: 0 <= i < |failures| ==> failures[i].Under?)
    && forall i, j :: 0 <= i < j < |failures| ==> Place(failures[i].metric) < Place(failures[j].metric)
  }

  function Unders(metrics: seq<Metric>, scores: map<Metric, real>, b: Baseline,
                  tolerance: map<Metric, real>): seq<Failure>
    requires Judgeable(metrics, scores, b, tolerance)
  {
    if metrics == [] then []
    else
      var n := |metrics| - 1;
      assert metrics[n] in metrics;
      Unders(metrics[..n], scores, b, tolerance) +
      if UnderFloor(metrics[n], scores, b, tolerance) then [Under(metrics[n])] else []
  }

  lemma {:induction false} UndersMean(metrics: seq<Metric>, scores: map<Metric, real>, b: Baseline,
                                      tolerance: map<Metric, real>)
    requires Judgeable(metrics, scores, b, tolerance)
    requires forall i, j :: 0 <= i < j < |metrics| ==> Place(metrics[i]) < Place(metrics[j])
    ensures var failures := Unders(metrics, scores, b, tolerance);
            && Listed(failures)
            && forall failure :: failure in failures <==>
               failure.Under? && failure.metric in metrics && UnderFloor(failure.metric, scores, b, tolerance)
  {
    if metrics != [] {
      var n := |metrics| - 1;
      UndersMean(metrics[..n], scores, b, tolerance);
      assert metrics == metrics[..n] + [metrics[n]];
      OneMoreUnder(metrics[..n], metrics[n], scores, b, tolerance, Unders(metrics[..n], scores, b, tolerance));
    }
  }

  lemma OneMoreUnder(metrics: seq<Metric>, metric: Metric, scores: map<Metric, real>, b: Baseline,
                     tolerance: map<Metric, real>, before: seq<Failure>)
    requires Judgeable(metrics + [metric], scores, b, tolerance) && metric in metrics + [metric]
    requires forall m :: m in metrics ==> m in metrics + [metric] && Place(m) < Place(metric)
    requires Listed(before)
    requires forall failure :: failure in before <==>
               failure.Under? && failure.metric in metrics && UnderFloor(failure.metric, scores, b, tolerance)
    ensures var failures := before + if UnderFloor(metric, scores, b, tolerance) then [Under(metric)] else [];
            && Listed(failures)
            && forall failure :: failure in failures <==>
               failure.Under? && failure.metric in metrics + [metric] &&
               UnderFloor(failure.metric, scores, b, tolerance)
  {
    assert forall i :: 0 <= i < |before| ==> before[i] in before;
    assert forall m :: m in metrics + [metric] <==> m in metrics || m == metric;
  }

  lemma TrackUnders(track: Track, scores: map<Metric, real>, b: Baseline, tolerance: map<Metric, real>)
    requires Judgeable(MetricsOf(track), scores, b, tolerance)
    ensures var failures := Unders(MetricsOf(track), scores, b, tolerance);
            && Listed(failures)
            && forall failure :: failure in failures <==>
               failure.Under? && TrackOf(failure.metric) == track &&
               failure.metric in MetricsOf(track) && UnderFloor(failure.metric, scores, b, tolerance)
  {
    UndersMean(MetricsOf(track), scores, b, tolerance);
  }

  method Decide(track: Track, result: TrackResult, b: Baseline, tolerance: map<Metric, real>)
    returns (failures: seq<Failure>)
    requires ValidBaseline(b) && Tolerances(tolerance) && Complete(track, result)
    ensures !IsRecorded(b, track) ==> failures == []
    ensures IsRecorded(b, track) && !Real(result) ==> failures == [NoEvaluator(track)]
    ensures IsRecorded(b, track) && Real(result) ==> Listed(failures)
    ensures IsRecorded(b, track) && Real(result) ==>
              forall failure :: failure in failures <==>
                failure.Under? && TrackOf(failure.metric) == track &&
                  UnderFloor(failure.metric, result.metrics, b, tolerance)
  {
    assert track in b.tracks;
    var recorded := b.tracks[track].recorded == Some(true);
    if !result.scored || result.isMock {
      return if recorded then [NoEvaluator(track)] else [];
    }
    if !recorded {
      return [];
    }
    failures := [];
    var metrics := MetricsOf(track);
    assert Judgeable(metrics, result.metrics, b, tolerance);
    for i := 0 to |metrics|
      invariant failures == Unders(metrics[..i], result.metrics, b, tolerance)
    {
      assert metrics[..i + 1][..i] == metrics[..i];
      var metric := metrics[i];
      assert metric in metrics;
      if result.metrics[metric] < b.metrics[metric].value - tolerance[metric] {
        failures := failures + [Under(metric)];
      }
    }
    assert metrics[..|metrics|] == metrics;
    TrackUnders(track, result.metrics, b, tolerance);
  }

  // One track of the baseline as a real result leaves it.
  function RecordTrack(b: Baseline, track: Track, result: TrackResult, stamp: string): Baseline
    requires Complete(track, result)
  {
    if !Real(result) then b
    else b.(tracks := b.tracks[track := TrackRecord(Some(true), result.evaluator, result.rows, stamp)],
            metrics := b.metrics + map metric | metric in MetricsOf(track) :: Some(Round4(result.metrics[metric])))
  }

  // Refused when there is nothing real to record.
  function Record(b: Baseline, results: map<Track, TrackResult>, stamp: string): Option<Baseline>
    requires forall track :: track in results ==> Complete(track, results[track])
  {
    if !exists track :: track in results && Real(results[track]) then None
    else
      var one := if Retrieval in results then RecordTrack(b, Retrieval, results[Retrieval], stamp) else b;
      var both := if Classification in results then RecordTrack(one, Classification, results[Classification], stamp)
        else one;
      Some(both.(recorded := IsRecorded(both, Retrieval) || IsRecorded(both, Classification)))
  }

  // Recording keeps a valid baseline valid: it marks exactly the tracks a real evaluator scored in
  // addition to those recorded before, with the rounded scores, and leaves the other track's alone.
  lemma RecordKeepsValid(b: Baseline, results: map<Track, TrackResult>, stamp: string)
    requires ValidBaseline(b)
    requires forall track :: track in results ==> Complete(track, results[track])
    requires Record(b, results, stamp).Some?
    ensures var after := Record(b, results, stamp).value;
            && ValidBaseline(after)
            && (forall track: Track :: IsRecorded(after, track) <==>
               (track in results && Real(results[track])) || IsRecorded(b, track))
            && forall metric: Metric ::
                 var track := TrackOf(metric);
                 after.metrics[metric] ==
                 if track in results && Real(results[track]) then Some(Round4(results[track].metrics[metric]))
                   else b.metrics[metric]
  {
    var one := if Retrieval in results then RecordTrack(b, Retrieval, results[Retrieval], stamp) else b;
    if Retrieval in results {
      TrackRecorded(b, Retrieval, results[Retrieval], stamp);
    }
    if Classification in results {
      TrackRecorded(one, Classification, results[Classification], stamp);
    }
    var after := Record(b, results, stamp).value;
    forall track: Track
      ensures IsRecorded(after, track) <==> (track in results && Real(results[track])) || IsRecorded(b, track)
    {
      assert track == Retrieval || track == Classification;
    }
  }

  // Nothing real is refused; and a recorded track says who scored it, on how many rows and when.
  lemma RecordSays(b: Baseline, results: map<Track, TrackResult>, stamp: string, track: Track)
    requires forall t :: t in results ==> Complete(t, results[t])
    ensures Record(b, results, stamp) == None <==> forall t :: t in results ==> !Real(results[t])
    ensures track in b.tracks && Record(b, results, stamp).Some? ==>
              var after := Record(b, results, stamp).value;
              track in after.tracks &&
                after.tracks[track] ==
                if track in results && Real(results[track])
                then TrackRecord(Some(true), results[track].evaluator, results[track].rows, stamp)
                else b.tracks[track]
  {
    assert track == Retrieval || track == Classification;
  }

  lemma TrackRecorded(b: Baseline, track: Track, result: TrackResult, stamp: string)
    requires Complete(track, result)
    requires forall other: Track :: other in b.tracks && b.tracks[other].recorded.Some?
    requires forall metric: Metric :: metric in b.metrics
    ensures var after := RecordTrack(b, track, result, stamp);
            && (forall other: Track :: other in after.tracks && after.tracks[other].recorded.Some?)
            && (forall other: Track :: IsRecorded(after, other) <==>
               (other == track && Real(result)) || IsRecorded(b, other))
            && (forall metric: Metric :: metric in after.metrics)
            && forall metric: Metric ::
                 after.metrics[metric] == if TrackOf(metric) == track && Real(result)
                   then Some(Round4(result.metrics[metric])) else b.metrics[metric]
  {
  }

  // After recording, the same scores fall under a floor on exactly the metrics whose rounding rose
  // by more than the tolerance; with a tolerance of at least half a unit of the fourth decimal none do.
  lemma SameScoresPass(b: Baseline, results: map<Track, TrackResult>, stamp: string, metric: Metric,
                       tolerance: map<Metric, real>)
    requires ValidBaseline(b) && Tolerances(tolerance)
    requires forall track :: track in results ==> Complete(track, results[track])
    requires TrackOf(metric) in results && Real(results[TrackOf(metric)])
    ensures Record(b, results, stamp).Some?
    ensures var after := Record(b, results, stamp).value;
            var scores := results[TrackOf(metric)].metrics;
            && ValidBaseline(after) && IsRecorded(after, TrackOf(metric))
            && (UnderFloor(metric, scores, after, tolerance) <==>
               tolerance[metric] < Round4(scores[metric]) - scores[metric])
            && (HALF_UNIT <= tolerance[metric] ==> !UnderFloor(metric, scores, after, tolerance))
  {
    assert Real(results[TrackOf(metric)]);
    RecordKeepsValid(b, results, stamp);
    RoundsWithin(results[TrackOf(metric)].metrics[metric]);
  }

  // No smaller tolerance will do: this score rounds up by half a unit.
  lemma HalfUnitIsReached()
    ensures Share(0.00015) && Round4(0.00015) - 0.00015 == HALF_UNIT
  {
    assert (0.00015 * 10000.0).Floor == 1;
  }
}
