/**
 * scripts/analyze-benchmarks.py: the per-metric rankings of the editions'
 * benchmark results, the JSON summary the badges are made from, and the
 * medal and top-five selections of the Markdown report. The results are the
 * items of the `results` dict, in its insertion order. Its keys, the edition
 * names, are distinct: a later file for the same edition replaces the value
 * and keeps the first position. Metric values are reals.
 */
module AnalyzeBenchmarks {
  import opened Common
  import opened Seqs

  /** The fields of an edition's results the analysis reads; `None` for a missing or null field. */
  datatype EditionData = EditionData(
    status: Option<string>,
    tps1m: Option<real>,
    startupS: Option<real>,
    memoryMb: Option<real>,
    score: Option<real>)

  /** A ranking entry: the edition and its value for the metric. */
  type Entry = (string, real)

  datatype Metric = Tps | Startup | Memory | Score

  function ValueOf(data: EditionData, m: Metric): Option<real> {
    match m
    case Tps => data.tps1m
    case Startup => data.startupS
    case Memory => data.memoryMb
    case Score => data.score
  }

  /** TPS and score rank from high to low, startup time and memory from low to high. */
  predicate HigherIsBetter(m: Metric) { m == Tps || m == Score }

  predicate Completed(data: EditionData) { data.status == Some("completed") }

  /** The pairs the loop of `calculate_rankings` appends for `m`, in the order of `results`. */
  function Qualifying(results: seq<(string, EditionData)>, m: Metric): seq<Entry> {
    if |results| == 0 then []
    else
      var (edition, data) := results[|results| - 1];
      Qualifying(results[..|results| - 1], m)
      + (if Completed(data) && Truthy(ValueOf(data, m)) then [(edition, ValueOf(data, m).value)] else [])
  }

  /** One more result appends its pair to the qualifying ones, if it qualifies. */
  lemma QualifyingStep(results: seq<(string, EditionData)>, i: nat, m: Metric)
    requires i < |results|
    ensures Qualifying(results[..i + 1], m) == Qualifying(results[..i], m)
              + (if Completed(results[i].1) && Truthy(ValueOf(results[i].1, m))
                 then [(results[i].0, ValueOf(results[i].1, m).value)] else [])
  {
    assert results[..i + 1][..i] == results[..i];
  }

  /**
   * Exactly the completed editions with a truthy value enter a ranking, each
   * with its own value.
   */
  lemma {:induction false} QualifyingExactly(results: seq<(string, EditionData)>, m: Metric)
    ensures forall e :: e in Qualifying(results, m) ==>
              exists i :: 0 <= i < |results| && results[i].0 == e.0 && Completed(results[i].1)
                          && ValueOf(results[i].1, m) == Some(e.1) && e.1 != 0.0
    ensures forall i :: 0 <= i < |results| && Completed(results[i].1) && Truthy(ValueOf(results[i].1, m)) ==>
              (results[i].0, ValueOf(results[i].1, m).value) in Qualifying(results, m)
  {
    if |results| > 0 {
      var init := results[..|results| - 1];
      QualifyingExactly(init, m);
      assert forall i :: 0 <= i < |init| ==> init[i] == results[i];
    }
  }

  // ---------------------------------------------------------------------------
  // Stable sorting

  /** `a` may come before `b`: in descending order when `descending`, else ascending. */
  predicate Precedes(descending: bool, a: real, b: real) {
    if descending then a >= b else a <= b
  }

  ghost predicate Ranked(s: seq<Entry>, descending: bool) {
    forall i, j :: 0 <= i < j < |s| ==> Precedes(descending, s[i].1, s[j].1)
  }

  predicate HasValue(v: real, e: Entry) { e.1 == v }

  /** The entries with value `v`, in order: a stable sort keeps each of these subsequences. */
  function WithValue(s: seq<Entry>, v: real): seq<Entry> {
    Filter((e: Entry) => HasValue(v, e), s)
  }

  lemma WithValueAppend(a: seq<Entry>, b: seq<Entry>, v: real)
    ensures WithValue(a + b, v) == WithValue(a, v) + WithValue(b, v)
  {
    FilterAppend((e: Entry) => HasValue(v, e), a, b);
  }

  lemma WithValueNone(s: seq<Entry>, v: real)
    requires forall k :: 0 <= k < |s| ==> s[k].1 != v
    ensures WithValue(s, v) == []
  {
    FilterEmpty((e: Entry) => HasValue(v, e), s);
  }

  lemma WithValueSingle(x: Entry, v: real)
    ensures WithValue([x], v) == if x.1 == v then [x] else []
  {
    assert [x][1..] == [];
  }

  /** Where `sorted(..)` puts an entry with value `x` among `r`: after every entry that may precede it. */
  method InsertionPoint(r: seq<Entry>, x: real, descending: bool) returns (p: nat)
    requires Ranked(r, descending)
    ensures p <= |r|
    ensures forall q :: 0 <= q < p ==> Precedes(descending, r[q].1, x)
    ensures forall q :: p <= q < |r| ==> !Precedes(descending, r[q].1, x)
  {
    p := 0;
    while p < |r| && Precedes(descending, r[p].1, x)
      invariant p <= |r|
      invariant forall q :: 0 <= q < p ==> Precedes(descending, r[q].1, x)
    {
      p := p + 1;
    }
  }

  /** Inserting at that point keeps the order and puts the entry after its ties. */
  lemma InsertStable(r: seq<Entry>, p: nat, x: Entry, descending: bool, before: seq<Entry>)
    requires Ranked(r, descending) && p <= |r|
    requires forall q :: 0 <= q < p ==> Precedes(descending, r[q].1, x.1)
    requires forall q :: p <= q < |r| ==> !Precedes(descending, r[q].1, x.1)
    requires forall v :: WithValue(r, v) == WithValue(before, v)
    ensures Ranked(r[..p] + [x] + r[p..], descending)
    ensures forall v :: WithValue(r[..p] + [x] + r[p..], v) == WithValue(before + [x], v)
  {
    var s := r[..p] + [x] + r[p..];
    forall i, j | 0 <= i < j < |s| ensures Precedes(descending, s[i].1, s[j].1) {
      if i < p && j > p {
        assert s[i] == r[i] && s[j] == r[j - 1];
      } else if i < p && j < p {
        assert s[i] == r[i] && s[j] == r[j];
      } else if i > p {
        assert s[i] == r[i - 1] && s[j] == r[j - 1];
      }
    }
    forall v ensures WithValue(s, v) == WithValue(before + [x], v) {
      assert r == r[..p] + r[p..];
      WithValueAppend(r[..p], r[p..], v);
      WithValueAppend(r[..p] + [x], r[p..], v);
      WithValueAppend(r[..p], [x], v);
      WithValueAppend(before, [x], v);
      WithValueSingle(x, v);
      if x.1 == v {
        WithValueNone(r[p..], v);
      }
    }
  }

  /**
   * Python's `sorted` on the values, from best to worst: the result is
   * ordered, is a permutation of the input, and entries with equal values
   * keep their input order.
   */
  method SortedBy(entries: seq<Entry>, descending: bool) returns (r: seq<Entry>)
    ensures Ranked(r, descending)
    ensures multiset(r) == multiset(entries)
    ensures forall v :: WithValue(r, v) == WithValue(entries, v)
  {
    r := [];
    for i := 0 to |entries|
      invariant Ranked(r, descending)
      invariant multiset(r) == multiset(entries[..i])
      invariant forall v :: WithValue(r, v) == WithValue(entries[..i], v)
    {
      var x := entries[i];
      var p := InsertionPoint(r, x.1, descending);
      InsertStable(r, p, x, descending, entries[..i]);
      assert entries[..i + 1] == entries[..i] + [x];
      assert r == r[..p] + r[p..];
      r := r[..p] + [x] + r[p..];
    }
    assert entries[..|entries|] == entries;
  }

  // ---------------------------------------------------------------------------
  // calculate_rankings

  datatype Rankings = Rankings(tps: seq<Entry>, startup: seq<Entry>, memory: seq<Entry>, score: seq<Entry>)

  function RankingOf(rankings: Rankings, m: Metric): seq<Entry> {
    match m
    case Tps => rankings.tps
    case Startup => rankings.startup
    case Memory => rankings.memory
    case Score => rankings.score
  }

  /** A ranking is the stable sort of the qualifying pairs for its metric. */
  ghost predicate RankingFor(ranking: seq<Entry>, results: seq<(string, EditionData)>, m: Metric) {
    && Ranked(ranking, HigherIsBetter(m))
    && multiset(ranking) == multiset(Qualifying(results, m))
    && forall v :: WithValue(ranking, v) == WithValue(Qualifying(results, m), v)
  }

  /** The sort of `calculate_rankings` for one metric, in that metric's direction. */
  method RankBy(results: seq<(string, EditionData)>, qualifying: seq<Entry>, m: Metric) returns (r: seq<Entry>)
    requires qualifying == Qualifying(results, m)
    ensures RankingFor(r, results, m)
  {
    r := SortedBy(qualifying, HigherIsBetter(m));
  }

  method CalculateRankings(results: seq<(string, EditionData)>) returns (rankings: Rankings)
    ensures forall m :: RankingFor(RankingOf(rankings, m), results, m)
  {
    var tps: seq<Entry> := [];
    var startup: seq<Entry> := [];
    var memory: seq<Entry> := [];
    var score: seq<Entry> := [];
    for i := 0 to |results|
      invariant tps == Qualifying(results[..i], Tps) && startup == Qualifying(results[..i], Startup)
      invariant memory == Qualifying(results[..i], Memory) && score == Qualifying(results[..i], Score)
    {
      QualifyingStep(results, i, Tps);
      QualifyingStep(results, i, Startup);
      QualifyingStep(results, i, Memory);
      QualifyingStep(results, i, Score);
      var (edition, data) := results[i];
      if Completed(data) {
        if Truthy(data.tps1m) {
          tps := tps + [(edition, data.tps1m.value)];
        }
        if Truthy(data.startupS) {
          startup := startup + [(edition, data.startupS.value)];
        }
        if Truthy(data.memoryMb) {
          memory := memory + [(edition, data.memoryMb.value)];
        }
        if Truthy(data.score) {
          score := score + [(edition, data.score.value)];
        }
      }
    }
    assert results[..|results|] == results;
    tps := RankBy(results, tps, Tps);
    startup := RankBy(results, startup, Startup);
    memory := RankBy(results, memory, Memory);
    score := RankBy(results, score, Score);
    rankings := Rankings(tps, startup, memory, score);
    forall m ensures RankingFor(RankingOf(rankings, m), results, m) {
      match m
      case Tps =>
      case Startup =>
      case Memory =>
      case Score =>
    }
  }

  // ---------------------------------------------------------------------------
  // The leader of a ranking

  /** `ranking[0][0] if ranking else None`. */
  function Leader(ranking: seq<Entry>): (r: Option<string>)
    ensures r.None? <==> |ranking| == 0
  {
    if |ranking| == 0 then None else Some(ranking[0].0)
  }

  /**
   * The first entry of a ranking has the best value of all qualifying pairs,
   * and among the pairs with that value it is the first in results order.
   */
  lemma LeaderIsBest(ranking: seq<Entry>, results: seq<(string, EditionData)>, m: Metric)
    requires RankingFor(ranking, results, m)
    ensures |ranking| == |Qualifying(results, m)|
    ensures |ranking| > 0 ==> ranking[0] in Qualifying(results, m)
    ensures |ranking| > 0 ==> forall e :: e in Qualifying(results, m) ==> Precedes(HigherIsBetter(m), ranking[0].1, e.1)
    ensures |ranking| > 0 ==> ranking[0] == WithValue(Qualifying(results, m), ranking[0].1)[0]
  {
    var q := Qualifying(results, m);
    assert |multiset(ranking)| == |multiset(q)|;
    if |ranking| > 0 {
      assert ranking[0] in multiset(ranking);
      forall e | e in q ensures Precedes(HigherIsBetter(m), ranking[0].1, e.1) {
        assert e in multiset(ranking);
        var j :| 0 <= j < |ranking| && ranking[j] == e;
        if j > 0 {
          assert Precedes(HigherIsBetter(m), ranking[0].1, ranking[j].1);
        }
      }
      var v := ranking[0].1;
      assert WithValue(ranking, v) == [ranking[0]] + WithValue(ranking[1..], v);
    }
  }

  // ---------------------------------------------------------------------------
  // generate_json_summary

  /** An element of `summary["editions"]`. */
  datatype EditionSummary = EditionSummary(
    score: Option<real>,
    tps: Option<real>,
    memoryMb: Option<real>,
    startupS: Option<real>,
    status: Option<string>)

  /** `summary["best"]`. */
  datatype Best = Best(overall: Option<string>, tps: Option<string>, memory: Option<string>, startup: Option<string>)

  /** `summary.json` without its timestamp. */
  datatype Summary = Summary(editions: map<string, EditionSummary>, best: Best)

  function SummaryOf(data: EditionData): EditionSummary {
    EditionSummary(data.score, data.tps1m, data.memoryMb, data.startupS, data.status)
  }

  /**
   * `generate_json_summary`: the best edition of each ranking (`None` for an
   * empty one), and an entry for every loaded edition whatever its status.
   */
  method GenerateJsonSummary(results: seq<(string, EditionData)>, rankings: Rankings) returns (summary: Summary)
    ensures summary.best == Best(Leader(rankings.score), Leader(rankings.tps), Leader(rankings.memory),
                                 Leader(rankings.startup))
    ensures forall i :: 0 <= i < |results| ==> results[i].0 in summary.editions
    ensures forall e :: e in summary.editions ==>
              exists i :: 0 <= i < |results| && results[i].0 == e && summary.editions[e] == SummaryOf(results[i].1)
  {
    var editions: map<string, EditionSummary> := map[];
    for i := 0 to |results|
      invariant forall k :: 0 <= k < i ==> results[k].0 in editions
      invariant forall e :: e in editions ==>
                  exists k :: 0 <= k < i && results[k].0 == e && editions[e] == SummaryOf(results[k].1)
    {
      editions := editions[results[i].0 := SummaryOf(results[i].1)];
    }
    summary := Summary(editions, Best(Leader(rankings.score), Leader(rankings.tps), Leader(rankings.memory),
                                      Leader(rankings.startup)));
  }

  // ---------------------------------------------------------------------------
  // The Markdown report's selections

  const Medals: seq<string> := ["\U{1F947}", "\U{1F948}", "\U{1F949}"]

  /** The medal of `edition`: the first of the top three of the score ranking that is `edition` decides it. */
  method MedalFor(scoreRanking: seq<Entry>, edition: string) returns (medal: string)
    ensures medal == "" <==> forall i :: 0 <= i < Min(3, |scoreRanking|) ==> scoreRanking[i].0 != edition
    ensures medal != "" ==> exists i :: 0 <= i < Min(3, |scoreRanking|) && scoreRanking[i].0 == edition
                                        && medal == Medals[i]
                                        && forall j :: 0 <= j < i ==> scoreRanking[j].0 != edition
  {
    medal := "";
    var top := scoreRanking[..Min(3, |scoreRanking|)];
    var i := 0;
    while i < |top|
      invariant i <= |top|
      invariant medal == ""
      invariant forall j :: 0 <= j < i ==> top[j].0 != edition
    {
      if top[i].0 == edition {
        medal := Medals[i];
        return;
      }
      i := i + 1;
    }
  }

  /** `ranking[:5]`: the entries a ranking section lists. */
  function TopFive(ranking: seq<Entry>): (r: seq<Entry>)
    ensures |r| == Min(5, |ranking|)
    ensures forall k :: 0 <= k < |r| ==> r[k] == ranking[k]
  {
    ranking[..Min(5, |ranking|)]
  }
}
