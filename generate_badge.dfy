/**
 * scripts/generate-badge.py: the shields.io badges made from `summary.json`,
 * one for the best edition and one per edition. Python's rendering of a
 * float in an f-string is the parameter `render`.
 */
module GenerateBadge {
  import opened Common
  import opened AnalyzeBenchmarks

  /** The badge colours, from best to worst. */
  datatype Color = BrightGreen | Green | YellowGreen | Yellow | Orange | Red
  {
    /** The colour's name in the badge JSON. */
    function Name(): string {
      match this
      case BrightGreen => "brightgreen"
      case Green => "green"
      case YellowGreen => "yellowgreen"
      case Yellow => "yellow"
      case Orange => "orange"
      case Red => "red"
    }

    /** The colour's place in the list, 0 for the best. */
    function Rank(): nat {
      match this
      case BrightGreen => 0
      case Green => 1
      case YellowGreen => 2
      case Yellow => 3
      case Orange => 4
      case Red => 5
    }
  }

  /** `get_color_for_score`: bands of ten points from 90 down to 50, red below. */
  function ColorForScore(score: real): (r: Color)
    ensures r == BrightGreen <==> score >= 90.0
    ensures r == Green <==> 80.0 <= score < 90.0
    ensures r == YellowGreen <==> 70.0 <= score < 80.0
    ensures r == Yellow <==> 60.0 <= score < 70.0
    ensures r == Orange <==> 50.0 <= score < 60.0
    ensures r == Red <==> score < 50.0
  {
    if score >= 90.0 then BrightGreen
    else if score >= 80.0 then Green
    else if score >= 70.0 then YellowGreen
    else if score >= 60.0 then Yellow
    else if score >= 50.0 then Orange
    else Red
  }

  /** A higher score never gets a worse colour. */
  lemma ColorMonotone(lower: real, higher: real)
    requires lower <= higher
    ensures ColorForScore(higher).Rank() <= ColorForScore(lower).Rank()
  {
  }

  /** A shields.io endpoint badge; `subject` is its `label`. */
  datatype Badge = Badge(subject: string, message: string, color: Color)

  const SchemaVersion: int := 1

  /** `score or 0`: a null score counts as zero. */
  function ScoreOrZero(score: Option<real>): real { if score.Some? then score.value else 0.0 }

  /** `f"{score}/100" if score else "N/A"`. */
  function EditionMessage(score: Option<real>, render: real -> string): (r: string)
    ensures r == "N/A" <==> !Truthy(score)
  {
    if Truthy(score) then render(score.value) + "/100" else "N/A"
  }

  function EditionBadge(edition: string, score: Option<real>, render: real -> string): (r: Badge)
    ensures r.subject == edition && r.message == EditionMessage(score, render)
    ensures !Truthy(score) ==> r.color == Red && r.message == "N/A"
  {
    Badge(edition, EditionMessage(score, render), ColorForScore(ScoreOrZero(score)))
  }

  /** One badge per edition of the summary, keyed by edition. */
  function EditionBadges(editions: map<string, EditionSummary>, render: real -> string): (r: map<string, Badge>)
    ensures r.Keys == editions.Keys
    ensures forall e :: e in r ==> r[e].subject == e && r[e].message == EditionMessage(editions[e].score, render)
  {
    map e | e in editions :: EditionBadge(e, editions[e].score, render)
  }

  // ---------------------------------------------------------------------------
  // The best edition's badge

  /** What `editions.get(best, {}).get("score", 0)` gives: the int default, or the stored (possibly null) score. */
  datatype BestScore = DefaultZero | Stored(score: Option<real>)

  function BestScoreOf(summary: Summary, edition: Option<string>): BestScore {
    if edition.Some? && edition.value in summary.editions then Stored(summary.editions[edition.value].score)
    else DefaultZero
  }

  /** How an f-string shows the best score: `0` for the int default, `None` for null. */
  function ScoreText(s: BestScore, render: real -> string): string {
    match s
    case DefaultZero => "0"
    case Stored(None) => "None"
    case Stored(Some(v)) => render(v)
  }

  function BestColor(s: BestScore): Color {
    match s
    case DefaultZero => Red
    case Stored(v) => ColorForScore(ScoreOrZero(v))
  }

  /** How an f-string shows a possibly-null edition name. */
  function PythonStr(name: Option<string>): string { if name.Some? then name.value else "None" }

  /**
   * As the script is written: `summary.get("best", {}).get("overall",
   * "unknown")`. The summary always holds the key, so its default never
   * applies, and a null best edition stays null.
   */
  function BestBadgeAsWritten(summary: Summary, render: real -> string): (r: Badge)
    ensures r.message == PythonStr(summary.best.overall) + ": "
                         + ScoreText(BestScoreOf(summary, summary.best.overall), render) + "/100"
  {
    var edition := summary.best.overall;
    var score := BestScoreOf(summary, edition);
    Badge("benchmark", PythonStr(edition) + ": " + ScoreText(score, render) + "/100", BestColor(score))
  }

  /** With no scored edition the badge reads "None: 0/100" rather than naming "unknown". */
  lemma BestBadgeAsWrittenShowsNone(summary: Summary, render: real -> string)
    requires summary.best.overall.None?
    ensures BestBadgeAsWritten(summary, render).message == "None: 0/100"
    ensures BestBadgeAsWritten(summary, render).message != "unknown: 0/100"
  {
    assert "None" + ": " + "0" + "/100" == "None: 0/100";
    assert "None: 0/100"[0] != "unknown: 0/100"[0];
  }

  /** The best edition as intended: a missing or null one is "unknown". */
  function BestEdition(summary: Summary): (r: string)
    ensures summary.best.overall.None? ==> r == "unknown"
    ensures summary.best.overall.Some? ==> r == summary.best.overall.value
  {
    summary.best.overall.GetOr("unknown")
  }

  function BestBadge(summary: Summary, render: real -> string): (r: Badge)
    ensures r.subject == "benchmark"
    ensures r.message == BestEdition(summary) + ": " + ScoreText(BestScoreOf(summary, Some(BestEdition(summary))), render) + "/100"
  {
    var edition := BestEdition(summary);
    var score := BestScoreOf(summary, Some(edition));
    Badge("benchmark", edition + ": " + ScoreText(score, render) + "/100", BestColor(score))
  }

  /** With no scored edition the corrected badge names "unknown", scored 0 and red. */
  lemma BestBadgeNamesUnknown(summary: Summary, render: real -> string)
    requires summary.best.overall.None? && "unknown" !in summary.editions
    ensures BestBadge(summary, render).message == "unknown: 0/100"
    ensures BestBadge(summary, render).color == Red
  {
    assert "unknown" + ": " + "0" + "/100" == "unknown: 0/100";
  }

  /**
   * The summary's best edition is null exactly when no completed edition has
   * a truthy score, so the as-written badge shows "None" in that case.
   */
  lemma NoScoredEditionMeansNone(results: seq<(string, EditionData)>, ranking: seq<Entry>)
    requires RankingFor(ranking, results, Score)
    ensures Leader(ranking).None? <==>
              forall i :: 0 <= i < |results| ==> !(Completed(results[i].1) && Truthy(results[i].1.score))
  {
    LeaderIsBest(ranking, results, Score);
    QualifyingExactly(results, Score);
    var q := Qualifying(results, Score);
    if |q| > 0 {
      assert q[0] in q;
    }
  }

  /**
   * `main` after reading the summary, with the best-edition badge corrected:
   * the best edition's badge and one badge per edition. It differs from the
   * script as written only when the summary's best edition is null.
   */
  function Badges(summary: Summary, render: real -> string): (r: (Badge, map<string, Badge>))
    ensures r.0 == BestBadge(summary, render)
    ensures summary.best.overall.Some? ==> r.0 == BestBadgeAsWritten(summary, render)
    ensures r.1.Keys == summary.editions.Keys
  {
    (BestBadge(summary, render), EditionBadges(summary.editions, render))
  }
}
