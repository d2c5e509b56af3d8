/**
 * scripts/parse-benchmark.py: the warnings and errors kept from a server
 * log, the count of spawn-area preparations, and the score with its
 * deductions and clamp. The numbers the script reads out of the log with
 * regular expressions (TPS, tick times, startup time, memory) are inputs.
 */
module ParseBenchmark {
  import opened Common
  import opened Text
  import opened Seqs

  const ErrorMarker: string := "/ERROR]"
  const WarnMarker: string := "/WARN]"

  /** Warnings that are common and harmless. */
  const SkipPhrases: seq<string> := ["Ambiguity between arguments", "Unknown or incomplete command", "Caching"]

  const MaxEntryLength: nat := 200
  const MaxErrors: nat := 20

  predicate IsProblem(line: string) { Contains(line, ErrorMarker) || Contains(line, WarnMarker) }

  predicate IsNoise(line: string) { exists k :: 0 <= k < |SkipPhrases| && Contains(line, SkipPhrases[k]) }

  /** A line `parse_errors` reports: an error or warning that is not one of the harmless ones. */
  predicate Reported(line: string) { IsProblem(line) && !IsNoise(line) }

  /** `line.strip()[-200:]`. */
  function EntryOf(line: string): (r: string)
    ensures |r| == Min(MaxEntryLength, |Strip(line)|) && |r| <= MaxEntryLength
    ensures r == Strip(line)[|Strip(line)| - |r|..]
  {
    LastChars(Strip(line), MaxEntryLength)
  }

  /** The entries of the reported lines, before the cut to twenty. */
  function Entries(lines: seq<string>): seq<string> {
    if |lines| == 0 then []
    else
      var line := lines[|lines| - 1];
      Entries(lines[..|lines| - 1]) + (if Reported(line) then [EntryOf(line)] else [])
  }

  /** The entries are the reported lines, in log order, each cut to its last 200 characters. */
  lemma {:induction false} EntriesOfReported(lines: seq<string>)
    ensures |Entries(lines)| == |Filter(Reported, lines)|
    ensures forall k :: 0 <= k < |Entries(lines)| ==> Entries(lines)[k] == EntryOf(Filter(Reported, lines)[k])
  {
    if |lines| > 0 {
      var init := lines[..|lines| - 1];
      var line := lines[|lines| - 1];
      EntriesOfReported(init);
      assert lines == init + [line];
      FilterAppend(Reported, init, [line]);
      assert [line][1..] == [];
    }
  }

  /** `parse_errors`: the first twenty reported lines of the log, stripped and cut to 200 characters. */
  method ParseErrors(log: string) returns (errors: seq<string>)
    ensures errors == Entries(Split(log, '\n'))[..Min(MaxErrors, |Entries(Split(log, '\n'))|)]
    ensures |errors| <= MaxErrors
    ensures forall k :: 0 <= k < |errors| ==> |errors[k]| <= MaxEntryLength
  {
    var lines := Split(log, '\n');
    var found: seq<string> := [];
    for i := 0 to |lines|
      invariant found == Entries(lines[..i])
    {
      assert lines[..i + 1][..i] == lines[..i];
      var line := lines[i];
      if IsProblem(line) {
        if IsNoise(line) {
          continue;
        }
        found := found + [EntryOf(line)];
      }
    }
    assert lines[..|lines|] == lines;
    EntriesOfReported(lines);
    errors := found[..Min(MaxErrors, |found|)];
  }

  // ---------------------------------------------------------------------------
  // Chunks

  const SpawnPhrase: string := "Preparing spawn area"

  /** `chunks`: the loaded count is never filled in. */
  datatype Chunks = Chunks(loaded: Option<nat>, generated: nat)

  /** The phrase's `P` does not recur in it, so its occurrences never overlap. */
  lemma SpawnPhraseFirstCharUnique()
    ensures FirstCharUnique(SpawnPhrase)
  {
    assert forall k :: 0 < k < |SpawnPhrase| ==> SpawnPhrase[k] != 'P';
  }

  /** `parse_chunk_loading`: the generated count is the number of places the phrase occurs. */
  function ParseChunkLoading(log: string): (r: Chunks)
    ensures r.loaded.None?
    ensures r.generated == Occurrences(log, SpawnPhrase)
    ensures r.generated * |SpawnPhrase| <= |log|
    ensures r.generated > 0 <==> Contains(log, SpawnPhrase)
  {
    CountPositiveIff(log, SpawnPhrase);
    SpawnPhraseFirstCharUnique();
    CountIsOccurrences(log, SpawnPhrase);
    Chunks(None, CountOccurrences(log, SpawnPhrase))
  }

  // ---------------------------------------------------------------------------
  // The score

  /** Five points per TPS below 20, when the one-minute TPS was read. */
  function TpsPenalty(tps1m: Option<real>): (r: real)
    ensures r >= 0.0
    ensures r == 0.0 <==> !Truthy(tps1m) || tps1m.value >= 20.0
  {
    if Truthy(tps1m) && (20.0 - tps1m.value) * 5.0 > 0.0 then (20.0 - tps1m.value) * 5.0 else 0.0
  }

  /** Half a point per millisecond of average tick above 50. */
  function TickPenalty(avgTickMs: Option<real>): (r: real)
    ensures r >= 0.0
    ensures r == 0.0 <==> !Truthy(avgTickMs) || avgTickMs.value <= 50.0
  {
    if Truthy(avgTickMs) && avgTickMs.value > 50.0 then (avgTickMs.value - 50.0) * 0.5 else 0.0
  }

  /** Two points per reported error. */
  function ErrorPenalty(errorCount: nat): (r: real)
    ensures r >= 0.0
    ensures r == 0.0 <==> errorCount == 0
  {
    if errorCount > 0 then errorCount as real * 2.0 else 0.0
  }

  /** The score before the clamp: never above 100, since every deduction is non-negative. */
  function RawScore(tps1m: Option<real>, avgTickMs: Option<real>, errorCount: nat): (r: real)
    ensures r <= 100.0
  {
    100.0 - TpsPenalty(tps1m) - TickPenalty(avgTickMs) - ErrorPenalty(errorCount)
  }

  function Clamp(x: real): (r: real)
    ensures 0.0 <= r <= 100.0
    ensures 0.0 <= x <= 100.0 ==> r == x
  {
    if x < 0.0 then 0.0 else if x > 100.0 then 100.0 else x
  }

  /** The score `main` computes by successive deductions, then clamps. */
  method ComputeScore(tps1m: Option<real>, avgTickMs: Option<real>, errorCount: nat) returns (score: real)
    ensures score == Clamp(RawScore(tps1m, avgTickMs, errorCount))
    ensures 0.0 <= score <= 100.0
  {
    score := 100.0;
    if Truthy(tps1m) {
      var tpsPenalty := if (20.0 - tps1m.value) * 5.0 > 0.0 then (20.0 - tps1m.value) * 5.0 else 0.0;
      score := score - tpsPenalty;
    }
    if Truthy(avgTickMs) {
      if avgTickMs.value > 50.0 {
        score := score - (avgTickMs.value - 50.0) * 0.5;
      }
    }
    if errorCount > 0 {
      score := score - errorCount as real * 2.0;
    }
    score := if 100.0 < score then 100.0 else score;
    score := if 0.0 < score then score else 0.0;
  }

  /** A perfect score means no deduction applied: TPS at least 20, ticks within 50 ms and no errors. */
  lemma PerfectScoreIff(tps1m: Option<real>, avgTickMs: Option<real>, errorCount: nat)
    ensures Clamp(RawScore(tps1m, avgTickMs, errorCount)) == 100.0 <==>
              (!Truthy(tps1m) || tps1m.value >= 20.0) && (!Truthy(avgTickMs) || avgTickMs.value <= 50.0)
              && errorCount == 0
  {
  }

  /** More errors never raise the score. */
  lemma MoreErrorsNeverHelp(tps1m: Option<real>, avgTickMs: Option<real>, fewer: nat, more: nat)
    requires fewer <= more
    ensures Clamp(RawScore(tps1m, avgTickMs, more)) <= Clamp(RawScore(tps1m, avgTickMs, fewer))
  {
  }

  // ---------------------------------------------------------------------------
  // The run

  /** The numbers read out of the log by the regular expressions. */
  datatype Metrics = Metrics(startupS: Option<real>, tps1m: Option<real>, memoryUsedMb: Option<nat>,
                             avgTickMs: Option<real>)

  /** The results file: `no_logs` when there is no log, otherwise the parsed run (without timestamp). */
  datatype Parsed =
    | NoLogs
    | Completed(metrics: Metrics, chunks: Chunks, errors: seq<string>, errorCount: nat, score: real)

  /** `main` for a log that may be missing; the exit code is 0 either way. */
  method ParseLog(log: Option<string>, metrics: Metrics) returns (parsed: Parsed)
    ensures log.None? <==> parsed.NoLogs?
    ensures parsed.Completed? ==>
              && parsed.errors == Entries(Split(log.value, '\n'))[..Min(MaxErrors, |Entries(Split(log.value, '\n'))|)]
              && parsed.errorCount == |parsed.errors| <= MaxErrors
              && parsed.chunks == ParseChunkLoading(log.value)
              && parsed.score == Clamp(RawScore(metrics.tps1m, metrics.avgTickMs, parsed.errorCount))
  {
    if log.None? {
      return NoLogs;
    }
    var errors := ParseErrors(log.value);
    var again := ParseErrors(log.value);
    var score := ComputeScore(metrics.tps1m, metrics.avgTickMs, |again|);
    parsed := Completed(metrics, ParseChunkLoading(log.value), errors, |again|, score);
  }
}
