/** The module-level state of the program and the operations that change it: the benchmark
    dictionary and the two ratio lists, all filled in place. */
module GpuRelPerf {
  import opened Outcomes
  import opened Benchmarks
  import Ratios
  import Rounding
  import Staleness
  import Probe
  import Text

  /** `d` names a card of `table` with the highest score. */
  ghost predicate IsBest(table: map<string, int>, d: Device)
  {
    d.name in table && table[d.name] == d.score && forall k | k in table :: table[k] <= d.score
  }

  /** `d` names a card of `table` with the lowest score. */
  ghost predicate IsWorst(table: map<string, int>, d: Device)
  {
    d.name in table && table[d.name] == d.score && forall k | k in table :: d.score <= table[k]
  }

  /** The best and worst card that `parse_benchmarks` reports from `bench_list[-1]` and
      `bench_list[0]` of the table sorted by score; an empty table fails at `bench_list[-1]`. */
  method BestAndWorst(table: map<string, int>) returns (report: Result<(Device, Device)>)
    ensures report.Failure? <==> table == map[]
    ensures report.Failure? ==> report.error == EmptyBenchmarks
    ensures report.Success? ==> IsBest(table, report.value.0) && IsWorst(table, report.value.1)
  {
    if table == map[] {
      return Failure(EmptyBenchmarks);
    }
    var first :| first in table;
    var best, worst := Device(first, table[first]), Device(first, table[first]);
    var rest := table.Keys - {first};
    while rest != {}
      invariant rest <= table.Keys
      invariant best.name in table && table[best.name] == best.score
      invariant worst.name in table && table[worst.name] == worst.score
      invariant forall k | k in table && k !in rest :: worst.score <= table[k] <= best.score
      decreases rest
    {
      var k :| k in rest;
      if table[k] > best.score {
        best := Device(k, table[k]);
      }
      if table[k] < worst.score {
        worst := Device(k, table[k]);
      }
      rest := rest - {k};
    }
    report := Success((best, worst));
  }

  /** The module globals `bench_dict`, `gpu_ratios` and `gpu_ratios_min`. */
  class RelPerf {
    var benchDict: map<string, int>
    var gpuRatios: seq<(string, real)>
    var gpuRatiosMin: seq<real>

    /** The state when the module is first imported. */
    constructor ()
      ensures benchDict == map[] && gpuRatios == [] && gpuRatiosMin == []
    {
      benchDict := map[];
      gpuRatios := [];
      gpuRatiosMin := [];
    }

    /** `parse_benchmarks` on the records of the `"devices"` array: each record is assigned
        into the dictionary in order, then the best and worst card of the whole dictionary are
        reported. */
    method ParseBenchmarks(devices: seq<Device>) returns (report: Result<(Device, Device)>)
      modifies this`benchDict
      ensures benchDict == Load(old(benchDict), devices)
      ensures report.Failure? <==> benchDict == map[]
      ensures report.Failure? ==> report.error == EmptyBenchmarks
      ensures report.Success? ==> IsBest(benchDict, report.value.0) && IsWorst(benchDict, report.value.1)
    {
      var i := 0;
      while i < |devices|
        invariant 0 <= i <= |devices|
        invariant benchDict == Load(old(benchDict), devices[..i])
      {
        assert devices[..i + 1][..i] == devices[..i];
        benchDict := benchDict[devices[i].name := devices[i].score];
        i := i + 1;
      }
      assert devices[..|devices|] == devices;
      report := BestAndWorst(benchDict);
    }

    /** `fetch_benchmarks`: the file is downloaded when it is missing or stale (what a download
        would bring is `remote`; the cached file holds `cached`), then parsed. */
    method FetchBenchmarks(cacheExists: bool, ageSeconds: real, cached: seq<Device>, remote: seq<Device>)
      returns (fetched: bool, report: Result<(Device, Device)>)
      modifies this`benchDict
      ensures fetched == Staleness.NeedsFetch(cacheExists, ageSeconds)
      ensures benchDict == Load(old(benchDict), if fetched then remote else cached)
      ensures report.Failure? <==> benchDict == map[]
      ensures report.Failure? ==> report.error == EmptyBenchmarks
    {
      fetched := Staleness.NeedsFetch(cacheExists, ageSeconds);
      var devices := if fetched then remote else cached;
      report := ParseBenchmarks(devices);
    }

    /** `filter_nvsmi_output`: the first loop extracts each line's name, looks it up, keeps the
        running minimum and appends `(name, score)`; the second loop overwrites each entry with
        its ratio and appends the ratio to `gpuRatiosMin`. The lists start empty, as they are
        on the program's single call. */
    method FilterNvsmiOutput(nvsmiOut: string) returns (outcome: Outcome)
      requires gpuRatios == [] && gpuRatiosMin == []
      modifies this`gpuRatios, this`gpuRatiosMin
      ensures (outcome, gpuRatios, gpuRatiosMin) == Ratios.Filtered(Text.SplitLines(nvsmiOut), benchDict)
    {
      var lines := Text.SplitLines(nvsmiOut);
      var least;
      ghost var scores;
      outcome, least, scores := CollectScores(lines);
      if outcome.Pass? {
        outcome := ApplyRatios(scores, least);
      }
    }

    /** The first loop of `filter_nvsmi_output`: it stops at the first line whose name is not
        extracted or not a key of the table, leaving the pairs of the lines before it appended. */
    method CollectScores(lines: seq<string>) returns (outcome: Outcome, least: int, ghost scores: seq<(string, int)>)
      requires gpuRatios == []
      modifies this`gpuRatios
      ensures scores == Ratios.DetectPrefix(lines, benchDict)
      ensures gpuRatios == Ratios.Scored(scores) && least == Ratios.MinScore(scores)
      ensures outcome == if |scores| < |lines| then Fail(Ratios.Detect(lines[|scores|], benchDict).error) else Pass
    {
      var table := benchDict;
      ghost var results := Ratios.Detections(lines, table);
      scores := [];
      least := Ratios.MaxSize;
      var i := 0;
      assert results[0..] == results;
      while i < |lines|
        invariant 0 <= i <= |lines| && |scores| == i
        invariant Ratios.DetectPrefix(lines, table) == scores + Ratios.SuccessPrefix(results[i..])
        invariant gpuRatios == Ratios.Scored(scores)
        invariant least == Ratios.MinScore(scores)
      {
        // line 136 (name extraction) and line 138 (exact-key lookup), either of which raises
        var detected := Ratios.Detect(lines[i], table);
        assert detected == results[i];
        if detected.Failure? {
          Ratios.SuccessPrefixStops(results, i, scores);
          return Fail(detected.error), least, scores;
        }
        var (name, score) := detected.value;
        Ratios.CollectStep(results, i, scores, (name, score));
        if score < least {
          least := score;
        }
        scores := scores + [(name, score)];
        gpuRatios := gpuRatios + [(name, score as real)];
        i := i + 1;
      }
      assert results[|lines|..] == [] && scores + [] == scores;
      outcome := Pass;
    }

    /** The second loop of `filter_nvsmi_output`: entry `k` of `gpuRatios` is overwritten in
        place with its ratio, which is also appended to `gpuRatiosMin`; a zero minimum raises
        at the first division, before anything is overwritten. */
    method ApplyRatios(ghost scores: seq<(string, int)>, least: int) returns (outcome: Outcome)
      requires gpuRatios == Ratios.Scored(scores) && gpuRatiosMin == [] && least == Ratios.MinScore(scores)
      modifies this`gpuRatios, this`gpuRatiosMin
      ensures least == 0 ==> outcome == Fail(ZeroMinimum) && gpuRatios == Ratios.Scored(scores) && gpuRatiosMin == []
      ensures least != 0 ==> outcome == Pass && gpuRatios == Ratios.Rated(scores) && gpuRatiosMin == Ratios.RatiosOf(scores)
    {
      var k := 0;
      while k < |gpuRatios|
        invariant |gpuRatios| == |scores| && 0 <= k <= |scores|
        invariant least == 0 ==> k == 0 && gpuRatios == Ratios.Scored(scores)
        invariant |gpuRatiosMin| == k
        invariant forall j | 0 <= j < k ::
                    gpuRatios[j] == (scores[j].0, Rounding.Ratio(scores[j].1 as real, least))
                    && gpuRatiosMin[j] == gpuRatios[j].1
        invariant forall j | k <= j < |scores| :: gpuRatios[j] == (scores[j].0, scores[j].1 as real)
      {
        if least == 0 {
          return Fail(ZeroMinimum);
        }
        var (g, v) := gpuRatios[k];
        var ratio := Rounding.Ratio(v, least);
        gpuRatios := gpuRatios[k := (g, ratio)];
        gpuRatiosMin := gpuRatiosMin + [ratio];
        k := k + 1;
      }
      outcome := Pass;
    }

    /** `get_sys_cards`: load the table (as `fetch_benchmarks`), locate the tool for the
        platform, raise when none is found, run the tool with `--list-gpus` (its standard output
        is `listGpus(tool, "--list-gpus")`), filter that output, and return `gpu_ratios_min`
        and `gpu_ratios`. */
    method GetSysCards(cacheExists: bool, ageSeconds: real, cached: seq<Device>, remote: seq<Device>,
                       system: string, which: string -> Option<string>, listGpus: (string, string) -> string)
      returns (outcome: Outcome, ratiosMin: seq<real>, ratios: seq<(string, real)>)
      requires gpuRatios == [] && gpuRatiosMin == []
      modifies this
      ensures benchDict == Load(old(benchDict), if Staleness.NeedsFetch(cacheExists, ageSeconds) then remote else cached)
      ensures benchDict == map[] ==> outcome == Fail(EmptyBenchmarks) && gpuRatios == [] && gpuRatiosMin == []
      ensures benchDict != map[] && Probe.LocateNvsmi(system, which).None? ==>
                outcome == Fail(ToolNotFound) && gpuRatios == [] && gpuRatiosMin == []
      ensures benchDict != map[] && Probe.LocateNvsmi(system, which).Some? ==>
                (outcome, gpuRatios, gpuRatiosMin)
                  == Ratios.Filtered(Text.SplitLines(listGpus(Probe.LocateNvsmi(system, which).value, Probe.NvsmiArgs)), benchDict)
      ensures outcome == Pass ==> ratiosMin == gpuRatiosMin && ratios == gpuRatios
    {
      var fetched, report := FetchBenchmarks(cacheExists, ageSeconds, cached, remote);
      if report.Failure? {
        return Fail(report.error), [], [];
      }
      var nvsmiPath := Probe.LocateNvsmi(system, which);
      if nvsmiPath.None? {
        return Fail(ToolNotFound), [], [];
      }
      // The source tests `nvsmi_p is None` a second time, to `return 0, 0`; after the raise
      // above that branch cannot be taken.
      var stdout := listGpus(nvsmiPath.value, Probe.NvsmiArgs);
      outcome := FilterNvsmiOutput(stdout);
      ratiosMin, ratios := gpuRatiosMin, gpuRatios;
    }

    /** The `__main__` stub: `fetch_benchmarks()`, then `get_sys_cards()`, which loads the
        table a second time. A download (on either call) brings `remote`; otherwise the cached
        file holds `cached`, or `remote` once the first call has downloaded it. An empty table
        after the first load ends the script there; otherwise the outcome is that of
        `get_sys_cards` on the twice-loaded table. */
    method RunScript(firstAge: (bool, real), secondAge: (bool, real), cached: seq<Device>, remote: seq<Device>,
                     system: string, which: string -> Option<string>, listGpus: (string, string) -> string)
      returns (outcome: Outcome)
      requires gpuRatios == [] && gpuRatiosMin == []
      modifies this
      ensures var firstFetch := Staleness.NeedsFetch(firstAge.0, firstAge.1);
              var first := if firstFetch then remote else cached;
              Load(old(benchDict), first) == map[] ==>
                outcome == Fail(EmptyBenchmarks) && benchDict == map[] && gpuRatios == [] && gpuRatiosMin == []
      ensures var firstFetch := Staleness.NeedsFetch(firstAge.0, firstAge.1);
              var secondFetch := Staleness.NeedsFetch(secondAge.0, secondAge.1);
              var first := if firstFetch then remote else cached;
              var second := if firstFetch || secondFetch then remote else cached;
              Load(old(benchDict), first) != map[] ==>
                && benchDict == Load(Load(old(benchDict), first), second)
                && benchDict != map[]
                && (first == second ==> benchDict == Load(old(benchDict), first))
      ensures var first := if Staleness.NeedsFetch(firstAge.0, firstAge.1) then remote else cached;
              Load(old(benchDict), first) != map[] && Probe.LocateNvsmi(system, which).None? ==>
                outcome == Fail(ToolNotFound) && gpuRatios == [] && gpuRatiosMin == []
      ensures var first := if Staleness.NeedsFetch(firstAge.0, firstAge.1) then remote else cached;
              Load(old(benchDict), first) != map[] && Probe.LocateNvsmi(system, which).Some? ==>
                (outcome, gpuRatios, gpuRatiosMin)
                  == Ratios.Filtered(Text.SplitLines(listGpus(Probe.LocateNvsmi(system, which).value, Probe.NvsmiArgs)), benchDict)
    {
      var fetched, report := FetchBenchmarks(firstAge.0, firstAge.1, cached, remote);
      if report.Failure? {
        // `parse_benchmarks` raises at `bench_list[-1]`, ending the script.
        return Fail(report.error);
      }
      ghost var afterFirst := benchDict;
      var onDisk := if fetched then remote else cached;
      var ratiosMin, ratios;
      outcome, ratiosMin, ratios := GetSysCards(secondAge.0, secondAge.1, onDisk, remote, system, which, listGpus);
      ReloadUnchanged(old(benchDict), onDisk);
      LoadNonEmpty(afterFirst, if Staleness.NeedsFetch(secondAge.0, secondAge.1) then remote else onDisk);
    }
  }
}
