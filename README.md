# gpurelperf, modelled in Dafny

gpurelperf tells you how fast the NVIDIA cards in a machine are relative to each other. It
loads a benchmark table of card names and CUDA scores, downloading it again when the cached
copy is missing or its age, rounded to whole hours, is more than 720 hours. It asks `nvidia-smi --list-gpus` which cards are
installed and pulls each card's name out of its listing line. It then looks every name up in
the table and divides each card's score by the smallest score found, rounding to two decimals.

The model covers that pipeline:

- `outcomes.dfy`: the errors the program can end in, and the `Result`, `Outcome` and `Option`
  wrappers used to report them instead of raising.
- `text.dfy`: Python's `str.strip()` and `str.splitlines()`.
- `nvsmi_line.dfy`: the regular expression `:(.*?)\(UUID` applied with `re.search`, then
  `.group(1).strip()`. It is modelled as a left-to-right search for the first `:` from which
  the lazy group reaches `(UUID`.
- `rounding.dfy`: Python's `round` (round half to even) on exact rationals, and the per-card
  ratio `round(v / min, 2)`.
- `benchmarks.dfy`: the benchmark table as the fold of `bench_dict[name] = int(score)` over
  the `"devices"` records.
- `ratios.dfy`: the specification of `filter_nvsmi_output`. It covers:
  - the outcome of each line;
  - the pairs collected up to the first failing line;
  - the running minimum, which starts at `sys.maxsize`;
  - the ratios;
  - the final state of both lists.
- `staleness.dfy`: the refetch decision of `fetch_benchmarks`.
- `probe.dfy`: locating `nvidia-smi` on Windows, macOS and other systems. `shutil.which` is a
  parameter.
- `gpurelperf.dfy`: the module globals `bench_dict`, `gpu_ratios` and `gpu_ratios_min` as the
  fields of class `RelPerf`. Its methods mirror the program's functions and update those
  fields in loops:
  - `ParseBenchmarks` (`parse_benchmarks`);
  - `FetchBenchmarks` (`fetch_benchmarks`);
  - `FilterNvsmiOutput` (`filter_nvsmi_output`), with its two loops as `CollectScores` and
    `ApplyRatios`;
  - `GetSysCards` (`get_sys_cards`);
  - `RunScript` (the `__main__` stub).

  Each method is proved against the functions of the other modules.

Errors the source raises become values:

| source | model |
|---|---|
| `re.search(...)` returning `None` | `NoMatch(line)` |
| `KeyError` on the name | `UnknownDevice(name)` |
| division by a zero minimum | `ZeroMinimum` |
| `bench_list[-1]` on an empty table | `EmptyBenchmarks` |
| the exception when no tool is found | `ToolNotFound` |

Where the program's documentation and its code disagree, the model follows the code:

- The docstring of `get_sys_cards` says `gpu_ratios` is sorted. Nothing sorts it: both lists
  stay in the order of the tool's output lines.
- On macOS, `get_nvsmi_macos` returns `None`. `get_sys_cards` then raises the same exception
  as when the tool is missing. The "not supported on this platform" branch after it cannot be
  reached.
- A minimum score of 0 ends in a division by zero, not in a dedicated error.
- Negative scores are not rejected. With a negative minimum the ratios are computed as
  written. The "at least 1.00" property is proved only for non-negative scores.

## Model

| member | source | states |
|---|---|---|
| Text.Strip | gpurelperf/gpurelperf.py:136 | the result has no whitespace at either end, and it is a slice of the input with only whitespace around it |
| Text.StripIdempotent | gpurelperf/gpurelperf.py:136 | stripping a stripped name changes nothing |
| Text.SplitLines | gpurelperf/gpurelperf.py:134 | no line it yields contains a line boundary |
| Text.SplitTerminated | gpurelperf/gpurelperf.py:134 | splitting lines that each end in `\n` gives back exactly those lines (round trip) |
| NvsmiLine.LazyGroupEnd | gpurelperf/gpurelperf.py:136 | the lazy group ends at the first `(UUID` after its start, and no `\n` comes before that point; when it fails on a line without `\n`, no `(UUID` follows |
| NvsmiLine.SearchFrom | gpurelperf/gpurelperf.py:136 | a match starts at a `:` and ends where `(UUID` begins, with no earlier `(UUID` and no `\n` between the two |
| NvsmiLine.MatchSpan | gpurelperf/gpurelperf.py:136 | definition (no contract): the span of `re.search(r':(.*?)\(UUID', line)`, searched from index 0; characterised by MatchSpanShape and SpanAt |
| NvsmiLine.ExtractName | gpurelperf/gpurelperf.py:136 | definition (no contract): `.group(1).strip()` of that match, None where there is no match; characterised by ExtractFromListing, ExtractListedName and NoUuidNoName |
| NvsmiLine.MatchSpanShape | gpurelperf/gpurelperf.py:136 | on a line without `\n`, a match exists iff some `:` precedes a `(UUID`; the match starts at the first `:` of the line and ends at the first `(UUID` after it |
| NvsmiLine.SpanAt | gpurelperf/gpurelperf.py:136 | the first `:` of a line, followed by `(UUID` with no `(UUID` in between, determines the match |
| NvsmiLine.ExtractFromListing | gpurelperf/gpurelperf.py:136 | a line `<index>:<group>(UUID<rest>`, where the index has no `:` and no `(UUID` starts inside the group, yields the stripped group |
| NvsmiLine.ExtractListedName | gpurelperf/gpurelperf.py:136 | a line `<index>: <name> (UUID: <uuid>)` yields exactly `<name>`, for any name without `(UUID`, line breaks or surrounding whitespace (a `(` alone is allowed) |
| NvsmiLine.ExtractRtx3090 | gpurelperf/gpurelperf.py:136 | `0: NVIDIA GeForce RTX 3090 (UUID: GPU-xxxx)` yields `NVIDIA GeForce RTX 3090` |
| NvsmiLine.NoUuidNoName | gpurelperf/gpurelperf.py:136 | a line without `(UUID` yields no name, so `.group` fails |
| Rounding.RoundHalfEven | gpurelperf/gpurelperf.py:61 | the result is within 0.5 of the input, and a tie goes to the even integer |
| Rounding.RoundHalfEvenUnique | gpurelperf/gpurelperf.py:61 | any integer with those two properties is the result (they define `round`) |
| Rounding.Round2 | gpurelperf/gpurelperf.py:146 | `round(x, 2)` is within 0.005 of `x` |
| Rounding.Round2AtLeastOne | gpurelperf/gpurelperf.py:146 | a value of at least 1 still rounds to at least 1.00 |
| Rounding.Round2Exact | gpurelperf/gpurelperf.py:146 | a value with two decimals is unchanged by rounding |
| Rounding.Ratio | gpurelperf/gpurelperf.py:146 | definition (no contract): `round(float(v) / float(min), 2)`, computed exactly; characterised by RatioAtLeastOne and RatioOfMinimum |
| Rounding.RatioAtLeastOne | gpurelperf/gpurelperf.py:146 | a score at least the positive minimum has a ratio of at least 1.00 |
| Rounding.RatioOfMinimum | gpurelperf/gpurelperf.py:146 | the minimum's own ratio is exactly 1.00 |
| Benchmarks.Load | gpurelperf/gpurelperf.py:81-82 | definition (no contract): `bench_dict[name] = int(score)` for each record, in order; characterised by LoadLastWins, LoadKeys and ReloadUnchanged |
| Benchmarks.LoadLastWins | gpurelperf/gpurelperf.py:81-82 | a name is a key iff it was one before or some record has it; other keys keep their scores; for a repeated name the last record's score wins |
| Benchmarks.LoadHasKey | gpurelperf/gpurelperf.py:81-82 | a name is a key after loading iff it was one before or some record has it |
| Benchmarks.LoadKeepsOthers | gpurelperf/gpurelperf.py:81-82 | a key that no record names keeps its old score |
| Benchmarks.LoadLastRecord | gpurelperf/gpurelperf.py:81-82 | the last record with a name sets that name's score |
| Benchmarks.LoadKeys | gpurelperf/gpurelperf.py:81-82 | the keys after loading are the old keys plus every record's name |
| Benchmarks.LoadNonEmpty | gpurelperf/gpurelperf.py:81-82 | loading records into a non-empty table leaves it non-empty |
| Benchmarks.ReloadUnchanged | gpurelperf/gpurelperf.py:81-82 | loading the same records a second time leaves the table unchanged |
| Ratios.Detect | gpurelperf/gpurelperf.py:136-138 | definition (no contract): one line's extracted name and table score, or NoMatch or UnknownDevice; characterised by DetectCases |
| Ratios.DetectCases | gpurelperf/gpurelperf.py:136-138 | a line succeeds iff a name is extracted and is an exact key, and then yields that name and its score; otherwise it fails with NoMatch, or with UnknownDevice naming the extracted name |
| Ratios.UnknownQuadro | gpurelperf/gpurelperf.py:138 | the line of a card missing from the table fails with that card's name |
| Ratios.SuccessPrefix | gpurelperf/gpurelperf.py:134-142 | collection keeps the values of the successes in order and stops exactly at the first failure |
| Ratios.SuccessPrefixUnique | gpurelperf/gpurelperf.py:134-142 | only one sequence meets that contract |
| Ratios.DetectPrefix | gpurelperf/gpurelperf.py:134-142 | pair `j` is the name and score of line `j`; if fewer pairs than lines are collected, the next line fails |
| Ratios.CollectStep | gpurelperf/gpurelperf.py:139-142 | one successful line adds its pair to the collected prefix and its score (as a real) to `gpu_ratios`, and the running minimum becomes the smaller of the old minimum and that score |
| Ratios.MinScore | gpurelperf/gpurelperf.py:133-140 | the running minimum is at most `sys.maxsize` and every score, and is either `sys.maxsize` or some score |
| Ratios.MinScoreIsSmallest | gpurelperf/gpurelperf.py:133-140 | when some score is at most `sys.maxsize`, the minimum is one of the scores |
| Ratios.RatiosOf | gpurelperf/gpurelperf.py:145-147 | definition (no contract): each collected score's ratio to the minimum, in order (`gpu_ratios_min`); characterised by RatiosAtLeastOne and MinimumRatioIsOne |
| Ratios.Rated | gpurelperf/gpurelperf.py:145-147 | definition (no contract): each collected name paired with its ratio (`gpu_ratios` after the second loop); characterised by FilteredOrder |
| Ratios.RatiosAtLeastOne | gpurelperf/gpurelperf.py:145-147 | with non-negative scores and a non-zero minimum, every ratio is at least 1.00 |
| Ratios.MinimumRatioIsOne | gpurelperf/gpurelperf.py:145-147 | every card with the minimum score gets exactly 1.00, and at least one card does when some score is at most `sys.maxsize` |
| Ratios.SingleCardRatio | gpurelperf/gpurelperf.py:133-147 | a single detected card gets exactly 1.00 |
| Ratios.ScenarioBAC | gpurelperf/gpurelperf.py:133-147 | cards B, A, C with scores 50, 100, 200 give 1.00, 2.00, 4.00 in that unsorted order |
| Ratios.Filtered | gpurelperf/gpurelperf.py:124-148 | definition (no contract): the outcome, `gpu_ratios` and `gpu_ratios_min` that `filter_nvsmi_output` leaves; characterised by FilteredPasses, FilteredFirstFailure, FilteredOrder, FilteredAtLeastOne, FilteredHasOne and FilteredEmpty |
| Ratios.FilteredPasses | gpurelperf/gpurelperf.py:134-147 | filtering succeeds iff every line yields a name that is a key and the minimum is not 0; no line is skipped |
| Ratios.FilteredFirstFailure | gpurelperf/gpurelperf.py:134-142 | the first failing line decides the error; the pairs of the lines before it stay in `gpu_ratios`, and `gpu_ratios_min` stays empty |
| Ratios.FilteredOrder | gpurelperf/gpurelperf.py:145-147 | on success both lists have one entry per line in line order; entry `j` names the card of line `j` and has the same ratio in both lists |
| Ratios.FilteredAtLeastOne | gpurelperf/gpurelperf.py:145-147 | on success with non-negative scores in the table, every ratio is at least 1.00 |
| Ratios.FilteredHasOne | gpurelperf/gpurelperf.py:133-147 | on success with non-empty output and scores at most `sys.maxsize`, some card gets exactly 1.00 |
| Ratios.FilteredEmpty | gpurelperf/gpurelperf.py:133-148 | empty tool output succeeds and leaves both lists empty |
| Staleness.AgeHours | gpurelperf/gpurelperf.py:61 | definition (no contract): the file's age in hours rounded half to even, `round((c_time - p) / 3600)`; characterised through NeedsFetchExactly |
| Staleness.NeedsFetch | gpurelperf/gpurelperf.py:56-63 | definition (no contract): fetch when the file is missing or its rounded age exceeds 720 hours; characterised by NeedsFetchExactly, NeedsFetchMonotone and MissingIsFetched |
| Staleness.NeedsFetchExactly | gpurelperf/gpurelperf.py:56-63 | an existing file is fetched again iff it is older than 720.5 hours; exactly 720.5 hours rounds to the even 720 and is kept |
| Staleness.NeedsFetchMonotone | gpurelperf/gpurelperf.py:61-63 | if a file is refetched at some age, it is refetched at every greater age |
| Staleness.MissingIsFetched | gpurelperf/gpurelperf.py:56-57 | a missing file is always fetched |
| Probe.WinJoin | gpurelperf/gpurelperf.py:159 | the result is the directory and the file name with either nothing or one `\` between them; nothing is inserted after an empty directory, a trailing `\` or `/`, or a bare drive such as `C:`, and `\` is inserted otherwise |
| Probe.FirstResolved | gpurelperf/gpurelperf.py:158-162 | the result is the first candidate that `which` resolves, returned as built; it is None iff `which` resolves no candidate |
| Probe.GetNvsmiWin | gpurelperf/gpurelperf.py:151-162 | definition (no contract): the first joined install path that `which` resolves; characterised by FirstResolved and GetNvsmiWinPath |
| Probe.GetNvsmiWinPath | gpurelperf/gpurelperf.py:151-162 | on Windows the result is `C:\Program Files\NVIDIA Corporation\NVSMI\nvidia-smi.exe` if `which` resolves that path, and None otherwise |
| Probe.GetNvsmiUnix | gpurelperf/gpurelperf.py:165-171 | definition (no contract): `shutil.which("nvidia-smi")`; characterised by LocateNvsmiCases |
| Probe.GetNvsmiMacos | gpurelperf/gpurelperf.py:174-183 | definition (no contract): always None; characterised by LocateNvsmiCases |
| Probe.LocateNvsmi | gpurelperf/gpurelperf.py:101-106 | definition (no contract): the dispatch on `platform.system()`; characterised by LocateNvsmiCases |
| Probe.LocateNvsmiCases | gpurelperf/gpurelperf.py:101-106 | macOS never locates the tool; Windows locates it iff `which` resolves a candidate; other systems use `which("nvidia-smi")` |
| GpuRelPerf.BestAndWorst | gpurelperf/gpurelperf.py:84-87 | an empty table fails; otherwise the reported cards have the highest and the lowest score in the table |
| GpuRelPerf.RelPerf.constructor | gpurelperf/gpurelperf.py:19-21 | the table and both lists start empty |
| GpuRelPerf.RelPerf.ParseBenchmarks | gpurelperf/gpurelperf.py:72-87 | the table becomes the old table with every record loaded in order; then the best and worst cards are reported, or the run fails on an empty table |
| GpuRelPerf.RelPerf.FetchBenchmarks | gpurelperf/gpurelperf.py:45-69 | the download happens iff the staleness decision says so; then the downloaded or cached records are parsed |
| GpuRelPerf.RelPerf.FilterNvsmiOutput | gpurelperf/gpurelperf.py:124-148 | the outcome and both lists are those of the filter specification applied to the output's lines |
| GpuRelPerf.RelPerf.CollectScores | gpurelperf/gpurelperf.py:133-142 | the first loop appends the pairs of the lines before the first failure, keeps the running minimum of their scores, and reports the failing line's error |
| GpuRelPerf.RelPerf.ApplyRatios | gpurelperf/gpurelperf.py:145-148 | the second loop overwrites each pair in place with its ratio and appends the ratio to `gpu_ratios_min`; a zero minimum fails before anything changes |
| GpuRelPerf.RelPerf.GetSysCards | gpurelperf/gpurelperf.py:90-121 | load the table; fail on an empty table or when no tool is found; otherwise filter the output of the tool run with `--list-gpus` and return both lists |
| GpuRelPerf.RelPerf.RunScript | gpurelperf/gpurelperf.py:186-194 | an empty table after the first load ends the script with EmptyBenchmarks and both lists empty; otherwise the table is loaded a second time, from the downloaded records if either call downloaded, and stays non-empty (equal to one load when both loads read the same records); the outcome is ToolNotFound when no tool is located, and otherwise the filter's outcome and lists for the tool's output |

## Left out

- `fetch_json` (the HTTP download): network I/O. A download is represented by the records it would bring (`remote`).
- File existence, `os.path.getmtime` and `time.time`: they are inputs (`cacheExists`, and the age in seconds).
- The difference between the script-relative path that is tested for existence and the working-directory path that is read and written: not modelled, since both stand for one cached file.
- `json.load`, and `int()` on arbitrary JSON values: the table input is a sequence of `(name, integer score)` records.
- `subprocess.run` of `nvidia-smi --list-gpus` and `shutil.which`: external calls. They are the function parameters `which` and `listGpus`; `listGpus(path, args)` stands for the standard output of running `path` with `args`.
- Floating point: division and `round(x, 2)` are computed exactly on rationals, rounding half to even. Binary floating-point representation error is not modelled.
- Logging and `print`: output only.
- The packaging file `setup.py`: metadata only.
- GpuRelPerf.BestAndWorst: when several cards share the best or worst score, the source picks one by dictionary insertion order under a stable sort. The model only promises some card with that score.
- GpuRelPerf.RelPerf.FilterNvsmiOutput: requires both lists to start empty, as they do on the program's one call. Repeated calls would accumulate entries in the source and are not modelled.
- Probe.WinJoin: UNC prefixes and drive-relative paths other than a bare `C:` are not modelled. The only directory used is an absolute path ending in a separator.
- Ratios.FilteredHasOne: assumes every table score is at most `sys.maxsize`. Otherwise the running minimum can stay at `sys.maxsize` and no card gets exactly 1.00.
