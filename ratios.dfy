/** The specification of `filter_nvsmi_output`: what each tool line turns into, the running
    minimum, and the ratios of the second loop. */
module Ratios {
  import opened Outcomes
  import NvsmiLine
  import Rounding
  import Text

  /** `sys.maxsize` on a 64-bit interpreter: the running minimum's starting value. */
  const MaxSize: int := 0x7FFF_FFFF_FFFF_FFFF

  /** One line of tool output: the extracted name and its table score, or the exception the
      line raises (no match for the pattern, or a name that is not a key of the table). */
  function Detect(line: string, table: map<string, int>): Result<(string, int)>
  {
    match NvsmiLine.ExtractName(line)
    case None => Failure(NoMatch(line))
    case Some(name) => if name in table then Success((name, table[name])) else Failure(UnknownDevice(name))
  }

  /** A line succeeds exactly when its name is extracted and is an exact key of the table; it
      fails with NoMatch when the pattern does not match, and otherwise with UnknownDevice
      naming the extracted name. */
  lemma DetectCases(line: string, table: map<string, int>)
    ensures Detect(line, table).Success? <==>
              NvsmiLine.ExtractName(line).Some? && NvsmiLine.ExtractName(line).value in table
    ensures Detect(line, table).Success? ==>
              var (name, score) := Detect(line, table).value;
              NvsmiLine.ExtractName(line) == Some(name) && name in table && table[name] == score
    ensures Detect(line, table) == Failure(NoMatch(line)) <==> NvsmiLine.ExtractName(line).None?
    ensures NvsmiLine.ExtractName(line).Some? && NvsmiLine.ExtractName(line).value !in table ==>
              Detect(line, table) == Failure(UnknownDevice(NvsmiLine.ExtractName(line).value))
  {
  }

  /** A detected device absent from the table fails the run with its name. */
  lemma UnknownQuadro(table: map<string, int>)
    requires "Quadro K2200" !in table
    ensures Detect("1" + ": " + "Quadro K2200" + " (UUID: " + "GPU-yyyy" + ")", table)
            == Failure(UnknownDevice("Quadro K2200"))
  {
    QuadroParts("1", "Quadro K2200", "GPU-yyyy");
    NvsmiLine.NoParenNoUuid("Quadro K2200");
    NvsmiLine.ExtractListedName("1", "Quadro K2200", "GPU-yyyy");
  }

  lemma QuadroParts(index: string, name: string, uuid: string)
    requires index == "1" && name == "Quadro K2200" && uuid == "GPU-yyyy"
    ensures ':' !in index && '\n' !in index && '(' !in name && '\n' !in name && '\n' !in uuid
    ensures name != [] && !Text.IsSpace(name[0]) && !Text.IsSpace(name[|name| - 1])
  {
  }

  /** The outcome of every tool line, in line order. */
  function Detections(lines: seq<string>, table: map<string, int>): seq<Result<(string, int)>>
  {
    seq(|lines|, j requires 0 <= j < |lines| => Detect(lines[j], table))
  }

  /** The values of the successes before the first failure. */
  function SuccessPrefix(results: seq<Result<(string, int)>>): (found: seq<(string, int)>)
    ensures |found| <= |results|
    ensures forall j | 0 <= j < |found| :: results[j] == Success(found[j])
    ensures |found| < |results| ==> results[|found|].Failure?
  {
    if results == [] || results[0].Failure? then []
    else
      var rest := SuccessPrefix(results[1..]);
      var found := [results[0].value] + rest;
      assert forall j | 1 <= j < |found| :: found[j] == rest[j - 1] && results[j] == results[1..][j - 1];
      found
  }

  /** The `(name, score)` pairs the first loop appends before it stops: one per line, up to the
      first line that fails. */
  function DetectPrefix(lines: seq<string>, table: map<string, int>): (found: seq<(string, int)>)
    ensures |found| <= |lines|
    ensures forall j | 0 <= j < |found| :: Detect(lines[j], table) == Success(found[j])
    ensures |found| < |lines| ==> Detect(lines[|found|], table).Failure?
  {
    SuccessPrefix(Detections(lines, table))
  }

  /** The contract of SuccessPrefix has only one solution. */
  lemma {:induction false} SuccessPrefixUnique(results: seq<Result<(string, int)>>, found: seq<(string, int)>)
    requires |found| <= |results|
    requires forall j | 0 <= j < |found| :: results[j] == Success(found[j])
    requires |found| < |results| ==> results[|found|].Failure?
    ensures found == SuccessPrefix(results)
    decreases |results|
  {
    if results != [] && results[0].Success? {
      assert found != [];
      SuccessPrefixUnique(results[1..], found[1..]);
    }
  }

  /** Collecting stops at a failing result: the pairs gathered before it are the whole prefix. */
  lemma SuccessPrefixStops(results: seq<Result<(string, int)>>, i: nat, found: seq<(string, int)>)
    requires i < |results| && results[i].Failure?
    ensures found + SuccessPrefix(results[i..]) == found
  {
    assert results[i..][0] == results[i];
    assert found + [] == found;
  }

  /** Collecting past a successful result appends its value. */
  lemma SuccessPrefixStep(results: seq<Result<(string, int)>>, i: nat, found: seq<(string, int)>)
    requires i < |results| && results[i].Success?
    ensures found + SuccessPrefix(results[i..]) == (found + [results[i].value]) + SuccessPrefix(results[i + 1..])
  {
    var tail := results[i..];
    assert tail[0] == results[i] && tail[1..] == results[i + 1..];
    assert SuccessPrefix(tail) == [results[i].value] + SuccessPrefix(results[i + 1..]);
    assert found + ([results[i].value] + SuccessPrefix(results[i + 1..]))
           == (found + [results[i].value]) + SuccessPrefix(results[i + 1..]);
  }

  /** The running minimum: `sys.maxsize`, lowered by every smaller score. */
  function MinScore(found: seq<(string, int)>): (least: int)
    ensures least <= MaxSize
    ensures forall j | 0 <= j < |found| :: least <= found[j].1
    ensures least == MaxSize || exists j | 0 <= j < |found| :: found[j].1 == least
  {
    if found == [] then MaxSize
    else
      var init := MinScore(found[..|found| - 1]);
      var last := found[|found| - 1].1;
      if last < init then last else init
  }

  /** When some detected score is at most `sys.maxsize`, the running minimum is the smallest
      detected score. */
  lemma MinScoreIsSmallest(found: seq<(string, int)>, k: int)
    requires 0 <= k < |found| && found[k].1 <= MaxSize
    ensures exists j | 0 <= j < |found| :: found[j].1 == MinScore(found)
  {
  }

  /** The pairs with the scores as real numbers, as `gpu_ratios` holds them between the loops. */
  function Scored(found: seq<(string, int)>): seq<(string, real)>
  {
    seq(|found|, j requires 0 <= j < |found| => (found[j].0, found[j].1 as real))
  }

  /** One successful line of the first loop: its pair extends the collected prefix, its score
      as a real extends the scored list, and the running minimum takes it if it is smaller. */
  lemma CollectStep(results: seq<Result<(string, int)>>, i: nat, found: seq<(string, int)>, entry: (string, int))
    requires i < |results| && results[i] == Success(entry)
    ensures found + SuccessPrefix(results[i..]) == (found + [entry]) + SuccessPrefix(results[i + 1..])
    ensures Scored(found + [entry]) == Scored(found) + [(entry.0, entry.1 as real)]
    ensures MinScore(found + [entry]) == if entry.1 < MinScore(found) then entry.1 else MinScore(found)
  {
    SuccessPrefixStep(results, i, found);
    assert (found + [entry])[..|found|] == found;
  }

  /** The ratio of every detected card, in detection order. */
  function RatiosOf(found: seq<(string, int)>): seq<real>
    requires MinScore(found) != 0
  {
    seq(|found|, j requires 0 <= j < |found| => Rounding.Ratio(found[j].1 as real, MinScore(found)))
  }

  /** `gpu_ratios` after the second loop: each card keeps its name, paired with its ratio. */
  function Rated(found: seq<(string, int)>): seq<(string, real)>
    requires MinScore(found) != 0
  {
    seq(|found|, j requires 0 <= j < |found| => (found[j].0, RatiosOf(found)[j]))
  }

  /** With non-negative scores and a non-zero minimum, every ratio is at least 1.00. */
  lemma RatiosAtLeastOne(found: seq<(string, int)>)
    requires forall j | 0 <= j < |found| :: found[j].1 >= 0
    requires MinScore(found) != 0
    ensures forall j | 0 <= j < |found| :: RatiosOf(found)[j] >= 1.0
  {
    var least := MinScore(found);
    forall j | 0 <= j < |found|
      ensures RatiosOf(found)[j] >= 1.0
    {
      Rounding.RatioAtLeastOne(found[j].1, least);
    }
  }

  /** Every card whose score is the minimum gets exactly 1.00; when some score is at most
      `sys.maxsize`, at least one card does. */
  lemma MinimumRatioIsOne(found: seq<(string, int)>)
    requires MinScore(found) != 0
    ensures forall j | 0 <= j < |found| && found[j].1 == MinScore(found) :: RatiosOf(found)[j] == 1.0
    ensures (exists k | 0 <= k < |found| :: found[k].1 <= MaxSize) ==>
              exists j | 0 <= j < |found| :: RatiosOf(found)[j] == 1.0
  {
    Rounding.RatioOfMinimum(MinScore(found));
  }

  /** A single detected card gets 1.00, whatever its score (up to `sys.maxsize`). */
  lemma SingleCardRatio(found: seq<(string, int)>)
    requires |found| == 1 && found[0].1 <= MaxSize && found[0].1 != 0
    ensures MinScore(found) == found[0].1
    ensures RatiosOf(found) == [1.0]
  {
    Rounding.RatioOfMinimum(found[0].1);
  }

  /** The worked scenario: cards B, A, C with scores 50, 100, 200 give 1.00, 2.00, 4.00, in
      detection order (nothing is sorted). */
  lemma ScenarioBAC()
    ensures var found := [("B", 50), ("A", 100), ("C", 200)];
            MinScore(found) == 50 && Rated(found) == [("B", 1.0), ("A", 2.0), ("C", 4.0)]
  {
    var found := [("B", 50), ("A", 100), ("C", 200)];
    assert found[..2][..1] == [("B", 50)];
    assert MinScore(found) == 50;
    Rounding.Round2Exact(100);
    Rounding.Round2Exact(200);
    Rounding.Round2Exact(400);
    assert 50 as real / 50 as real == 100 as real / 100.0;
    assert 100 as real / 50 as real == 200 as real / 100.0;
    assert 200 as real / 50 as real == 400 as real / 100.0;
  }

  /** What `filter_nvsmi_output` leaves behind for the given tool lines, starting from empty
      lists: the outcome, then `gpu_ratios`, then `gpu_ratios_min`. A failing line stops the
      first loop with the pairs of the lines before it appended; a zero minimum stops the
      second loop before anything is overwritten. */
  function Filtered(lines: seq<string>, table: map<string, int>): (Outcome, seq<(string, real)>, seq<real>)
  {
    var found := DetectPrefix(lines, table);
    if |found| < |lines| then (Fail(Detect(lines[|found|], table).error), Scored(found), [])
    else if MinScore(found) == 0 then (Fail(ZeroMinimum), Scored(found), [])
    else (Pass, Rated(found), RatiosOf(found))
  }

  /** The filter succeeds exactly when every line yields a name that is a key of the table and
      the smallest score is not 0; no line is ever skipped. */
  lemma FilteredPasses(lines: seq<string>, table: map<string, int>)
    ensures Filtered(lines, table).0 == Pass <==>
              (forall j | 0 <= j < |lines| :: Detect(lines[j], table).Success?)
              && MinScore(DetectPrefix(lines, table)) != 0
  {
    var found := DetectPrefix(lines, table);
    if |found| < |lines| {
      assert !Detect(lines[|found|], table).Success?;
    }
  }

  /** The first line that fails decides the error, and the pairs of the lines before it stay
      appended; nothing is divided. */
  lemma FilteredFirstFailure(lines: seq<string>, table: map<string, int>, k: nat)
    requires k < |lines| && Detect(lines[k], table).Failure?
    requires forall j | 0 <= j < k :: Detect(lines[j], table).Success?
    ensures Filtered(lines, table).0 == Fail(Detect(lines[k], table).error)
    ensures |Filtered(lines, table).1| == k && Filtered(lines, table).2 == []
    ensures forall j | 0 <= j < k ::
              Filtered(lines, table).1[j] == (Detect(lines[j], table).value.0, Detect(lines[j], table).value.1 as real)
  {
  }

  /** On success both lists have one entry per line, in line order: entry `j` of `gpu_ratios`
      carries the name extracted from line `j` and the same ratio as entry `j` of
      `gpu_ratios_min`. */
  lemma FilteredOrder(lines: seq<string>, table: map<string, int>)
    requires Filtered(lines, table).0 == Pass
    ensures var (_, ratios, ratiosMin) := Filtered(lines, table);
            && |ratios| == |lines| && |ratiosMin| == |lines|
            && (forall j | 0 <= j < |lines| ::
                  NvsmiLine.ExtractName(lines[j]) == Some(ratios[j].0) && ratios[j].1 == ratiosMin[j])
  {
    var found := DetectPrefix(lines, table);
    forall j | 0 <= j < |lines|
      ensures NvsmiLine.ExtractName(lines[j]) == Some(found[j].0)
    {
      DetectCases(lines[j], table);
    }
  }

  /** On success with non-negative scores in the table, every ratio is at least 1.00. */
  lemma FilteredAtLeastOne(lines: seq<string>, table: map<string, int>)
    requires Filtered(lines, table).0 == Pass
    requires forall score | score in table.Values :: score >= 0
    ensures forall j | 0 <= j < |lines| :: Filtered(lines, table).2[j] >= 1.0
  {
    var found := DetectPrefix(lines, table);
    ScoresFromTable(lines, table);
    RatiosAtLeastOne(found);
  }

  /** On success with every score of the table at most `sys.maxsize`, some card of a non-empty
      output gets exactly 1.00. */
  lemma FilteredHasOne(lines: seq<string>, table: map<string, int>)
    requires Filtered(lines, table).0 == Pass && lines != []
    requires forall score | score in table.Values :: score <= MaxSize
    ensures exists j | 0 <= j < |lines| :: Filtered(lines, table).2[j] == 1.0
  {
    var found := DetectPrefix(lines, table);
    ScoresFromTable(lines, table);
    assert found[0].1 in table.Values;
    MinimumRatioIsOne(found);
  }

  /** Every detected score is a value of the table. */
  lemma ScoresFromTable(lines: seq<string>, table: map<string, int>)
    ensures forall j | 0 <= j < |DetectPrefix(lines, table)| :: DetectPrefix(lines, table)[j].1 in table.Values
  {
    var found := DetectPrefix(lines, table);
    forall j | 0 <= j < |found|
      ensures found[j].1 in table.Values
    {
      DetectCases(lines[j], table);
    }
  }

  /** No tool output: both lists stay empty and nothing is raised. */
  lemma FilteredEmpty(table: map<string, int>)
    ensures Filtered([], table) == (Pass, [], [])
  {
  }
}
