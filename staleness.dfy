/** The refresh decision of `fetch_benchmarks`: fetch when the cached file is missing, or when
    its age, rounded to whole hours, exceeds the 30-day threshold. */
module Staleness {
  import Rounding

  /** `modify_threshold`: 30 days, in hours. */
  const ModifyThreshold: int := 24 * 30

  /** `round((c_time - p) / 3600)`: the file's age in whole hours, from its age in seconds. */
  function AgeHours(ageSeconds: real): int
  {
    Rounding.RoundHalfEven(ageSeconds / 3600.0)
  }

  /** Whether the benchmark JSON is downloaded before it is parsed. */
  predicate NeedsFetch(cacheExists: bool, ageSeconds: real)
  {
    !cacheExists || AgeHours(ageSeconds) > ModifyThreshold
  }

  /** An existing file is refetched exactly when it is more than 720.5 hours (2,593,800 s) old:
      an age of exactly 720.5 hours rounds to the even 720 and is kept. */
  lemma NeedsFetchExactly(ageSeconds: real)
    ensures NeedsFetch(true, ageSeconds) <==> ageSeconds > 2593800.0
  {
    var y := ageSeconds / 3600.0;
    var n := AgeHours(ageSeconds);
    if ageSeconds > 2593800.0 {
      assert y > 720.5;
    } else {
      assert y <= 720.5;
    }
  }

  /** The decision is monotone in the age: an older file is never kept when a newer one is
      refetched. */
  lemma NeedsFetchMonotone(younger: real, older: real)
    requires younger <= older
    ensures NeedsFetch(true, younger) ==> NeedsFetch(true, older)
  {
    NeedsFetchExactly(younger);
    NeedsFetchExactly(older);
  }

  /** A missing file is always fetched, whatever age is reported. */
  lemma MissingIsFetched(ageSeconds: real)
    ensures NeedsFetch(false, ageSeconds)
  {
  }
}
