/**
 * Random numeric ids by bounded retry: each attempt draws a candidate in a fixed
 * range and keeps it when the repository does not hold it yet. The random draws
 * (what `nextInt(bound)` returned, one per attempt) are an input.
 */
module IdGenerator {
  import opened Common

  const MIN_ID_SIX: int := 100_000
  const MAX_ID_SIX: int := 999_999
  const MIN_ID_EIGHT: int := 10_000_000
  const MAX_ID_EIGHT: int := 99_999_999

  /** Every draw is a value `nextInt(hi - lo + 1)` can return. */
  predicate DrawsFit(draws: seq<int>, lo: int, hi: int) {
    forall j :: 0 <= j < |draws| ==> 0 <= draws[j] < hi - lo + 1
  }

  /**
   * The shared loop: `existing` are the repository's ids, `checks` counts the
   * existsById calls. The result is the first free candidate; all attempts
   * colliding ends in IllegalStateException.
   */
  method GenerateUniqueId(lo: int, hi: int, existing: set<int>, draws: seq<int>, maxAttempts: int)
    returns (r: Result<int>, checks: nat)
    requires lo <= hi
    requires DrawsFit(draws, lo, hi)
    requires maxAttempts <= |draws|
    ensures r.Ok? ==> 1 <= checks <= maxAttempts && r.value == lo + draws[checks - 1]
    ensures r.Ok? ==> lo <= r.value <= hi && r.value !in existing
    ensures r.Ok? ==> forall j :: 0 <= j < checks - 1 ==> lo + draws[j] in existing
    ensures r.Err? ==> r.error == IllegalState
    ensures r.Err? <==> forall j :: 0 <= j < maxAttempts ==> lo + draws[j] in existing
    ensures r.Err? ==> checks == if maxAttempts < 0 then 0 else maxAttempts
  {
    checks := 0;
    var i := 0;
    while i < maxAttempts
      invariant 0 <= i <= (if maxAttempts < 0 then 0 else maxAttempts)
      invariant checks == i
      invariant forall j :: 0 <= j < i ==> lo + draws[j] in existing
    {
      var candidate := lo + draws[i];
      checks := checks + 1;
      if candidate !in existing {
        return Ok(candidate), checks;
      }
      i := i + 1;
    }
    r := Err(IllegalState);
  }

  /** generateUniqueUserId: an eight-digit id not held by any user. */
  method GenerateUniqueUserId(existing: set<int>, draws: seq<int>, maxAttempts: int)
    returns (r: Result<int>, checks: nat)
    requires DrawsFit(draws, MIN_ID_EIGHT, MAX_ID_EIGHT)
    requires maxAttempts <= |draws|
    ensures r.Ok? ==> MIN_ID_EIGHT <= r.value <= MAX_ID_EIGHT && r.value !in existing
    ensures r.Ok? ==> 1 <= checks <= maxAttempts && r.value == MIN_ID_EIGHT + draws[checks - 1]
    ensures r.Ok? ==> forall j :: 0 <= j < checks - 1 ==> MIN_ID_EIGHT + draws[j] in existing
    ensures r.Err? <==> forall j :: 0 <= j < maxAttempts ==> MIN_ID_EIGHT + draws[j] in existing
    ensures r.Err? ==> r.error == IllegalState
  {
    r, checks := GenerateUniqueId(MIN_ID_EIGHT, MAX_ID_EIGHT, existing, draws, maxAttempts);
  }

  /** generateUniqueStationId: a six-digit id not held by any station. */
  method GenerateUniqueStationId(existing: set<int>, draws: seq<int>, maxAttempts: int)
    returns (r: Result<int>, checks: nat)
    requires DrawsFit(draws, MIN_ID_SIX, MAX_ID_SIX)
    requires maxAttempts <= |draws|
    ensures r.Ok? ==> MIN_ID_SIX <= r.value <= MAX_ID_SIX && r.value !in existing
    ensures r.Ok? ==> 1 <= checks <= maxAttempts && r.value == MIN_ID_SIX + draws[checks - 1]
    ensures r.Ok? ==> forall j :: 0 <= j < checks - 1 ==> MIN_ID_SIX + draws[j] in existing
    ensures r.Err? <==> forall j :: 0 <= j < maxAttempts ==> MIN_ID_SIX + draws[j] in existing
    ensures r.Err? ==> r.error == IllegalState
  {
    r, checks := GenerateUniqueId(MIN_ID_SIX, MAX_ID_SIX, existing, draws, maxAttempts);
  }
}
