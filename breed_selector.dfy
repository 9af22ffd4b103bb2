/**
 * The contract's `getBreedFromModdedRng`: a number in [0, 100) is mapped to a
 * breed (club) index through an ordered table of cumulative upper bounds;
 * breed `i` owns the half-open range [chances[i-1], chances[i]) (from 0 for
 * the first breed), and a number at or above the last bound is rejected.
 */
module BreedSelector {
  import opened Wrappers

  /** The modulus applied to the oracle's random word before selection. */
  const MaxChanceValue: nat := 100

  datatype BreedError = RangeOutOfBounds

  predicate StrictlyIncreasing(chances: seq<nat>) {
    forall i, j :: 0 <= i < j < |chances| ==> chances[i] < chances[j]
  }

  /** A well-formed chance table: ascending bounds, the last one the modulus. */
  predicate ChanceTable(chances: seq<nat>) {
    StrictlyIncreasing(chances) && |chances| > 0 && chances[|chances| - 1] == MaxChanceValue
  }

  function LowerBound(chances: seq<nat>, i: nat): nat
    requires i < |chances|
  {
    if i == 0 then 0 else chances[i - 1]
  }

  /** `moddedRng` lies in breed `i`'s range. */
  predicate InBucket(chances: seq<nat>, i: nat, moddedRng: nat) {
    i < |chances| && LowerBound(chances, i) <= moddedRng < chances[i]
  }

  /** The scan from index `i` on, every earlier bound having been passed. */
  function ScanFrom(moddedRng: nat, chances: seq<nat>, i: nat): (r: Result<nat, BreedError>)
    requires i <= |chances| && StrictlyIncreasing(chances)
    requires i > 0 ==> chances[i - 1] <= moddedRng
    ensures r.Success? ==> i <= r.value && InBucket(chances, r.value, moddedRng)
    ensures r.Failure? <==> |chances| == 0 || chances[|chances| - 1] <= moddedRng
    decreases |chances| - i
  {
    if i == |chances| then Failure(RangeOutOfBounds)
    else if moddedRng < chances[i] then Success(i)
    else ScanFrom(moddedRng, chances, i + 1)
  }

  /** The breed whose range holds `moddedRng`; numbers at or above the last bound are rejected. */
  function GetBreedFromModdedRng(moddedRng: nat, chances: seq<nat>): (r: Result<nat, BreedError>)
    requires StrictlyIncreasing(chances)
    ensures r.Success? ==> InBucket(chances, r.value, moddedRng)
    ensures r.Failure? <==> |chances| == 0 || chances[|chances| - 1] <= moddedRng
  {
    ScanFrom(moddedRng, chances, 0)
  }

  /** A number in one breed's range lies below the range of every later breed. */
  lemma BucketsDisjoint(chances: seq<nat>, i: nat, j: nat, moddedRng: nat)
    requires StrictlyIncreasing(chances)
    requires InBucket(chances, i, moddedRng) && i < j < |chances|
    ensures moddedRng < LowerBound(chances, j) && !InBucket(chances, j, moddedRng)
  {
  }

  /** The selector returns breed `i` exactly when `moddedRng` lies in breed `i`'s range. */
  lemma GetBreedMatchesBucket(chances: seq<nat>, moddedRng: nat, i: nat)
    requires StrictlyIncreasing(chances)
    ensures GetBreedFromModdedRng(moddedRng, chances) == Success(i) <==> InBucket(chances, i, moddedRng)
  {
    var r := GetBreedFromModdedRng(moddedRng, chances);
    if InBucket(chances, i, moddedRng) {
      assert chances[i] <= chances[|chances| - 1];
      if r.value < i {
        BucketsDisjoint(chances, r.value, i, moddedRng);
      } else if i < r.value {
        BucketsDisjoint(chances, i, r.value, moddedRng);
      }
    }
  }

  /** Every reduced random word `w % 100` gets a breed from a well-formed table. */
  lemma EveryModdedRngHasBreed(chances: seq<nat>, randomWord: nat)
    requires ChanceTable(chances)
    ensures GetBreedFromModdedRng(randomWord % MaxChanceValue, chances).Success?
    ensures GetBreedFromModdedRng(randomWord % MaxChanceValue, chances).value < |chances|
  {
  }

  /**
   * The tables the unit tests are consistent with: bounds 10 and 40 first,
   * the third above 74, the last 100, and at most one breed per club.
   */
  predicate ChanceTableAsTested(chances: seq<nat>) {
    && ChanceTable(chances)
    && 3 <= |chances| <= 4
    && chances[0] == 10 && chances[1] == 40 && chances[2] > 74
  }

  /** The values the unit tests pass to `getBreedFromModdedRng`, and the boundary 39. */
  lemma TestedBreeds(chances: seq<nat>)
    requires ChanceTableAsTested(chances)
    ensures GetBreedFromModdedRng(7, chances) == Success(0)
    ensures GetBreedFromModdedRng(22, chances) == Success(1)
    ensures GetBreedFromModdedRng(39, chances) == Success(1)
    ensures GetBreedFromModdedRng(74, chances) == Success(2)
    ensures GetBreedFromModdedRng(112, chances) == Failure(RangeOutOfBounds)
  {
    GetBreedMatchesBucket(chances, 7, 0);
    GetBreedMatchesBucket(chances, 22, 1);
    GetBreedMatchesBucket(chances, 39, 1);
    GetBreedMatchesBucket(chances, 74, 2);
    var r := GetBreedFromModdedRng(112, chances);
    assert r.Failure? && r.error == RangeOutOfBounds;
  }
}
