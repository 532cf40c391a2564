/** The crash-point distribution of `calculateCrashMultiplier`.

    The source draws `Math.random()` twice: once to pick a band (the roll,
    scaled to [0, 100)) and once to pick a point inside the band.  Both draws
    are parameters here, so the function is a pure piecewise map.  Results are
    integer hundredths: 1.00x is 100.
 */
module CrashDistribution {

  /** A value `Math.random()` can return. */
  predicate IsDraw(u: real) {
    0.0 <= u < 1.0
  }

  /** `x.toFixed(2)` for a non-negative x, read back in hundredths: the nearest
      hundredth, a tie going to the larger one. */
  function ToHundredths(x: real): (r: int)
    requires x >= 0.0
    ensures -0.5 <= x * 100.0 - r as real < 0.5
  {
    (x * 100.0 + 0.5).Floor
  }

  /** The five outcomes of the roll, in the order the source tests them. */
  datatype Band = Low | Mid | High | Huge | Fallback

  /** Which band a roll in [0, 100) selects; every test is inclusive. */
  function BandOf(roll: real): Band {
    if roll <= 60.0 then Low
    else if roll <= 70.0 then Mid
    else if roll <= 75.0 then High
    else if roll <= 77.0 then Huge
    else Fallback
  }

  /** The closed range, in hundredths, that each band's crash points cover,
      as the source's comments describe it ("1x to 5x", ...) and with the
      upper end reachable through rounding. */
  function Lo(b: Band): int {
    match b
    case Low => 100
    case Mid => 500
    case High => 2000
    case Huge => 10000
    case Fallback => 101
  }

  function Hi(b: Band): int {
    match b
    case Low => 500
    case Mid => 2000
    case High => 10000
    case Huge => 100000
    case Fallback => 101
  }

  /** `calculateCrashMultiplier` with its two draws made explicit. */
  function CrashPoint(u1: real, u2: real): (c: int)
    requires IsDraw(u1) && IsDraw(u2)
    ensures c >= 100
    ensures Lo(BandOf(u1 * 100.0)) <= c <= Hi(BandOf(u1 * 100.0))
  {
    var roll := u1 * 100.0;
    if roll <= 60.0 then ToHundredths(u2 * 4.0 + 1.0)
    else if roll <= 70.0 then ToHundredths(u2 * 15.0 + 5.0)
    else if roll <= 75.0 then ToHundredths(u2 * 80.0 + 20.0)
    else if roll <= 77.0 then ToHundredths(u2 * 900.0 + 100.0)
    else 101
  }

  /** Every hundredth of a band's range is the crash point of some second
      draw: together with the ensures of `CrashPoint`, a band's image is
      exactly [Lo, Hi]. */
  lemma BandIsOnto(u1: real, c: int)
    requires IsDraw(u1)
    requires Lo(BandOf(u1 * 100.0)) <= c <= Hi(BandOf(u1 * 100.0))
    ensures exists u2 :: IsDraw(u2) && CrashPoint(u1, u2) == c
  {
    var b := BandOf(u1 * 100.0);
    if b == Fallback {
      assert CrashPoint(u1, 0.0) == c;
    } else {
      var lo := Lo(b);
      var span := (Hi(b) - Lo(b)) as real;
      var u2 := if c < Hi(b) then (c - lo) as real / span else (span - 0.25) / span;
      assert IsDraw(u2);
      assert CrashPoint(u1, u2) == c;
    }
  }

  /** The source can return exactly 1.00: a round that crashes before it
      climbs at all. */
  lemma CrashAtOnePossible()
    ensures CrashPoint(0.0, 0.0) == 100
    ensures CrashPoint(0.5, 0.001) == 100
  {
  }
}
