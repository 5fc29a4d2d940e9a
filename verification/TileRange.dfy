/**
 * The wrapped column test of tile deletion (src/lib/maptiles.cpp and src/lib/terrain_data.cpp):
 * columns repeat every `count` tiles, and a deletion range may cross the antimeridian.
 */
module TileRange {
  import opened Numbers

  function PositiveModulo(value: int, divisor: int): (r: int)
    requires divisor > 0
    ensures 0 <= r < divisor
    ensures (value - r) % divisor == 0
  {
    var remainder := TruncatedRemainder(value, divisor);
    PositiveModuloExact(value, divisor);
    if remainder < 0 then remainder + divisor else remainder
  }

  lemma PositiveModuloExact(value: int, divisor: int)
    requires divisor > 0
    ensures var remainder := TruncatedRemainder(value, divisor);
            var r := if remainder < 0 then remainder + divisor else remainder;
            0 <= r < divisor && (value - r) % divisor == 0
  {
    var remainder := TruncatedRemainder(value, divisor);
    if value >= 0 {
      Multiple(value - remainder, value / divisor, divisor);
    } else {
      var q := (-value) / divisor;
      assert -value == q * divisor + (-value) % divisor;
      if remainder < 0 {
        assert value - (remainder + divisor) == (-q - 1) * divisor;
        Multiple(value - (remainder + divisor), -q - 1, divisor);
      } else {
        Multiple(value - remainder, -q, divisor);
      }
    }
  }

  lemma Scaled(turns: int, count: int)
    requires count > 0
    ensures turns >= 1 ==> turns * count >= count
    ensures turns <= -1 ==> turns * count <= -count
  {
    assert turns >= 1 ==> (turns - 1) * count >= 0;
    assert turns <= -1 ==> (turns + 1) * count <= 0;
  }

  lemma Multiple(value: int, q: int, divisor: int)
    requires divisor > 0 && value == q * divisor
    ensures value % divisor == 0 && value / divisor == q
  {
    assert (value / divisor - q) * divisor == -(value % divisor);
    Scaled(value / divisor - q, divisor);
  }

  predicate XInsideRange(x: int, count: int, min: int, max: int)
    requires count > 0
  {
    var width := max - min + 1;
    if width >= count then true
    else PositiveModulo(x - PositiveModulo(min, count), count) < width
  }

  /** Column x shifted by whole turns of the map. */
  function Shifted(x: int, turns: int, count: int): int {
    x + turns * count
  }

  ghost predicate SomeShiftInside(x: int, count: int, min: int, max: int) {
    exists turns: int :: min <= Shifted(x, turns, count) <= max
  }

  /** How far x is east of `min`, going round: the least shift of x that is not west of `min`. */
  lemma OffsetFromMin(x: int, count: int, min: int) returns (offset: int, turns: int)
    requires count > 0
    ensures offset == PositiveModulo(x - PositiveModulo(min, count), count)
    ensures Shifted(x, turns, count) == min + offset
  {
    var first := PositiveModulo(min, count);
    offset := PositiveModulo(x - first, count);
    var a := Quotient(min - first, count);
    var b := Quotient(x - first - offset, count);
    turns := a - b;
    Distribute(a, b, count);
  }

  lemma Quotient(value: int, divisor: int) returns (q: int)
    requires divisor > 0 && value % divisor == 0
    ensures value == q * divisor
  {
    q := value / divisor;
  }

  lemma Distribute(a: int, b: int, c: int)
    ensures (a - b) * c == a * c - b * c
  {
  }

  /** A column is accepted exactly when some whole-turn shift of it lies in the range. */
  lemma {:induction false} InsideIffSomeShift(x: int, count: int, min: int, max: int)
    requires count > 0
    ensures XInsideRange(x, count, min, max) <==> SomeShiftInside(x, count, min, max)
  {
    var offset, turns := OffsetFromMin(x, count, min);
    if XInsideRange(x, count, min, max) {
      assert min <= Shifted(x, turns, count) <= max;
    }
    if SomeShiftInside(x, count, min, max) && max - min + 1 < count {
      var other: int :| min <= Shifted(x, other, count) <= max;
      assert Shifted(x, other, count) - Shifted(x, turns, count) == (other - turns) * count;
      OnlyOneTurn(other - turns, count, Shifted(x, other, count) - (min + offset));
    }
  }

  lemma OnlyOneTurn(turns: int, count: int, distance: int)
    requires distance == turns * count && -count < distance < count
    ensures turns == 0 && distance == 0
  {
    Scaled(turns, count);
  }

  /** Rows do not wrap; `zoom` counts the doublings of the number of columns. */
  function TileCount(zoom: nat): (count: int)
    ensures count >= 1
  {
    if zoom == 0 then 1 else 2 * TileCount(zoom - 1)
  }
}
