/** What the elevation served at a place of a tile is, in terms of the samples around the place. */
module TileInterpolation {
  import opened Wrappers
  import opened TerrainTileCodec
  import opened ElevationSampling
  import Pixels = PixelSampling

  /** The sample c columns east and r rows south of the north-west corner; none where the tile has no data. */
  function SampleOf(elevations: seq<Number>, c: int, r: int): Option<real> {
    var index := r * 65 + c;
    if 0 <= c <= 64 && 0 <= r <= 64 && index < |elevations| && elevations[index].Finite? then Some(elevations[index].value) else None
  }

  lemma PlaceParts(c: nat, p: real)
    requires c <= 64 && 0.0 <= p < 1.0 && (c == 64 ==> p == 0.0)
    ensures var place := c as real + p;
      0.0 <= place <= 64.0 && Low(place) == c && place - c as real == p && High(place) == if c < 64 then c + 1 else c
  {
  }

  lemma {:induction false} CornerIs(elevations: seq<Number>, c: nat, p: real, r: nat, q: real, k: int)
    requires |elevations| == SAMPLES && c <= 64 && r <= 64 && 0.0 <= p < 1.0 && 0.0 <= q < 1.0 && (c == 64 ==> p == 0.0) && (r == 64 ==> q == 0.0)
    requires 0 <= k < 4
    ensures Weight(c as real + p, r as real + q, k) == Times(if k % 2 == 0 then 1.0 - p else p, if k < 2 then 1.0 - q else q)
    ensures CornerIndex(c as real + p, r as real + q, k)
            == (if k < 2 || r == 64 then r else r + 1) * 65 + (if k % 2 == 0 || c == 64 then c else c + 1)
  {
    PlaceParts(c, p);
    PlaceParts(r, q);
  }

  /** One corner more, with its weight and its sample. */
  function PlusCorner(w: real, sample: Option<real>, rest: Option<real>): Option<real> {
    if !Pixels.Counts(w) then rest else if sample.None? || rest.None? then None else Some(Times(w, sample.value) + rest.value)
  }

  lemma {:induction false} CornersStep(elevations: seq<Number>, column: real, row: real, k: int, w: real, e: Number, rest: Option<real>)
    requires |elevations| == SAMPLES && 0.0 <= column <= CELLS as real && 0.0 <= row <= CELLS as real && 0 <= k < 4
    requires w == Weight(column, row, k) && rest == CornersFrom(elevations, column, row, k + 1)
    requires 0 <= CornerIndex(column, row, k) < SAMPLES && e == elevations[CornerIndex(column, row, k)]
    ensures CornersFrom(elevations, column, row, k) == PlusCorner(w, ValueOf(e), rest)
  {
  }

  lemma FourCorners(a: real, A: Option<real>, b: real, B: Option<real>, c: real, C: Option<real>, d: real, D: Option<real>)
    ensures PlusCorner(a, A, PlusCorner(b, B, PlusCorner(c, C, PlusCorner(d, D, Some(0.0))))) == Pixels.Mix(a, A, b, B, c, C, d, D)
  {
  }

  lemma ZeroWeights(x: real)
    ensures Times(0.0, x) == 0.0 && Times(x, 0.0) == 0.0
  {
  }

  function ValueOf(e: Number): Option<real> { if e.Finite? then Some(e.value) else None }

  lemma CornerSample(elevations: seq<Number>, c: nat, p: real, r: nat, q: real, k: int, w: real, sample: Option<real>, index: int)
    requires |elevations| == SAMPLES && c <= 64 && r <= 64 && (c == 64 ==> p == 0.0) && (r == 64 ==> q == 0.0) && 0 <= k < 4
    requires w == Times(if k % 2 == 0 then 1.0 - p else p, if k < 2 then 1.0 - q else q)
    requires sample == SampleOf(elevations, if k % 2 == 0 then c else c + 1, if k < 2 then r else r + 1)
    requires index == (if k < 2 || r == 64 then r else r + 1) * 65 + (if k % 2 == 0 || c == 64 then c else c + 1)
    ensures 0 <= index < SAMPLES
    ensures Pixels.Counts(w) ==> sample == ValueOf(elevations[index])
  {
    ZeroWeights(if k % 2 == 0 then 1.0 - p else p);
    ZeroWeights(if k < 2 then 1.0 - q else q);
  }

  lemma PlusDepends(w: real, sample: Option<real>, sample': Option<real>, rest: Option<real>)
    requires Pixels.Counts(w) ==> sample == sample'
    ensures PlusCorner(w, sample, rest) == PlusCorner(w, sample', rest)
  {
  }

  lemma {:induction false} Corner(elevations: seq<Number>, c: nat, p: real, r: nat, q: real, k: int, w: real, sample: Option<real>)
    requires |elevations| == SAMPLES && c <= 64 && r <= 64 && 0.0 <= p < 1.0 && 0.0 <= q < 1.0 && (c == 64 ==> p == 0.0) && (r == 64 ==> q == 0.0)
    requires 0 <= k < 4 && w == Times(if k % 2 == 0 then 1.0 - p else p, if k < 2 then 1.0 - q else q)
    requires sample == SampleOf(elevations, if k % 2 == 0 then c else c + 1, if k < 2 then r else r + 1)
    ensures 0.0 <= c as real + p <= 64.0 && 0.0 <= r as real + q <= 64.0
    ensures CornersFrom(elevations, c as real + p, r as real + q, k) == PlusCorner(w, sample, CornersFrom(elevations, c as real + p, r as real + q, k + 1))
  {
    PlaceParts(c, p);
    PlaceParts(r, q);
    var column, row := c as real + p, r as real + q;
    var index, rest := CornerIndex(column, row, k), CornersFrom(elevations, column, row, k + 1);
    CornerIs(elevations, c, p, r, q, k);
    CornerSample(elevations, c, p, r, q, k, w, sample, index);
    CornersStep(elevations, column, row, k, w, elevations[index], rest);
    PlusDepends(w, sample, ValueOf(elevations[index]), rest);
  }

  /** The elevation at a place is the blend of the four samples around it, each weighted with the area of the rectangle opposite to it. */
  lemma {:induction false} InterpolatedIsMix(elevations: seq<Number>, c: nat, p: real, r: nat, q: real)
    requires |elevations| == SAMPLES && c <= 64 && r <= 64 && 0.0 <= p < 1.0 && 0.0 <= q < 1.0 && (c == 64 ==> p == 0.0) && (r == 64 ==> q == 0.0)
    ensures Interpolated(elevations, c as real + p, r as real + q)
            == Pixels.Mix((1.0 - p) * (1.0 - q), SampleOf(elevations, c, r), p * (1.0 - q), SampleOf(elevations, c + 1, r),
                          (1.0 - p) * q, SampleOf(elevations, c, r + 1), p * q, SampleOf(elevations, c + 1, r + 1))
  {
    var w0, w1, w2, w3 := Times(1.0 - p, 1.0 - q), Times(p, 1.0 - q), Times(1.0 - p, q), Times(p, q);
    var A, B, C, D := SampleOf(elevations, c, r), SampleOf(elevations, c + 1, r), SampleOf(elevations, c, r + 1), SampleOf(elevations, c + 1, r + 1);
    Corner(elevations, c, p, r, q, 0, w0, A);
    Corner(elevations, c, p, r, q, 1, w1, B);
    Corner(elevations, c, p, r, q, 2, w2, C);
    Corner(elevations, c, p, r, q, 3, w3, D);
    FourCorners(w0, A, w1, B, w2, C, w3, D);
  }

  /** At the place of a sample the sample itself is served. */
  lemma {:induction false} SampleIsServed(elevations: seq<Number>, c: nat, r: nat, zero: real)
    requires |elevations| == SAMPLES && c <= 64 && r <= 64 && zero == 0.0
    ensures Interpolated(elevations, c as real + zero, r as real + zero) == SampleOf(elevations, c, r)
  {
    InterpolatedIsMix(elevations, c, zero, r, zero);
    Pixels.MixOnRow(zero, SampleOf(elevations, c, r), SampleOf(elevations, c + 1, r), SampleOf(elevations, c, r + 1), SampleOf(elevations, c + 1, r + 1));
    Pixels.AllOfOne(SampleOf(elevations, c, r), SampleOf(elevations, c + 1, r), zero);
  }
}
