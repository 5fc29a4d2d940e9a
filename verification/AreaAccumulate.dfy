/**
 * The separable accumulation of one pixel run: first per box column into row buffers, then
 * distributed to the box rows, touching only the buffers the run has used.
 */
module AreaAccumulate {
  import opened Numbers
  import opened Wrappers
  import opened RealSums
  import opened RasterWindow
  import opened AreaOverlap

  /** What a pixel counts: its elevation for the sums, one for the weights, nothing when it is no-data. */
  function Counted(sample: Sample, mass: bool): real {
    if sample.None? then 0.0 else if mass then 1.0 else sample.value
  }

  /** The pixels of a run, each times its overlap with box column j. */
  ghost function RunTerm(x: (int, int) -> real, column: int, values: seq<Sample>, j: int, mass: bool): int -> real {
    k => if 0 <= k < |values| then x(column + k, j) * Counted(values[k], mass) else 0.0
  }

  ghost function RunColumn(x: (int, int) -> real, column: int, values: seq<Sample>, upTo: int, j: int, mass: bool): real {
    Sum(RunTerm(x, column, values, j, mass), 0, upTo)
  }

  /** Lists for consecutive pixels: pixel p has the entries from begin[p] up to begin[p + 1]. */
  datatype Lists = Lists(begin: seq<nat>, entries: seq<Entry>)

  ghost predicate Indexed(lists: Lists, pixels: nat) {
    && |lists.begin| == pixels + 1
    && lists.begin[0] == 0 && lists.begin[pixels] == |lists.entries|
    && forall p, q :: 0 <= p <= q <= pixels ==> lists.begin[p] <= lists.begin[q] <= |lists.entries|
  }

  function EntriesOf(lists: Lists, p: nat): seq<Entry>
    requires p + 1 < |lists.begin| && lists.begin[p] <= lists.begin[p + 1] <= |lists.entries|
  {
    lists.entries[lists.begin[p]..lists.begin[p + 1]]
  }

  /** Pixel `first + p` overlaps box j by x(first + p, j). */
  ghost predicate Represents(lists: Lists, pixels: nat, first: int, boxes: nat, x: (int, int) -> real) {
    && Indexed(lists, pixels)
    && forall p :: 0 <= p < pixels ==> AreaOverlap.Lists(EntriesOf(lists, p), boxes, Boxes(x, first + p))
  }

  ghost function Boxes(x: (int, int) -> real, pixel: int): int -> real {
    j => x(pixel, j)
  }

  /** The row buffers hold zero outside the touched boxes. */
  ghost predicate QuietOutside(sums: seq<real>, weights: seq<real>, first: int, last: int) {
    && |sums| == |weights|
    && forall j :: 0 <= j < |sums| && !(first <= j <= last) ==> sums[j] == 0.0 && weights[j] == 0.0
  }

  /** What a list adds to one box when each weight is multiplied by the value. */
  function Share(entries: seq<Entry>, sample: int, value: real): real
    decreases |entries|
  {
    if entries == [] then 0.0
    else Share(entries[..|entries| - 1], sample, value) + Weight(entries[|entries| - 1], sample) * value
  }

  lemma SharePlus(entries: seq<Entry>, entry: Entry, sample: int, value: real)
    ensures Share(entries + [entry], sample, value) == Share(entries, sample, value) + Weight(entry, sample) * value
  {
    assert (entries + [entry])[..|entries|] == entries;
  }

  lemma {:induction false} ShareIs(entries: seq<Entry>, sample: int, value: real)
    ensures Share(entries, sample, value) == ListWeight(entries, sample) * value
    decreases |entries|
  {
    if entries != [] {
      ShareIs(entries[..|entries| - 1], sample, value);
    }
  }

  ghost predicate Added(now: seq<real>, was: seq<real>, entries: seq<Entry>, value: real) {
    |now| == |was| && forall j :: 0 <= j < |now| ==> now[j] == was[j] + Share(entries, j, value)
  }

  lemma {:induction false} AddedPlus(now: seq<real>, mid: seq<real>, was: seq<real>, entries: seq<Entry>, entry: Entry, value: real)
    requires Added(mid, was, entries, value) && entry.sample < |mid|
    requires now == mid[entry.sample := mid[entry.sample] + entry.weight * value]
    ensures Added(now, was, entries + [entry], value)
  {
    forall j | 0 <= j < |now| ensures now[j] == was[j] + Share(entries + [entry], j, value) {
      SharePlus(entries, entry, j, value);
    }
  }

  /** One pixel into the row buffers. */
  method AddPixel(entries: seq<Entry>, value: real, rowSums: array<real>, rowWeights: array<real>, first: int, last: int)
    returns (first': int, last': int)
    requires rowSums != rowWeights && rowSums.Length == rowWeights.Length
    requires InBoxes(entries, rowSums.Length)
    requires 0 <= first && last < rowSums.Length && QuietOutside(rowSums[..], rowWeights[..], first, last)
    modifies rowSums, rowWeights
    ensures 0 <= first' && last' < rowSums.Length && QuietOutside(rowSums[..], rowWeights[..], first', last')
    ensures Added(rowSums[..], old(rowSums[..]), entries, value)
    ensures Added(rowWeights[..], old(rowWeights[..]), entries, 1.0)
  {
    first', last' := first, last;
    var e := 0;
    while e < |entries|
      invariant 0 <= e <= |entries|
      invariant 0 <= first' && last' < rowSums.Length && QuietOutside(rowSums[..], rowWeights[..], first', last')
      invariant Added(rowSums[..], old(rowSums[..]), entries[..e], value)
      invariant Added(rowWeights[..], old(rowWeights[..]), entries[..e], 1.0)
    {
      var overlap := entries[e];
      ghost var wasSums, wasWeights := rowSums[..], rowWeights[..];
      rowSums[overlap.sample] := rowSums[overlap.sample] + overlap.weight * value;
      rowWeights[overlap.sample] := rowWeights[overlap.sample] + overlap.weight;
      first' := Min(first', overlap.sample);
      last' := Max(last', overlap.sample);
      AddedPlus(rowSums[..], wasSums, old(rowSums[..]), entries[..e], overlap, value);
      AddedPlus(rowWeights[..], wasWeights, old(rowWeights[..]), entries[..e], overlap, 1.0);
      assert entries[..e + 1] == entries[..e] + [overlap];
      e := e + 1;
    }
    assert entries[..e] == entries;
  }

  /** A buffer holds, for each box column, the first `upTo` pixels of a run. */
  ghost predicate Gathered(buffer: seq<real>, x: (int, int) -> real, column: int, values: seq<Sample>, upTo: nat, mass: bool) {
    forall j :: 0 <= j < |buffer| ==> buffer[j] == RunColumn(x, column, values, upTo, j, mass)
  }

  lemma {:induction false} PixelGathered(x: (int, int) -> real, column: int, values: seq<Sample>, index: nat,
                                         entries: seq<Entry>, was: seq<real>, now: seq<real>, mass: bool)
    requires index < |values| && values[index].Some?
    requires Gathered(was, x, column, values, index, mass)
    requires Added(now, was, entries, Counted(values[index], mass))
    requires forall j :: 0 <= j < |was| ==> ListWeight(entries, j) == Boxes(x, column + index)(j)
    ensures Gathered(now, x, column, values, index + 1, mass)
  {
    forall j | 0 <= j < |now| ensures now[j] == RunColumn(x, column, values, index + 1, j, mass) {
      RunStep(x, column, values, index, j);
      ShareIs(entries, j, Counted(values[index], mass));
      assert ListWeight(entries, j) == x(column + index, j);
    }
  }

  /** The first half of the visitor: the whole run into the row buffers. */
  method GatherRun(column: int, values: seq<Sample>, lists: Lists, ghost pixels: nat, first: int, ghost x: (int, int) -> real,
                   rowSums: array<real>, rowWeights: array<real>)
    returns (touchedFirst: int, touchedLast: int)
    requires rowSums != rowWeights && rowSums.Length == rowWeights.Length
    requires Represents(lists, pixels, first, rowSums.Length, x)
    requires first <= column && column + |values| <= first + pixels
    requires forall j :: 0 <= j < rowSums.Length ==> rowSums[j] == 0.0 && rowWeights[j] == 0.0
    modifies rowSums, rowWeights
    ensures 0 <= touchedFirst && touchedLast < rowSums.Length
    ensures QuietOutside(rowSums[..], rowWeights[..], touchedFirst, touchedLast)
    ensures Gathered(rowSums[..], x, column, values, |values|, false)
    ensures Gathered(rowWeights[..], x, column, values, |values|, true)
  {
    touchedFirst, touchedLast := rowSums.Length, -1;
    var index := 0;
    while index < |values|
      invariant 0 <= index <= |values|
      invariant 0 <= touchedFirst && touchedLast < rowSums.Length
      invariant QuietOutside(rowSums[..], rowWeights[..], touchedFirst, touchedLast)
      invariant Gathered(rowSums[..], x, column, values, index, false)
      invariant Gathered(rowWeights[..], x, column, values, index, true)
    {
      if values[index].Some? {
        var local := column + index - first;
        var value := values[index].value;
        ghost var wasSums, wasWeights := rowSums[..], rowWeights[..];
        touchedFirst, touchedLast := AddPixel(EntriesOf(lists, local), value, rowSums, rowWeights, touchedFirst, touchedLast);
        PixelGathered(x, column, values, index, EntriesOf(lists, local), wasSums, rowSums[..], false);
        PixelGathered(x, column, values, index, EntriesOf(lists, local), wasWeights, rowWeights[..], true);
      } else {
        forall j | 0 <= j < rowSums.Length
          ensures RunColumn(x, column, values, index + 1, j, false) == RunColumn(x, column, values, index, j, false)
          ensures RunColumn(x, column, values, index + 1, j, true) == RunColumn(x, column, values, index, j, true)
        {
          RunStep(x, column, values, index, j);
        }
      }
      index := index + 1;
    }
  }

  lemma RunStep(x: (int, int) -> real, column: int, values: seq<Sample>, index: nat, j: int)
    requires index < |values|
    ensures forall mass :: RunColumn(x, column, values, index + 1, j, mass)
                           == RunColumn(x, column, values, index, j, mass) + x(column + index, j) * Counted(values[index], mass)
  {
  }

  // ---------------------------------------------------------------- distribution to the box rows

  /** Where box (i, j) of a row-major grid is kept. */
  function Cell(i: int, j: int, columns: int): int {
    i * columns + j
  }

  lemma {:induction false} Monotone(a: int, b: int, c: int)
    requires a <= b && c >= 0
    ensures a * c <= b * c
    decreases b - a
  {
    if a < b {
      Monotone(a, b - 1, c);
      OneMore(b - 1, c);
    }
  }

  lemma OneMore(a: int, c: int)
    ensures (a + 1) * c == a * c + c
  {
  }

  lemma RowFits(i: int, rows: int, columns: int)
    requires 0 <= i < rows && columns >= 0
    ensures 0 <= i * columns && i * columns + columns <= rows * columns
  {
    Monotone(0, i, columns);
    Monotone(i + 1, rows, columns);
    OneMore(i, columns);
  }

  lemma CellInside(i: int, j: int, rows: int, columns: int)
    requires 0 <= i < rows && 0 <= j < columns
    ensures 0 <= Cell(i, j, columns) < rows * columns
  {
    RowFits(i, rows, columns);
  }

  lemma RowsApart(i: int, k: int, columns: int)
    requires columns > 0
    ensures k > i ==> k * columns >= i * columns + columns
    ensures k < i ==> k * columns <= i * columns - columns
  {
    OneMore(i, columns);
    OneMore(k, columns);
    if k > i {
      Monotone(i + 1, k, columns);
    } else if k < i {
      Monotone(k + 1, i, columns);
    }
  }

  /** The grid after a row run with these entries has been distributed. */
  ghost predicate Distributed(now: seq<real>, was: seq<real>, rows: nat, entries: seq<Entry>, buffer: seq<real>) {
    && |now| == |was| == rows * |buffer|
    && forall i, j :: 0 <= i < rows && 0 <= j < |buffer| ==>
         0 <= Cell(i, j, |buffer|) < |now|
         && now[Cell(i, j, |buffer|)] == was[Cell(i, j, |buffer|)] + Share(entries, i, buffer[j])
  }

  lemma {:induction false} NothingDistributed(was: seq<real>, rows: nat, buffer: seq<real>)
    requires |was| == rows * |buffer|
    ensures Distributed(was, was, rows, [], buffer)
  {
    forall i, j | 0 <= i < rows && 0 <= j < |buffer| ensures 0 <= Cell(i, j, |buffer|) < |was| {
      CellInside(i, j, rows, |buffer|);
    }
  }

  lemma {:induction false} DistributedPlus(now: seq<real>, mid: seq<real>, was: seq<real>, rows: nat,
                                           entries: seq<Entry>, entry: Entry, buffer: seq<real>, first: int, last: int)
    requires Distributed(mid, was, rows, entries, buffer) && entry.sample < rows && |now| == |mid|
    requires 0 <= first && last < |buffer|
    requires forall j :: 0 <= j < |buffer| && !(first <= j <= last) ==> buffer[j] == 0.0
    requires AddedScaled(now, mid, Cell(entry.sample, 0, |buffer|), entry.weight, buffer, first, last)
    ensures Distributed(now, was, rows, entries + [entry], buffer)
  {
    var columns := |buffer|;
    forall i, j | 0 <= i < rows && 0 <= j < columns
      ensures 0 <= Cell(i, j, columns) < |now|
      ensures now[Cell(i, j, columns)] == was[Cell(i, j, columns)] + Share(entries + [entry], i, buffer[j])
    {
      SharePlus(entries, entry, i, buffer[j]);
      RowsApart(entry.sample, i, columns);
      CellInside(i, j, rows, columns);
    }
  }

  ghost predicate AddedScaled(now: seq<real>, was: seq<real>, base: int, weight: real, buffer: seq<real>, first: int, last: int)
    requires 0 <= first && last < |buffer|
  {
    |now| == |was| && forall k :: 0 <= k < |now| ==>
      now[k] == was[k] + if base + first <= k <= base + last then weight * buffer[k - base] else 0.0
  }

  /** One box row takes its share of the touched row buffers. */
  method AddScaled(target: array<real>, base: nat, weight: real, buffer: array<real>, first: int, last: int)
    requires target != buffer && base + buffer.Length <= target.Length
    requires 0 <= first && last < buffer.Length
    modifies target
    ensures AddedScaled(target[..], old(target[..]), base, weight, buffer[..], first, last)
  {
    var sample := first;
    while sample <= last
      invariant first <= sample
      invariant forall k :: 0 <= k < target.Length ==>
                  target[k] == old(target[k]) +
                    (if base + first <= k < base + sample && k <= base + last then weight * buffer[k - base] else 0.0)
      decreases last - sample
    {
      target[base + sample] := target[base + sample] + weight * buffer[sample];
      sample := sample + 1;
    }
  }

  /** The second half of the visitor: every box row the pixel row overlaps takes its share. */
  method DistributeRow(entries: seq<Entry>, ghost rows: nat, sums: array<real>, weights: array<real>,
                       rowSums: array<real>, rowWeights: array<real>, first: int, last: int)
    requires sums != weights && sums != rowSums && sums != rowWeights && weights != rowSums && weights != rowWeights
    requires rowSums.Length == rowWeights.Length && sums.Length == weights.Length == rows * rowSums.Length
    requires InBoxes(entries, rows)
    requires 0 <= first && last < rowSums.Length && QuietOutside(rowSums[..], rowWeights[..], first, last)
    modifies sums, weights
    ensures Distributed(sums[..], old(sums[..]), rows, entries, rowSums[..])
    ensures Distributed(weights[..], old(weights[..]), rows, entries, rowWeights[..])
  {
    var columns := rowSums.Length;
    NothingDistributed(sums[..], rows, rowSums[..]);
    NothingDistributed(weights[..], rows, rowWeights[..]);
    var e := 0;
    while e < |entries|
      invariant 0 <= e <= |entries|
      invariant Distributed(sums[..], old(sums[..]), rows, entries[..e], rowSums[..])
      invariant Distributed(weights[..], old(weights[..]), rows, entries[..e], rowWeights[..])
    {
      var overlap := entries[e];
      RowFits(overlap.sample, rows, columns);
      var base := overlap.sample * columns;
      ghost var midSums, midWeights := sums[..], weights[..];
      AddScaled(sums, base, overlap.weight, rowSums, first, last);
      AddScaled(weights, base, overlap.weight, rowWeights, first, last);
      DistributedPlus(sums[..], midSums, old(sums[..]), rows, entries[..e], overlap, rowSums[..], first, last);
      DistributedPlus(weights[..], midWeights, old(weights[..]), rows, entries[..e], overlap, rowWeights[..], first, last);
      assert entries[..e + 1] == entries[..e] + [overlap];
      e := e + 1;
    }
    assert entries[..e] == entries;
  }

  method ClearRange(buffer: array<real>, first: int, last: int)
    requires 0 <= first && last < buffer.Length
    modifies buffer
    ensures forall j :: 0 <= j < buffer.Length ==> buffer[j] == if first <= j <= last then 0.0 else old(buffer[j])
  {
    var j := first;
    while j <= last
      invariant first <= j
      invariant forall k :: 0 <= k < buffer.Length ==> buffer[k] == if first <= k < j && k <= last then 0.0 else old(buffer[k])
      decreases last - j
    {
      buffer[j] := 0.0;
      j := j + 1;
    }
  }
}
