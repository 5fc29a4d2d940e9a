/**
 * Overlaps between pixel footprints and sample boxes, and the overlap lists that the area average
 * of src/lib/copernicus_terrain_provider.cpp builds once a cell. Coordinates are exact reals.
 */
module AreaOverlap {
  import opened RealSums

  function MaxReal(a: real, b: real): real { if a >= b then a else b }

  function MinReal(a: real, b: real): real { if a <= b then a else b }

  /** The length two intervals share. */
  function Overlap(low: real, high: real, from: real, to: real): (length: real)
    ensures length >= 0.0
  {
    MaxReal(0.0, MinReal(high, to) - MaxReal(low, from))
  }

  predicate Ascending(edges: seq<real>) {
    forall i, j :: 0 <= i <= j < |edges| ==> edges[i] <= edges[j]
  }

  predicate Descending(edges: seq<real>) {
    forall i, j :: 0 <= i <= j < |edges| ==> edges[i] >= edges[j]
  }

  /** Box columns ascend with longitude; box rows descend with latitude. */
  function ColumnOverlap(lon: seq<real>, j: int, low: real, high: real): real {
    if 0 <= j < |lon| - 1 then Overlap(low, high, lon[j], lon[j + 1]) else 0.0
  }

  function RowOverlap(lat: seq<real>, i: int, low: real, high: real): real {
    if 0 <= i < |lat| - 1 then Overlap(low, high, lat[i + 1], lat[i]) else 0.0
  }

  // ---------------------------------------------------------------- overlap lists

  datatype Entry = Entry(sample: nat, weight: real)

  function Weight(entry: Entry, sample: int): real {
    if entry.sample == sample then entry.weight else 0.0
  }

  /** The weight a list gives to one box. */
  function ListWeight(entries: seq<Entry>, sample: int): real
    decreases |entries|
  {
    if entries == [] then 0.0
    else ListWeight(entries[..|entries| - 1], sample) + Weight(entries[|entries| - 1], sample)
  }

  lemma ListWeightPlus(entries: seq<Entry>, entry: Entry, sample: int)
    ensures ListWeight(entries + [entry], sample) == ListWeight(entries, sample) + Weight(entry, sample)
  {
    assert (entries + [entry])[..|entries|] == entries;
  }

  ghost predicate InBoxes(entries: seq<Entry>, boxes: int) {
    forall e :: 0 <= e < |entries| ==> entries[e].sample < boxes
  }

  /** The list holds the overlap with every box, and no box beyond. */
  ghost predicate Lists(entries: seq<Entry>, boxes: int, overlap: int -> real) {
    && InBoxes(entries, boxes)
    && forall sample :: 0 <= sample < boxes ==> ListWeight(entries, sample) == overlap(sample)
  }

  /** std::upper_bound: how many of the ascending edges do not exceed the value. */
  method UpperBound(edges: seq<real>, value: real) returns (n: nat)
    requires Ascending(edges)
    ensures n <= |edges|
    ensures forall i :: 0 <= i < n ==> edges[i] <= value
    ensures forall i :: n <= i < |edges| ==> edges[i] > value
  {
    var low, high := 0, |edges|;
    while low < high
      invariant 0 <= low <= high <= |edges|
      invariant forall i :: 0 <= i < low ==> edges[i] <= value
      invariant forall i :: high <= i < |edges| ==> edges[i] > value
    {
      var mid := (low + high) / 2;
      if edges[mid] <= value {
        low := mid + 1;
      } else {
        high := mid;
      }
    }
    n := low;
  }

  function ColumnOverlaps(lon: seq<real>, low: real, high: real): int -> real {
    j => ColumnOverlap(lon, j, low, high)
  }

  function RowOverlaps(lat: seq<real>, low: real, high: real): int -> real {
    i => RowOverlap(lat, i, low, high)
  }

  /** The boxes [0, upTo) of a list so far. */
  ghost predicate ListsUpTo(entries: seq<Entry>, boxes: int, upTo: int, overlap: int -> real) {
    && InBoxes(entries, boxes)
    && (forall sample :: 0 <= sample < upTo ==> ListWeight(entries, sample) == overlap(sample))
    && (forall sample :: upTo <= sample ==> ListWeight(entries, sample) == 0.0)
  }

  /** Adds one box to a list when the overlap is positive. */
  method PushOverlap(entries: seq<Entry>, boxes: int, sample: nat, length: real, ghost overlap: int -> real)
    returns (more: seq<Entry>)
    requires sample < boxes && ListsUpTo(entries, boxes, sample, overlap)
    requires overlap(sample) == MaxReal(0.0, length)
    ensures ListsUpTo(more, boxes, sample + 1, overlap)
  {
    more := entries;
    if length > 0.0 {
      more := entries + [Entry(sample, length)];
      forall s: int ensures ListWeight(more, s) == ListWeight(entries, s) + Weight(Entry(sample, length), s) {
        ListWeightPlus(entries, Entry(sample, length), s);
      }
    }
  }

  /** The boxes a pixel column overlaps: from the box its west edge is in, eastward. */
  method OverlapsOfColumn(lon: seq<real>, low: real, high: real) returns (entries: seq<Entry>)
    requires |lon| >= 1 && Ascending(lon)
    ensures Lists(entries, |lon| - 1, ColumnOverlaps(lon, low, high))
  {
    var columns := |lon| - 1;
    ghost var overlap := ColumnOverlaps(lon, low, high);
    entries := [];
    var before := UpperBound(lon, low);
    var sample: nat := if before >= 1 then before - 1 else 0;
    assert forall j :: 0 <= j < sample && j < columns ==> overlap(j) == 0.0 by {
      assert sample > 0 ==> lon[sample] <= low;
    }
    ghost var start := sample;
    assert forall s: int :: ListWeight(entries, s) == 0.0;
    while sample < columns && lon[sample] < high
      invariant start <= sample
      invariant ListsUpTo(entries, columns, if sample < columns then sample else columns, overlap)
      decreases columns - sample
    {
      entries := PushOverlap(entries, columns, sample, MinReal(high, lon[sample + 1]) - MaxReal(low, lon[sample]), overlap);
      sample := sample + 1;
    }
    forall j | 0 <= j < columns ensures ListWeight(entries, j) == overlap(j) {
      if j >= sample {
        assert lon[j] >= lon[sample] >= high;
      }
    }
  }

  /** The boxes a pixel row overlaps: from the first box whose south edge lies below its north edge. */
  method OverlapsOfRow(lat: seq<real>, low: real, high: real) returns (entries: seq<Entry>)
    requires |lat| >= 1 && Descending(lat)
    ensures Lists(entries, |lat| - 1, RowOverlaps(lat, low, high))
  {
    var rows := |lat| - 1;
    ghost var overlap := RowOverlaps(lat, low, high);
    entries := [];
    var sample: nat := 0;
    while sample < rows && lat[sample + 1] >= high
      invariant sample <= rows
      invariant forall i :: 0 < i <= sample ==> lat[i] >= high
    {
      sample := sample + 1;
    }
    assert forall i :: 0 <= i < sample ==> overlap(i) == 0.0;
    assert forall s: int :: ListWeight(entries, s) == 0.0;
    while sample < rows && lat[sample] > low
      invariant sample <= rows
      invariant ListsUpTo(entries, rows, sample, overlap)
    {
      entries := PushOverlap(entries, rows, sample, MinReal(high, lat[sample]) - MaxReal(low, lat[sample + 1]), overlap);
      sample := sample + 1;
    }
    forall i | 0 <= i < rows ensures ListWeight(entries, i) == overlap(i) {
      if i >= sample {
        assert lat[i] <= lat[sample] <= low;
      }
    }
  }

  // ---------------------------------------------------------------- telescoping

  /** Adjacent boxes share a pixel column without gap or double counting. */
  lemma {:induction false} ColumnsTelescope(lon: seq<real>, low: real, high: real, n: nat)
    requires Ascending(lon) && n < |lon| && low <= high
    ensures Sum(ColumnOverlaps(lon, low, high), 0, n) == Overlap(low, high, lon[0], lon[n])
    decreases n
  {
    if n > 0 {
      ColumnsTelescope(lon, low, high, n - 1);
      assert lon[0] <= lon[n - 1] <= lon[n];
    }
  }

  lemma {:induction false} RowsTelescope(lat: seq<real>, low: real, high: real, n: nat)
    requires Descending(lat) && n < |lat| && low <= high
    ensures Sum(RowOverlaps(lat, low, high), 0, n) == Overlap(low, high, lat[n], lat[0])
    decreases n
  {
    if n > 0 {
      RowsTelescope(lat, low, high, n - 1);
      assert lat[0] >= lat[n - 1] >= lat[n];
    }
  }
}
