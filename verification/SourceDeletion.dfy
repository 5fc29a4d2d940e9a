/**
 * deleteSourceData of src/lib/copernicus_terrain_provider.cpp: which downloaded 1 x 1 degree source
 * files a geographic box removes.
 */
module SourceDeletion {
  import opened Numbers
  import opened SourceCells
  import opened AreaGrid

  datatype DeletionBox = DeletionBox(west: real, east: real, south: real, north: real)

  predicate ValidDeletion(box: DeletionBox) {
    box.west < box.east && box.south < box.north
  }

  function Clamped(value: int): int {
    if value < -90 then -90 else if value > 89 then 89 else value
  }

  function FirstBand(box: DeletionBox): int { Clamped(Floor(box.south)) }

  function LastBand(box: DeletionBox): int { Clamped(Ceil(box.north) - 1) }

  predicate WholeTurn(box: DeletionBox) {
    Ceil(box.east) - 1 - Floor(box.west) + 1 >= 360
  }

  function FirstColumn(box: DeletionBox): int {
    if WholeTurn(box) then -180 else Floor(box.west)
  }

  function LastColumn(box: DeletionBox): int {
    if WholeTurn(box) then 179 else Ceil(box.east) - 1
  }

  /** The remainder of the loop, made non-negative by hand. */
  function DeletedWest(unwrapped: int): int {
    var remainder := TruncatedRemainder(unwrapped + 180, 360);
    (if remainder < 0 then remainder + 360 else remainder) - 180
  }

  lemma DeletedWestIs(unwrapped: int)
    ensures DeletedWest(unwrapped) == WrappedWest(unwrapped)
  {
  }

  ghost predicate Selected(box: DeletionBox, a: Address) {
    && FirstBand(box) <= a.south <= LastBand(box)
    && exists unwrapped :: FirstColumn(box) <= unwrapped <= LastColumn(box) && WrappedWest(unwrapped) == a.west
  }

  // ---------------------------------------------------------------- the loop

  /** What the deletion leaves alone: files another process downloads, and files that cannot be removed. */
  datatype Obstacles = Obstacles(locked: set<Address>, stuck: set<Address>)

  predicate Removed(files: set<Address>, o: Obstacles, a: Address) {
    a in files && a !in o.locked && a !in o.stuck
  }

  predicate Reported(files: set<Address>, o: Obstacles, a: Address) {
    a in files && a !in o.locked && a in o.stuck
  }

  /** Cells the loop has been through: whole bands, and in the current band the columns before `unwrapped`. */
  ghost predicate Passed(box: DeletionBox, south: int, unwrapped: int, a: Address) {
    || (FirstBand(box) <= a.south < south && exists w :: FirstColumn(box) <= w <= LastColumn(box) && WrappedWest(w) == a.west)
    || (a.south == south && exists w :: FirstColumn(box) <= w < unwrapped && w <= LastColumn(box) && WrappedWest(w) == a.west)
  }

  ghost predicate Progress(box: DeletionBox, files: set<Address>, o: Obstacles, south: int, unwrapped: int,
                           left: set<Address>, deleted: nat, ok: bool) {
    && left <= files && deleted == |files| - |left|
    && (forall a :: a in files ==> (a !in left <==> Passed(box, south, unwrapped, a) && Removed(files, o, a)))
    && (ok <==> forall a :: a in files && Passed(box, south, unwrapped, a) ==> !Reported(files, o, a))
  }

  lemma {:induction false} PassedNext(box: DeletionBox, south: int, unwrapped: int, a: Address)
    requires FirstBand(box) <= south && FirstColumn(box) <= unwrapped <= LastColumn(box)
    ensures Passed(box, south, unwrapped + 1, a) <==> Passed(box, south, unwrapped, a) || a == Address(south, WrappedWest(unwrapped))
  {
    if a == Address(south, WrappedWest(unwrapped)) {
      assert WrappedWest(unwrapped) == a.west;
    }
  }

  lemma {:induction false} PassedBand(box: DeletionBox, south: int, a: Address)
    requires FirstBand(box) <= south
    ensures Passed(box, south, LastColumn(box) + 1, a) <==> Passed(box, south + 1, FirstColumn(box), a)
  {
  }

  lemma {:induction false} NextBand(box: DeletionBox, files: set<Address>, o: Obstacles, south: int,
                                    left: set<Address>, deleted: nat, ok: bool)
    requires FirstBand(box) <= south && Progress(box, files, o, south, LastColumn(box) + 1, left, deleted, ok)
    ensures Progress(box, files, o, south + 1, FirstColumn(box), left, deleted, ok)
  {
    var next, first, end := south + 1, FirstColumn(box), LastColumn(box) + 1;
    forall a ensures Passed(box, south, end, a) <==> Passed(box, next, first, a) {
      PassedBand(box, south, a);
    }
  }

  /** One cell: nothing there, locked by a download, removed, or reported. */
  method DeleteCell(ghost box: DeletionBox, files: set<Address>, o: Obstacles, ghost south: int, ghost unwrapped: int, a: Address,
                    left: set<Address>, deleted: nat, ok: bool) returns (left': set<Address>, deleted': nat, ok': bool)
    requires FirstBand(box) <= south && FirstColumn(box) <= unwrapped <= LastColumn(box)
    requires a == Address(south, WrappedWest(unwrapped)) && Progress(box, files, o, south, unwrapped, left, deleted, ok)
    ensures Progress(box, files, o, south, unwrapped + 1, left', deleted', ok')
  {
    left', deleted', ok' := left, deleted, ok;
    forall b ensures Passed(box, south, unwrapped + 1, b) <==> Passed(box, south, unwrapped, b) || b == a {
      PassedNext(box, south, unwrapped, b);
    }
    if a !in left || a in o.locked {
      return;
    }
    if a !in o.stuck {
      left' := left - {a};
      deleted' := deleted + 1;
      return;
    }
    ok' := false;
    assert Passed(box, south, unwrapped + 1, a) && Reported(files, o, a);
  }

  /** Removes the selected files that can be removed, counts them, and reports those that cannot. */
  method DeleteSourceData(box: DeletionBox, files: set<Address>, o: Obstacles) returns (left: set<Address>, deleted: nat, ok: bool)
    requires ValidDeletion(box)
    ensures forall a :: a in left <==> a in files && !(Selected(box, a) && Removed(files, o, a))
    ensures deleted == |files| - |left|
    ensures ok <==> forall a :: a in files && Selected(box, a) ==> !Reported(files, o, a)
  {
    left, deleted, ok := files, 0, true;
    var first, last := FirstColumn(box), LastColumn(box);
    ColumnsInOrder(box);
    var south := FirstBand(box);
    while south <= LastBand(box)
      invariant FirstBand(box) <= south && (south <= LastBand(box) + 1 || south == FirstBand(box))
      invariant Progress(box, files, o, south, first, left, deleted, ok)
      decreases LastBand(box) - south
    {
      var unwrapped := first;
      while unwrapped <= last
        invariant first <= unwrapped <= last + 1
        invariant Progress(box, files, o, south, unwrapped, left, deleted, ok)
      {
        DeletedWestIs(unwrapped);
        left, deleted, ok := DeleteCell(box, files, o, south, unwrapped, Address(south, DeletedWest(unwrapped)), left, deleted, ok);
        unwrapped := unwrapped + 1;
      }
      NextBand(box, files, o, south, left, deleted, ok);
      south := south + 1;
    }
    forall a ensures Passed(box, south, first, a) <==> Selected(box, a) {
    }
  }

  lemma ColumnsInOrder(box: DeletionBox)
    requires ValidDeletion(box)
    ensures FirstColumn(box) <= LastColumn(box) + 1
  {
  }

  // ---------------------------------------------------------------- what is selected

  /** A cell shares a part of positive area with the box, the globe wrapping at the antimeridian. */
  ghost predicate SharesArea(box: DeletionBox, a: Address) {
    && box.south < (a.south + 1) as real && a.south as real < box.north
    && exists unwrapped :: WrappedWest(unwrapped) == a.west && box.west < (unwrapped + 1) as real && unwrapped as real < box.east
  }

  predicate OnEarth(a: Address) {
    -90 <= a.south <= 89 && -180 <= a.west <= 179
  }

  lemma {:induction false} ColumnsExact(box: DeletionBox, west: int)
    requires ValidDeletion(box) && -180 <= west <= 179
    ensures (exists u :: FirstColumn(box) <= u <= LastColumn(box) && WrappedWest(u) == west)
            <==> (exists u :: WrappedWest(u) == west && box.west < (u + 1) as real && u as real < box.east)
  {
    if WholeTurn(box) {
      assert WrappedWest(west) == west;
      var first := Floor(box.west);
      var u := first + (west - first) % 360;
      assert first <= u < first + 360 && (u - west) % 360 == 0;
      SameWrap(u, west);
      assert WrappedWest(u) == west && box.west < (u + 1) as real && u as real < box.east;
    } else {
      forall u | WrappedWest(u) == west
        ensures (FirstColumn(box) <= u <= LastColumn(box)) <==> (box.west < (u + 1) as real && u as real < box.east) {
      }
    }
  }

  lemma SameWrap(u: int, west: int)
    requires -180 <= west <= 179 && (u - west) % 360 == 0
    ensures WrappedWest(u) == west
  {
    WrappedWestIs(u);
  }

  lemma BandsExact(box: DeletionBox, south: int)
    requires ValidDeletion(box) && box.south < 90.0 && box.north > -90.0 && -90 <= south <= 89
    ensures FirstBand(box) <= south <= LastBand(box) <==> box.south < (south + 1) as real && south as real < box.north
  {
  }

  /**
   * The deletion selects exactly the cells that share area with the box if and only if the box
   * reaches below the north pole and above the south pole; otherwise it takes a polar band.
   */
  lemma {:induction false} SelectionIsExactIff(box: DeletionBox)
    requires ValidDeletion(box)
    ensures (forall a :: OnEarth(a) ==> (Selected(box, a) <==> SharesArea(box, a))) <==> box.south < 90.0 && box.north > -90.0
  {
    if box.south < 90.0 && box.north > -90.0 {
      forall a | OnEarth(a) ensures Selected(box, a) <==> SharesArea(box, a) {
        ColumnsExact(box, a.west);
        BandsExact(box, a.south);
      }
    } else {
      var a := Address(if box.south >= 90.0 then 89 else -90, WrappedWest(FirstColumn(box)));
      WrappedWestIs(FirstColumn(box));
      BandBeyondPole(box);
      assert FirstColumn(box) <= LastColumn(box);
      assert OnEarth(a) && Selected(box, a) && !SharesArea(box, a);
    }
  }

  lemma BandBeyondPole(box: DeletionBox)
    requires ValidDeletion(box) && (box.south >= 90.0 || box.north <= -90.0)
    ensures FirstBand(box) == LastBand(box) == if box.south >= 90.0 then 89 else -90
    ensures FirstColumn(box) <= LastColumn(box)
  {
  }
}
