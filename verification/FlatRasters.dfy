/** Rasters that hold one elevation everywhere, as examples to tell things apart. */
module FlatRasters {
  import opened Wrappers
  import opened RasterWindow
  import opened AreaGrid

  function Flat(columns: nat, elevation: real): Raster {
    Raster(columns, 3600, Stripped(1), _ => Some(seq(columns, _ => Some(elevation))))
  }

  lemma FlatPixel(columns: nat, elevation: real, column: int, row: int)
    requires -10000.0 < elevation < 100000.0 && 0 <= column < columns && 0 <= row < 3600
    ensures ValidRaster(Flat(columns, elevation)) && Pixel(Flat(columns, elevation), column, row) == Some(elevation)
  {
  }

  /** One meter of land in every cell of this longitude, and no data elsewhere. */
  function OnlyAt(columns: nat, west: int): Source {
    (s: int, w: int) => if w == west then Loaded(Flat(columns, 1.0)) else Missing
  }

  lemma OnlyAtIsGlo30(columns: nat, west: int)
    requires 0 < columns <= 3600
    ensures Glo30(OnlyAt(columns, west), columns)
  {
    var source := OnlyAt(columns, west);
    forall s, w ensures source(s, w) == if w == west then Loaded(Flat(columns, 1.0)) else Missing {
    }
  }
}
