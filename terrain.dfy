/**
 * Terrain classification: the noise value at a world cell is bucketed by an
 * ordered table of inclusive ranges, and the first range that contains the
 * value decides the tile's colour.
 */
module Terrain {

  /** The tile colours used by both revisions, named after their sRGB triples. */
  datatype Color =
    | Navy        // srgb(0.0, 0.0, 0.5)
    | Blue        // srgb(0.0, 0.2, 0.8)
    | LightBlue   // srgb(0.3, 0.5, 1.0)
    | Sand        // srgb(1.0, 0.9, 0.6)
    | LightGreen  // srgb(0.56, 0.83, 0.43)
    | Green       // srgb(0.4, 0.65, 0.28)
    | Silver      // srgb(0.8, 0.8, 0.8)
    | White       // srgb(1.0, 1.0, 1.0)
    | Grey        // srgb(0.3, 0.3, 0.3)

  /** One row of a range table: the inclusive range `lo..=hi` and its colour. */
  datatype Band = Band(lo: real, hi: real, color: Color)

  predicate InBand(b: Band, v: real)
  {
    b.lo <= v <= b.hi
  }

  /**
   * The colour of the first band whose range contains `v`, or `fallback`
   * when no band does: the meaning of an ordered `match` over ranges.
   */
  function FirstMatch(table: seq<Band>, v: real, fallback: Color): (r: Color)
    ensures (forall i :: 0 <= i < |table| ==> !InBand(table[i], v)) ==> r == fallback
    ensures forall i :: 0 <= i < |table| && InBand(table[i], v) && (forall j :: 0 <= j < i ==> !InBand(table[j], v)) ==>
              r == table[i].color
  {
    if table == [] then fallback
    else if InBand(table[0], v) then table[0].color
    else FirstMatch(table[1..], v, fallback)
  }
}
