/** The points main visits: how many, in which order, that every 16- and 32-bit point
    is visited once, and that the routines all have different names. */
module Enumeration {
  import opened Axes
  import opened Emission

  /** The position main reaches a point at: depth outermost, then the chipset level,
      then sprites, then the scaling mode. */
  function Position(p: Point): int
  {
    28 * (if p.depth == D32 then 1 else 0) + 14 * (if p.aga then 1 else 0)
    + 7 * (if p.spr then 1 else 0) + HModeIndex(p.hmode)
  }

  /** The sprite loop for one depth and chipset level: the spr == 0 row, then the spr == 1 row. */
  lemma SpriteRowsAt(bpp: int, aga: int, s: int, h: int)
    requires 0 <= s < 2 && 0 <= h < 7
    ensures |SpriteRows(bpp, aga, 2)| == 14
    ensures SpriteRows(bpp, aga, 2)[7 * s + h] == Point(DepthOf(bpp), HModeOf(h), aga == 1, s == 1)
  {
    var r0, r1 := ModeRow(bpp, aga, 0), ModeRow(bpp, aga, 1);
    assert SpriteRows(bpp, aga, 1) == [] + r0 == r0;
    assert SpriteRows(bpp, aga, 2) == r0 + r1;
    var q := Point(DepthOf(bpp), HModeOf(h), aga == 1, s == 1);
    if s == 0 {
      assert r0[h] == q;
      assert (r0 + r1)[h] == r0[h];
    } else {
      assert r1[h] == q;
      assert (r0 + r1)[7 + h] == r1[h];
      assert 7 * s + h == 7 + h;
    }
  }

  /** The chipset loop for one depth: the OCS/ECS points, then the AGA points. */
  lemma ChipsetRowsAt(bpp: int, a: int, s: int, h: int)
    requires bpp != 0
    requires 0 <= a < 2 && 0 <= s < 2 && 0 <= h < 7
    ensures |ChipsetRows(bpp, 2)| == 28
    ensures ChipsetRows(bpp, 2)[14 * a + 7 * s + h] == Point(DepthOf(bpp), HModeOf(h), a == 1, s == 1)
  {
    var r0, r1 := SpriteRows(bpp, 0, 2), SpriteRows(bpp, 1, 2);
    SpriteRowsAt(bpp, 0, s, h);
    SpriteRowsAt(bpp, 1, s, h);
    assert ChipsetRows(bpp, 1) == [] + r0 == r0;
    assert ChipsetRows(bpp, 2) == r0 + r1;
    if a == 0 {
      assert (r0 + r1)[7 * s + h] == r0[7 * s + h];
    } else {
      assert (r0 + r1)[14 + 7 * s + h] == r1[7 * s + h];
    }
  }

  lemma DepthRowsSplit(n: nat)
    requires n == 2
    ensures DepthRows(n) == ChipsetRows(n - 1, 2) + ChipsetRows(n, 2)
  {
    assert DepthRows(n - 1) == [] + ChipsetRows(n - 1, 2);
  }

  /** The depth loop, up to depth n: the 16-bit points, then the 32-bit points. */
  lemma DepthRowsAt(n: nat, d: int, a: int, s: int, h: int)
    requires n == 2
    requires 0 <= d < 2 && 0 <= a < 2 && 0 <= s < 2 && 0 <= h < 7
    ensures |DepthRows(n)| == 56
    ensures DepthRows(n)[28 * d + 14 * a + 7 * s + h] == Point(DepthOf(d + 1), HModeOf(h), a == 1, s == 1)
  {
    var r0, r1 := ChipsetRows(n - 1, 2), ChipsetRows(n, 2);
    ChipsetRowsAt(n - 1, a, s, h);
    ChipsetRowsAt(n, a, s, h);
    DepthRowsSplit(n);
    var k := 14 * a + 7 * s + h;
    var q := Point(DepthOf(d + 1), HModeOf(h), a == 1, s == 1);
    if d == 0 {
      assert r0[k] == q;
      assert DepthRows(n)[28 * d + k] == q;
    } else {
      assert r1[k] == q;
      assert |r0| == 28;
      assert (r0 + r1)[28 + k] == r1[k];
      assert 28 * d + k == 28 + k;
    }
  }

  /** main visits 56 points, and the point at each position is the one whose depth,
      chipset level, sprite setting and scaling mode that position spells out. */
  lemma PointsAt(d: int, a: int, s: int, h: int)
    requires 0 <= d < 2 && 0 <= a < 2 && 0 <= s < 2 && 0 <= h < 7
    ensures |AllPoints()| == 56
    ensures AllPoints()[28 * d + 14 * a + 7 * s + h] == Point(DepthOf(d + 1), HModeOf(h), a == 1, s == 1)
  {
    DepthRowsAt(2, d, a, s, h);
  }

  /** Every 16- and 32-bit point is visited, at its position; no 8-bit point is. */
  lemma PointsCover(p: Point)
    ensures p in AllPoints() <==> p.depth != D8
    ensures p.depth != D8 ==> 0 <= Position(p) < 56 && AllPoints()[Position(p)] == p
  {
    if p.depth != D8 {
      PointAtPosition(p);
    }
    if p in AllPoints() {
      VisitedDepth(p);
    }
  }

  lemma PointAtPosition(p: Point)
    requires p.depth != D8
    ensures |AllPoints()| == 56 && 0 <= Position(p) < 56 && AllPoints()[Position(p)] == p
  {
    var d, a, s, h := Spelled(p);
    PointsAt(d, a, s, h);
  }

  /** A 16- or 32-bit point spelled out as the digits of its position. */
  lemma Spelled(p: Point) returns (d: int, a: int, s: int, h: int)
    requires p.depth != D8
    ensures 0 <= d < 2 && 0 <= a < 2 && 0 <= s < 2 && 0 <= h < 7
    ensures Position(p) == 28 * d + 14 * a + 7 * s + h
    ensures p == Point(DepthOf(d + 1), HModeOf(h), a == 1, s == 1)
  {
    d, a, s, h := if p.depth == D32 then 1 else 0, if p.aga then 1 else 0, if p.spr then 1 else 0, HModeIndex(p.hmode);
  }

  lemma VisitedDepth(p: Point)
    requires p in AllPoints()
    ensures p.depth != D8
  {
    var k :| 0 <= k < |AllPoints()| && AllPoints()[k] == p;
    PointsAt(0, 0, 0, 0);
    var d, a, s, h := Digits(k);
    PointsAt(d, a, s, h);
  }

  /** The point at each position is reached there and nowhere else. */
  lemma PositionOfPoint(k: int)
    requires 0 <= k < 56
    ensures Position(AllPoints()[k]) == k
  {
    var d, a, s, h := Digits(k);
    PointsAt(d, a, s, h);
    IndexOfMode(h);
    assert AllPoints()[k] == Point(DepthOf(d + 1), HModeOf(h), a == 1, s == 1);
  }

  lemma IndexOfMode(h: int)
    requires 0 <= h < 7
    ensures HModeIndex(HModeOf(h)) == h
  {
  }

  /** A position spelled out as depth, chipset level, sprite setting and scaling mode. */
  lemma Digits(k: int) returns (d: int, a: int, s: int, h: int)
    requires 0 <= k < 56
    ensures 0 <= d < 2 && 0 <= a < 2 && 0 <= s < 2 && 0 <= h < 7
    ensures k == 28 * d + 14 * a + 7 * s + h
  {
    d := k / 28;
    a := (k % 28) / 14;
    s := (k % 14) / 7;
    h := k % 7;
  }

  /** main visits no point twice, so no two routines it writes share a name. */
  lemma NamesDistinct(i: int, j: int)
    requires 0 <= i < 56 && 0 <= j < 56 && i != j
    ensures |AllPoints()| == 56
    ensures DeclName(AllPoints()[i]) != DeclName(AllPoints()[j])
  {
    PositionOfPoint(i);
    PositionOfPoint(j);
    if DeclName(AllPoints()[i]) == DeclName(AllPoints()[j]) {
      DeclNameInjective(AllPoints()[i], AllPoints()[j]);
    }
  }
}
