/** Light with nothing in its way: what is seen on a map with nothing to block sight. */
module CombatFovOpen {
  import opened Paths
  import opened CombatGrid
  import opened CombatFov
  import opened CombatFovLaws
  import opened CombatFovBeams

  /** Nothing the beam covers in row d, from column dx on, blocks sight. */
  ghost predicate ClearRow(s: Scene, d: int, dx: int, start: Slope, end: Slope) {
    forall e :: dx <= e <= 0 && s.In(Local(e, d)) && InBeam(Local(e, d), start, end) ==> !s.Blocks(Local(e, d))
  }

  /** The beam covers a cell on the map within the radius. */
  predicate Bright(s: Scene, radius: int, c: Local, start: Slope, end: Slope) {
    s.In(c) && InBeam(c, start, end) && c.Norm() < radius * radius
  }

  ghost predicate WholeRowClear(s: Scene, d: int, start: Slope, end: Slope) { ClearRow(s, d, -d, start, end) }

  /** Scanning a clear row lights what the beam covers, nothing beyond the row, and
      leaves the beam as it was. */
  lemma {:induction false} ClearRowPasses(s: Scene, radius: int, d: int, dx: int, start: Slope, newStart: Slope, end: Slope)
    requires 1 <= d && Exact(start) && Exact(end) && ClearRow(s, d, dx, start, end)
    ensures var r := Scan(s, radius, d, dx, false, start, newStart, end);
            && !r.blocked && r.start == start && (forall c :: c in r.lit ==> c.d == d)
            && forall e :: dx <= e <= 0 && Bright(s, radius, Local(e, d), start, end) ==> Local(e, d) in r.lit
    decreases 1 - dx
  {
    hide Scene.In, Scene.Blocks, Below, Local.Norm, CastLight;
    if dx <= 0 {
      var c := Local(dx, d);
      if Met(s, c, start) && Below(c.Left(), end) {
        forall e | dx <= e <= 0 ensures !Bright(s, radius, Local(e, d), start, end) {
          SlopesFall(d, dx, e);
          BelowTrans(Local(e, d).Left(), c.Left(), end);
        }
      } else {
        ClearRowPasses(s, radius, d, dx + 1, start, newStart, end);
      }
    }
  }

  /** A row lights every cell its beam covers within the radius, whatever blocks in it. */
  lemma {:induction false} RowLightsBeam(s: Scene, radius: int, d: int, dx: int, blocked: bool, start: Slope, newStart: Slope, end: Slope)
    requires 1 <= d && -d <= dx && Exact(start) && Exact(newStart) && Exact(end)
    requires blocked ==> AtLeast(newStart, Local(dx, d).Right())
    ensures forall e :: dx <= e <= 0 && Bright(s, radius, Local(e, d), start, end) ==>
              Local(e, d) in Scan(s, radius, d, dx, blocked, start, newStart, end).lit
    decreases 1 - dx
  {
    hide Scene.In, Scene.Blocks, Below, Local.Norm, CastLight;
    if dx <= 0 {
      var c := Local(dx, d);
      SlopesFall(d, dx, dx + 1);
      if Met(s, c, start) && Below(c.Left(), end) {
        NoneBrightBeyond(s, radius, d, dx, start, end);
      } else if !Met(s, c, start) {
        if blocked {
          AtLeastTrans(newStart, c.Right(), Local(dx + 1, d).Right());
        }
        RowLightsBeam(s, radius, d, dx + 1, blocked, start, newStart, end);
      } else if s.Blocks(c) {
        RowLightsBeam(s, radius, d, dx + 1, true, start, c.Right(), end);
        RowLightsBeam(s, radius, d, dx + 1, false, start, newStart, end);
      } else {
        RowLightsBeam(s, radius, d, dx + 1, false, start, newStart, end);
        if blocked {
          RowLightsBeam(s, radius, d, dx + 1, false, newStart, newStart, end);
          LowerStillBright(s, radius, d, dx, start, newStart, end);
        }
      }
    }
  }

  /** Past a cell below the end of the beam nothing is covered. */
  lemma NoneBrightBeyond(s: Scene, radius: int, d: int, dx: int, start: Slope, end: Slope)
    requires 1 <= d && Exact(end) && Below(Local(dx, d).Left(), end)
    ensures forall e :: dx <= e <= 0 ==> !Bright(s, radius, Local(e, d), start, end)
  {
    hide Scene.In, Below, Local.Norm;
    forall e | dx <= e <= 0 ensures !Bright(s, radius, Local(e, d), start, end) {
      SlopesFall(d, dx, e);
      BelowTrans(Local(e, d).Left(), Local(dx, d).Left(), end);
    }
  }

  /** Lowering the start of the beam to one not yet passed loses no cell to come. */
  lemma LowerStillBright(s: Scene, radius: int, d: int, dx: int, start: Slope, lower: Slope, end: Slope)
    requires 1 <= d && Exact(lower) && AtLeast(lower, Local(dx, d).Right())
    ensures forall e :: dx <= e <= 0 && Bright(s, radius, Local(e, d), start, end) ==> Bright(s, radius, Local(e, d), lower, end)
  {
    hide Scene.In, Below, Local.Norm;
    forall e | dx <= e <= 0 && Bright(s, radius, Local(e, d), start, end) ensures Bright(s, radius, Local(e, d), lower, end) {
      SlopesFall(d, dx, e);
      AtLeastTrans(lower, Local(dx, d).Right(), Local(e, d).Right());
    }
  }

  /** A cell is lit, wall or not, when the rows before it are clear under the beam. */
  lemma {:induction false} LightPasses(s: Scene, radius: int, d: int, start: Slope, end: Slope, c: Local)
    requires 1 <= d <= c.d <= radius && Exact(start) && Exact(end)
    requires c.InOctant() && Bright(s, radius, c, start, end)
    requires forall e :: d <= e < c.d ==> WholeRowClear(s, e, start, end)
    ensures c in Rows(s, radius, d, start, end)
    decreases c.d - d
  {
    hide Scan, Bright, ClearRow;
    if c.d > d {
      assert WholeRowClear(s, d, start, end);
      ClearRowPasses(s, radius, d, -d, start, LEVEL, end);
      LightPasses(s, radius, d + 1, start, end, c);
    } else {
      RowLightsBeam(s, radius, d, -d, false, start, LEVEL, end);
      assert c == Local(c.dx, d);
    }
  }

  /** The octant a cell other than the origin lies in. */
  lemma OctantOf(g: GridView, o: Pos, p: Pos) returns (k: int, c: Local)
    requires p != o
    ensures 0 <= k < 8 && c.InOctant() && Mapped(g, o, k, c) == p
  {
    var dx, dy := p.x - o.x, p.y - o.y;
    var ax, ay := if dx < 0 then -dx else dx, if dy < 0 then -dy else dy;
    if ax <= ay {
      c := Local(-ax, ay);
      k := if dy < 0 then (if dx <= 0 then 0 else 3) else (if dx <= 0 then 7 else 4);
    } else {
      c := Local(-ay, ax);
      k := if dx < 0 then (if dy <= 0 then 1 else 6) else (if dy <= 0 then 2 else 5);
    }
    assert dx == 0 && dy == 0 ==> p == o;
    MappedIs(g, o, k, c);
  }

  /** A cell's two slopes straddle the first beam. */
  lemma FirstBeamCovers(c: Local)
    requires c.InOctant()
    ensures InBeam(c, DIAGONAL, LEVEL)
  {
  }

  /** With nothing to block sight, what is seen is exactly what is on the map and nearer
      than the radius. */
  lemma OpenMapIsSeenWhole(g: GridView, o: Pos, radius: int, p: Pos)
    requires g.Shaped() && g.InBounds(o) && forall q :: q in g.cells ==> !g.cells[q].blocksLOS
    ensures Sees(g, o, radius, p) <==>
              p == o || (g.InBounds(p) && DistanceSquared(p, o) < MaxRadius(g, radius) * MaxRadius(g, radius))
  {
    var r := MaxRadius(g, radius);
    if Sees(g, o, radius, p) {
      SightStaysInRange(g, o, radius, p);
    }
    if p != o && g.InBounds(p) && DistanceSquared(p, o) < r * r {
      var k, c := OctantOf(g, o, p);
      var s := Scene(g, o, OCTANT_TRANSFORMS[k]);
      MappedDistance(g, o, k, c);
      FirstBeamCovers(c);
      if c.d >= r {
        SquareGrows(r, c.d);
      }
      LightPasses(s, r, 1, DIAGONAL, LEVEL, c);
      assert LitBy(g, o, r, k, p);
    }
  }

  /** With no radius, all of an open map is seen. */
  lemma OpenMapWithoutRadius(g: GridView, o: Pos, radius: int, p: Pos)
    requires g.Shaped() && g.InBounds(o) && (forall q :: q in g.cells ==> !g.cells[q].blocksLOS)
    requires radius <= 0 && g.InBounds(p)
    ensures Sees(g, o, radius, p)
  {
    OpenMapIsSeenWhole(g, o, radius, p);
    DistanceOnMap(g, p, o);
  }
}
