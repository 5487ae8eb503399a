/** Sight by rays: light goes wherever a straight line from the origin meets no wall on the
    way, and every beam is made of such lines. */
module CombatFovRays {
  import opened Paths
  import opened CombatGrid
  import opened CombatMoves
  import opened CombatFov
  import opened CombatFovLaws
  import opened CombatFovBeams
  import opened CombatFovOpen
  import opened CombatFovRows

  /** The ray of slope m meets the cell, its corners counted in. */
  predicate Hits(m: Slope, c: Local) { AtLeast(m, c.Right()) && AtLeast(c.Left(), m) }

  /** From column lo up to column hi of row d the ray meets no wall of the map. */
  ghost predicate ClearBetween(s: Scene, m: Slope, d: int, lo: int, hi: int) {
    forall x :: lo <= x < hi && s.In(Local(x, d)) && Hits(m, Local(x, d)) ==> !s.Blocks(Local(x, d))
  }

  ghost predicate ClearRowAt(s: Scene, m: Slope, d: int) { ClearBetween(s, m, d, -d, 1) }

  /** The ray meets no wall in the rows before d. */
  ghost predicate RayClear(s: Scene, m: Slope, d: int) {
    forall e :: 1 <= e < d ==> ClearRowAt(s, m, e)
  }

  /** A slope between level and diagonal. */
  predicate IsRay(m: Slope) { Exact(m) && m.num >= 0 && AtLeast(DIAGONAL, m) }

  // ----- A clear ray lights what it meets

  /** The ray is still to come after the cell before column dx: it passes that cell's near
      side. */
  predicate StillAhead(s: Scene, d: int, dx: int, start: Slope, newStart: Slope, m: Slope) {
    newStart == Local(dx - 1, d).Right() && Met(s, Local(dx - 1, d), start) && Below(m, newStart)
  }

  /** A wall the ray does not meet is wholly before or wholly after it. */
  lemma MissedWall(s: Scene, d: int, dx: int, m: Slope)
    requires ClearRowAt(s, m, d) && 1 <= d && -d <= dx <= 0
    requires s.In(Local(dx, d)) && s.Blocks(Local(dx, d))
    ensures Below(m, Local(dx, d).Right()) || Below(Local(dx, d).Left(), m)
  {
    hide Below, Scene.In, Scene.Blocks;
  }

  /** While the ray is still ahead the row goes on, and the next cell is met. */
  lemma AheadGoesOn(s: Scene, d: int, dx: int, start: Slope, newStart: Slope, end: Slope, m: Slope)
    requires Rectangular(s) && 1 <= d && -d < dx <= 1 && IsRay(m) && Exact(start) && Exact(end) && AtLeast(m, end)
    requires StillAhead(s, d, dx, start, newStart, m)
    ensures dx <= 0 && Met(s, Local(dx, d), start) && AtLeast(Local(dx, d).Left(), end)
    ensures Below(m, Local(dx, d).Left())
  {
    if dx == 1 {
      NotBelowLevel(d, m);
    } else {
      hide Below, Scene.In;
      MetNext(s, d, dx, start);
      NeighboursOverlap(d, dx);
      BelowMeansAtMost(newStart, Local(dx, d).Left());
      BelowTrans(m, newStart, Local(dx, d).Left());
      BelowMeansAtMost(m, Local(dx, d).Left());
      AtLeastTrans(Local(dx, d).Left(), m, end);
    }
  }

  lemma NotBelowLevel(d: int, m: Slope)
    requires 1 <= d && IsRay(m)
    ensures !Below(m, Local(0, d).Right())
  {
    assert m.num * (2 * d + 1) >= 0;
  }

  /** A ray that meets no wall of row d gets through it: what every beam around it lights
      from the next row on is lit by a child of the scan, or the beam goes on around it. */
  lemma {:induction false} ScanPassesRay(s: Scene, radius: int, d: int, dx: int, blocked: bool, start: Slope, newStart: Slope, end: Slope,
                                         m: Slope, c: Local)
    requires Rectangular(s) && 1 <= d < radius && -d <= dx <= 1 && IsRay(m) && Exact(start) && Exact(newStart) && Exact(end)
    requires ClearRowAt(s, m, d) && AtLeast(m, end)
    requires if blocked then dx > -d && StillAhead(s, d, dx, start, newStart, m) else AtLeast(start, m)
    requires forall a, b :: Exact(a) && Exact(b) && AtLeast(a, m) && AtLeast(m, b) ==> c in Rows(s, radius, d + 1, a, b)
    ensures var r := Scan(s, radius, d, dx, blocked, start, newStart, end);
            c in r.lit || (!r.blocked && AtLeast(r.start, m) && Exact(r.start))
    decreases 1 - dx
  {
    hide Scene.In, Scene.Blocks, Below, Local.Norm, Rectangular, Rows, ClearRowAt;
    if blocked {
      AheadGoesOn(s, d, dx, start, newStart, end, m);
    }
    if dx <= 0 {
      var j := Local(dx, d);
      if !Met(s, j, start) {
        ScanPassesRay(s, radius, d, dx + 1, blocked, start, newStart, end, m, c);
      } else if !Below(j.Left(), end) {
        if s.Blocks(j) {
          MissedWall(s, d, dx, m);
          if Below(m, j.Right()) {
            ScanPassesRay(s, radius, d, dx + 1, true, start, j.Right(), end, m, c);
          } else {
            BeforeTheWall(s, radius, d, dx, blocked, start, m, c);
          }
        } else if blocked {
          BelowMeansAtMost(m, newStart);
          ScanPassesRay(s, radius, d, dx + 1, false, newStart, newStart, end, m, c);
        } else {
          ScanPassesRay(s, radius, d, dx + 1, false, start, newStart, end, m, c);
        }
      }
    }
  }

  /** The ray passes before the wall at column dx, so the child cast there takes it on. */
  lemma BeforeTheWall(s: Scene, radius: int, d: int, dx: int, blocked: bool, start: Slope, m: Slope, c: Local)
    requires 1 <= d && Exact(start) && Exact(m) && Below(Local(dx, d).Left(), m)
    requires forall a, b :: Exact(a) && Exact(b) && AtLeast(a, m) && AtLeast(m, b) ==> c in Rows(s, radius, d + 1, a, b)
    requires !blocked ==> AtLeast(start, m)
    ensures blocked ==> !Below(m, Local(dx, d).Left())
    ensures !blocked ==> c in CastLight(s, radius, d + 1, start, Local(dx, d).Left())
  {
    BelowMeansAtMost(Local(dx, d).Left(), m);
    if !blocked {
      AtLeastTrans(start, m, Local(dx, d).Left());
    }
  }

  /** A cell a clear ray meets is lit by every beam around the ray, wall or not. */
  lemma {:induction false} RayLights(s: Scene, radius: int, d: int, start: Slope, end: Slope, m: Slope, c: Local)
    requires Rectangular(s) && 1 <= d <= c.d <= radius && IsRay(m) && Exact(start) && Exact(end)
    requires AtLeast(start, m) && AtLeast(m, end)
    requires c.InOctant() && s.In(c) && c.Norm() < radius * radius && Hits(m, c)
    requires forall e :: d <= e < c.d ==> ClearRowAt(s, m, e)
    ensures c in Rows(s, radius, d, start, end)
    decreases c.d - d
  {
    hide Scan, Below, Scene.In, Rectangular, ClearRowAt, Local.Norm;
    if c.d == d {
      AtLeastTrans(start, m, c.Right());
      AtLeastTrans(c.Left(), m, end);
      assert Bright(s, radius, Local(c.dx, d), start, end);
      RowLightsBeam(s, radius, d, -d, false, start, LEVEL, end);
    } else {
      forall a, b | Exact(a) && Exact(b) && AtLeast(a, m) && AtLeast(m, b) ensures c in Rows(s, radius, d + 1, a, b) {
        RayLights(s, radius, d + 1, a, b, m, c);
      }
      assert ClearRowAt(s, m, d);
      ScanPassesRay(s, radius, d, -d, false, start, LEVEL, end, m, c);
    }
  }

  /** From the origin, in octant k, the ray of slope m meets no cell that blocks sight in the
      rows before d. */
  ghost predicate LineIsClear(g: GridView, o: Pos, k: int, m: Slope, d: int)
    requires 0 <= k < 8
  {
    forall c: Local :: 1 <= c.d < d && -c.d <= c.dx <= 0 && Mapped(g, o, k, c) in g.cells && Hits(m, c) ==>
      !g.cells[Mapped(g, o, k, c)].blocksLOS
  }

  lemma ClearLineClearsRow(g: GridView, o: Pos, k: int, m: Slope, d: int, e: int)
    requires 0 <= k < 8 && g.Shaped() && 1 <= e < d && LineIsClear(g, o, k, m, d)
    ensures ClearRowAt(Scene(g, o, OCTANT_TRANSFORMS[k]), m, e)
  {
    hide Hits, Place;
    var s := Scene(g, o, OCTANT_TRANSFORMS[k]);
    forall x | -e <= x < 1 && s.In(Local(x, e)) && Hits(m, Local(x, e)) ensures !s.Blocks(Local(x, e)) {
      assert Mapped(g, o, k, Local(x, e)) in g.cells;
    }
  }

  lemma ClearRayIsLine(g: GridView, o: Pos, k: int, m: Slope, d: int)
    requires 0 <= k < 8 && g.Shaped() && RayClear(Scene(g, o, OCTANT_TRANSFORMS[k]), m, d)
    ensures LineIsClear(g, o, k, m, d)
  {
    hide Hits, Place;
    var s := Scene(g, o, OCTANT_TRANSFORMS[k]);
    forall c: Local | 1 <= c.d < d && -c.d <= c.dx <= 0 && Mapped(g, o, k, c) in g.cells && Hits(m, c)
      ensures !g.cells[Mapped(g, o, k, c)].blocksLOS
    {
      assert ClearRowAt(s, m, c.d);
      assert c == Local(c.dx, c.d) && s.In(c);
    }
  }

  /** A cell of the map nearer than the radius is seen, wall or not, when some straight line
      from the origin that meets it meets no wall in the rows before it. */
  lemma {:induction false} ClearLineIsSeen(g: GridView, o: Pos, radius: int, k: int, c: Local, m: Slope)
    requires 0 <= k < 8 && g.Shaped() && g.InBounds(o) && c.InOctant() && IsRay(m) && Hits(m, c)
    requires var p := Mapped(g, o, k, c); g.InBounds(p) && DistanceSquared(p, o) < MaxRadius(g, radius) * MaxRadius(g, radius)
    requires LineIsClear(g, o, k, m, c.d)
    ensures Sees(g, o, radius, Mapped(g, o, k, c))
  {
    hide ClearRowAt, Rectangular, Rows, Place, LineIsClear;
    var s, r := Scene(g, o, OCTANT_TRANSFORMS[k]), MaxRadius(g, radius);
    forall e | 1 <= e < c.d ensures ClearRowAt(s, m, e) {
      ClearLineClearsRow(g, o, k, m, c.d, e);
    }
    MappedDistance(g, o, k, c);
    ScenesAreRectangular(g, o, k);
    if c.d >= r {
      PositiveRadius(g, o, radius);
      SquareGrows(r, c.d);
    }
    DiagonalAboveLevel();
    RayLights(s, r, 1, DIAGONAL, LEVEL, m, c);
    assert LitBy(g, o, r, k, Mapped(g, o, k, c));
  }

  lemma PositiveRadius(g: GridView, o: Pos, radius: int)
    requires g.InBounds(o)
    ensures MaxRadius(g, radius) > 0
  {
  }

  lemma DiagonalAboveLevel()
    ensures !Below(DIAGONAL, LEVEL)
  {
  }

  /** So whatever the walls, the cells next to the origin are seen, those too. */
  lemma NeighboursAreSeen(g: GridView, o: Pos, radius: int, p: Pos)
    requires g.Shaped() && g.InBounds(o) && g.InBounds(p) && Near(p, o) && (radius <= 0 || radius >= 2)
    ensures Sees(g, o, radius, p)
  {
    hide Sees, Hits, IsRay, DistanceSquared, Place;
    var k, c := OctantOf(g, o, p);
    NearIsRowOne(g, o, k, c);
    CentreRayHits(c);
    NearIsInRange(g, o, radius, p);
    ClearLineIsSeen(g, o, radius, k, c, Slope(-c.dx, 1));
  }

  lemma NearIsRowOne(g: GridView, o: Pos, k: int, c: Local)
    requires 0 <= k < 8 && c.InOctant() && Near(Mapped(g, o, k, c), o)
    ensures c.d == 1
  {
    MappedIs(g, o, k, c);
  }

  lemma CentreRayHits(c: Local)
    requires c.InOctant() && c.d == 1
    ensures IsRay(Slope(-c.dx, 1)) && Hits(Slope(-c.dx, 1), c)
  {
    if c.dx == 0 {
      assert c == Local(0, 1);
    } else {
      assert c == Local(-1, 1);
    }
  }

  lemma NearIsInRange(g: GridView, o: Pos, radius: int, p: Pos)
    requires g.InBounds(o) && g.InBounds(p) && Near(p, o) && (radius <= 0 || radius >= 2)
    ensures DistanceSquared(p, o) < MaxRadius(g, radius) * MaxRadius(g, radius)
  {
    var r := MaxRadius(g, radius);
    if radius <= 0 {
      DistanceOnMap(g, p, o);
    } else {
      SquareGrows(2, r);
    }
  }

  // ----- Every beam is made of clear rays

  lemma {:induction false} ChildCastsAreNarrower(s: Scene, radius: int, d: int, dx: int, blocked: bool, start: Slope, newStart: Slope, end: Slope)
    requires 1 <= d && -d <= dx && Exact(start) && Exact(newStart) && Exact(end) && (blocked ==> AtLeast(start, newStart))
    ensures forall b :: b in ChildCasts(s, radius, d, dx, blocked, start, newStart, end) ==>
              Exact(b.start) && Exact(b.end) && AtLeast(start, b.start) && AtLeast(b.end, end)
    decreases 1 - dx
  {
    hide Scene.In, Scene.Blocks, Below;
    SlopeSelf(start);
    if dx <= 0 {
      var j := Local(dx, d);
      ChildCastsAreNarrower(s, radius, d, dx + 1, false, start, newStart, end);
      if AtLeast(start, j.Right()) {
        ChildCastsAreNarrower(s, radius, d, dx + 1, true, start, j.Right(), end);
      }
      if blocked {
        ChildCastsAreNarrower(s, radius, d, dx + 1, true, start, newStart, end);
        ChildCastsAreNarrower(s, radius, d, dx + 1, false, newStart, newStart, end);
        forall b | b in ChildCasts(s, radius, d, dx + 1, false, newStart, newStart, end) ensures AtLeast(start, b.start) {
          AtLeastTrans(start, newStart, b.start);
        }
      }
    }
  }

  /** Where a scan of row d stands as far as the ray is concerned: inside what is left of the
      beam the ray met no wall of the row so far. */
  ghost predicate ClearSoFar(s: Scene, d: int, dx: int, blocked: bool, start: Slope, newStart: Slope, m: Slope) {
    if blocked then AtLeast(start, newStart) && AtLeast(newStart, Local(dx, d).Right())
                    && (Below(m, newStart) ==> ClearBetween(s, m, d, -d, dx))
    else Below(m, start) ==> ClearBetween(s, m, d, -d, dx)
  }

  lemma ClearOneMore(s: Scene, m: Slope, d: int, dx: int)
    requires ClearBetween(s, m, d, -d, dx)
    requires s.In(Local(dx, d)) && Hits(m, Local(dx, d)) ==> !s.Blocks(Local(dx, d))
    ensures ClearBetween(s, m, d, -d, dx + 1)
  {
    hide Scene.In, Scene.Blocks, Hits;
  }

  /** Cells wholly below the ray are not met. */
  lemma ClearBelow(s: Scene, m: Slope, d: int, dx: int)
    requires 1 <= d && Exact(m) && dx <= 1 && ClearBetween(s, m, d, -d, dx)
    requires dx <= 0 ==> Below(Local(dx, d).Left(), m)
    ensures ClearRowAt(s, m, d)
  {
    hide Scene.In, Scene.Blocks, Below;
    forall x | dx <= x <= 0 ensures !Hits(m, Local(x, d)) {
      SlopesFall(d, dx, x);
      BelowTrans(Local(x, d).Left(), Local(dx, d).Left(), m);
    }
  }

  /** A step of the scan keeps the ray clear so far, whichever way it goes. */
  lemma NextClearSoFar(s: Scene, d: int, dx: int, blocked: bool, start: Slope, newStart: Slope, m: Slope)
    requires 1 <= d && -d <= dx <= 0 && Exact(m) && Exact(start) && Exact(newStart)
    requires ClearSoFar(s, d, dx, blocked, start, newStart, m)
    ensures !Met(s, Local(dx, d), start) ==> ClearSoFar(s, d, dx + 1, blocked, start, newStart, m)
    ensures Met(s, Local(dx, d), start) ==> ClearSoFar(s, d, dx + 1, true, start, Local(dx, d).Right(), m)
    ensures !s.Blocks(Local(dx, d)) && blocked ==> ClearSoFar(s, d, dx + 1, false, newStart, newStart, m)
    ensures !s.Blocks(Local(dx, d)) && !blocked ==> ClearSoFar(s, d, dx + 1, false, start, newStart, m)
  {
    hide Scene.In, Scene.Blocks, Below, ClearBetween;
    var j := Local(dx, d);
    SlopesFall(d, dx, dx + 1);
    SlopeSelf(start);
    var lead := if blocked then newStart else start;
    if Below(m, lead) && !s.Blocks(j) {
      ClearOneMore(s, m, d, dx);
    }
    if blocked {
      AtLeastTrans(newStart, j.Right(), Local(dx + 1, d).Right());
    }
    if !Met(s, j, start) {
      if Below(m, lead) {
        NotMetNotHit(s, j, start, lead, m);
        ClearOneMore(s, m, d, dx);
      }
    } else if Below(m, j.Right()) {
      if blocked {
        BelowTrans(m, j.Right(), newStart);
      } else {
        BelowTrans(m, j.Right(), start);
      }
      ClearOneMore(s, m, d, dx);
    }
  }

  lemma NotMetNotHit(s: Scene, j: Local, start: Slope, lead: Slope, m: Slope)
    requires !Met(s, j, start) && Exact(m) && Exact(start) && Exact(lead) && j.d >= 1 && AtLeast(start, lead) && Below(m, lead)
    ensures s.In(j) ==> !Hits(m, j)
  {
    hide Below, Scene.In;
    if s.In(j) {
      BelowTrans(m, lead, start);
      BelowMeansAtMost(start, j.Right());
      BelowTrans(m, start, j.Right());
    }
  }

  /** A scan of a row leaves beams, its own and its children's, inside which no ray met a
      wall of the row. */
  lemma {:induction false} ScanKeepsClear(s: Scene, radius: int, d: int, dx: int, blocked: bool, start: Slope, newStart: Slope, end: Slope, m: Slope)
    requires 1 <= d < radius && -d <= dx <= 1 && Exact(m) && Exact(start) && Exact(newStart) && Exact(end)
    requires ClearSoFar(s, d, dx, blocked, start, newStart, m)
    ensures var r := Scan(s, radius, d, dx, blocked, start, newStart, end);
            !r.blocked && Below(end, m) && Below(m, r.start) ==> ClearRowAt(s, m, d)
    ensures forall b :: b in ChildCasts(s, radius, d, dx, blocked, start, newStart, end) && Below(b.end, m) && Below(m, b.start) ==>
              ClearRowAt(s, m, d)
    decreases 1 - dx
  {
    hide Scene.In, Scene.Blocks, Below, Local.Norm, CastLight, ClearSoFar, ClearRowAt;
    if dx <= 0 {
      var j := Local(dx, d);
      NextClearSoFar(s, d, dx, blocked, start, newStart, m);
      if !Met(s, j, start) {
        ScanKeepsClear(s, radius, d, dx + 1, blocked, start, newStart, end, m);
      } else if Below(j.Left(), end) {
        RunOutClear(s, d, dx, blocked, start, newStart, end, m);
      } else if s.Blocks(j) {
        ScanKeepsClear(s, radius, d, dx + 1, true, start, j.Right(), end, m);
        ChildClear(s, d, dx, blocked, start, newStart, m);
      } else if blocked {
        ScanKeepsClear(s, radius, d, dx + 1, false, newStart, newStart, end, m);
      } else {
        ScanKeepsClear(s, radius, d, dx + 1, false, start, newStart, end, m);
      }
    } else {
      RunOutClear(s, d, dx, blocked, start, newStart, end, m);
    }
  }

  lemma RunOutClear(s: Scene, d: int, dx: int, blocked: bool, start: Slope, newStart: Slope, end: Slope, m: Slope)
    requires 1 <= d && -d <= dx <= 1 && Exact(m) && Exact(end) && ClearSoFar(s, d, dx, blocked, start, newStart, m)
    requires dx <= 0 ==> Below(Local(dx, d).Left(), end)
    ensures !blocked && Below(end, m) && Below(m, start) ==> ClearRowAt(s, m, d)
  {
    hide Scene.In, Scene.Blocks, Below, ClearBetween;
    if !blocked && Below(end, m) && Below(m, start) {
      if dx <= 0 {
        BelowMeansAtMost(end, m);
        BelowTrans(Local(dx, d).Left(), end, m);
      }
      ClearBelow(s, m, d, dx);
    }
  }

  lemma ChildClear(s: Scene, d: int, dx: int, blocked: bool, start: Slope, newStart: Slope, m: Slope)
    requires 1 <= d && -d <= dx <= 0 && Exact(m) && ClearSoFar(s, d, dx, blocked, start, newStart, m)
    ensures !blocked && Below(Local(dx, d).Left(), m) && Below(m, start) ==> ClearRowAt(s, m, d)
  {
    hide Scene.In, Scene.Blocks, Below, ClearBetween;
    if !blocked && Below(Local(dx, d).Left(), m) && Below(m, start) {
      ClearBelow(s, m, d, dx);
    }
  }

  lemma NothingBefore(s: Scene, d: int, m: Slope)
    ensures ClearBetween(s, m, d, -d, -d)
  {
  }

  /** A ray strictly inside a beam that a row begins is strictly inside that row's, and met no
      wall of the row. */
  lemma BeginsClear(s: Scene, radius: int, a: Beam, b: Beam, m: Slope)
    requires IsBeam(a.start, a.end) && Begins(s, radius, a, b) && b.d <= radius && Exact(m) && Below(b.end, m) && Below(m, b.start)
    ensures ClearRowAt(s, m, a.d) && Below(a.end, m) && Below(m, a.start)
  {
    hide Scan, ChildCasts, Below, ClearRowAt, ClearBetween;
    BeginsABeam(s, radius, a, b);
    NothingBefore(s, a.d, m);
    ScanKeepsClear(s, radius, a.d, -a.d, false, a.start, LEVEL, a.end, m);
    ScanInBeam(s, radius, a.d, -a.d, false, a.start, LEVEL, a.end);
    ChildCastsAreNarrower(s, radius, a.d, -a.d, false, a.start, LEVEL, a.end);
    SlopeSelf(a.end);
    BelowTrans(m, b.start, a.start);
    BelowTrans(a.end, b.end, m);
  }

  lemma {:induction false} DescentIsClear(s: Scene, radius: int, bs: seq<Beam>, i: nat, m: Slope)
    requires IsDescent(s, radius, bs) && i < |bs| && i < radius && Exact(m) && Below(bs[i].end, m) && Below(m, bs[i].start)
    ensures RayClear(s, m, i + 1)
  {
    hide Begins, Below, ClearRowAt;
    if i > 0 {
      DescentOfBeams(s, radius, bs, i - 1);
      DescentOfBeams(s, radius, bs, i);
      assert Begins(s, radius, bs[i - 1], bs[i]);
      BeginsClear(s, radius, bs[i - 1], bs[i], m);
      DescentIsClear(s, radius, bs, i - 1, m);
    }
  }

  /** Every ray strictly inside a beam an octant begins a row under met no wall in any row
      before it. */
  lemma EveryBeamIsClear(s: Scene, radius: int, b: Beam, m: Slope)
    requires Begun(s, radius, b) && b.d <= radius && Exact(m) && Below(b.end, m) && Below(m, b.start)
    ensures RayClear(s, m, b.d)
  {
    hide Below, RayClear;
    var bs :| IsDescent(s, radius, bs) && bs[|bs| - 1] == b;
    DescentOfBeams(s, radius, bs, |bs| - 1);
    DescentIsClear(s, radius, bs, |bs| - 1, m);
  }

  /** Every cell an octant lights is covered by a beam that began its row, and any ray strictly
      inside that beam came there past no wall. */
  lemma LitByClearBeam(g: GridView, o: Pos, radius: int, k: int, c: Local) returns (b: Beam)
    requires 0 <= k < 8 && g.Shaped() && c in Octant(g, o, radius, k)
    ensures Begun(Scene(g, o, OCTANT_TRANSFORMS[k]), radius, b) && b.d == c.d <= radius && InBeam(c, b.start, b.end)
    ensures forall m :: Exact(m) && Below(b.end, m) && Below(m, b.start) ==> LineIsClear(g, o, k, m, c.d)
  {
    hide Begun, Begins, Rows, Below, RayClear, Place, InBeam, LineIsClear;
    var s := Scene(g, o, OCTANT_TRANSFORMS[k]);
    FirstIsBegun(s, radius);
    CastRange(s, radius, 1, DIAGONAL, LEVEL);
    DiagonalAboveLevel();
    b := LitFromOwnRow(s, radius, FIRST_BEAM, c);
    EveryBeamIsABeam(s, radius, b);
    RowsInBeam(s, radius, b.d, b.start, b.end);
    LitIsWithin(s, radius, c);
    forall m | Exact(m) && Below(b.end, m) && Below(m, b.start) ensures LineIsClear(g, o, k, m, c.d) {
      EveryBeamIsClear(s, radius, b, m);
      ClearRayIsLine(g, o, k, m, c.d);
    }
  }

  lemma FirstIsBegun(s: Scene, radius: int)
    ensures Begun(s, radius, FIRST_BEAM)
  {
    hide Begins;
    assert IsDescent(s, radius, [FIRST_BEAM]) && [FIRST_BEAM][0] == FIRST_BEAM;
  }

  lemma LitIsWithin(s: Scene, radius: int, c: Local)
    requires c in Rows(s, radius, 1, DIAGONAL, LEVEL)
    ensures c.d <= radius
  {
    LitRowsAreNear(s, radius, 1, DIAGONAL, LEVEL, c);
  }

  lemma {:induction false} LitFromOwnRow(s: Scene, radius: int, a: Beam, c: Local) returns (b: Beam)
    requires Begun(s, radius, a) && 1 <= a.d <= c.d && c in RowsOf(s, radius, a)
    ensures Begun(s, radius, b) && b.d == c.d && c in RowsOf(s, radius, b)
    decreases c.d - a.d
  {
    hide Begun, Begins, RowsOf;
    if c.d == a.d {
      b := a;
    } else {
      var next := LitFromNextRow(s, radius, a, c);
      BegunNext(s, radius, a, next);
      b := LitFromOwnRow(s, radius, next, c);
    }
  }
}
