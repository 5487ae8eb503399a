/** Beams and slopes: light keeps within its beam, and exactly when it jumps a row. */
module CombatFovBeams {
  import opened Paths
  import opened CombatGrid
  import opened CombatFov
  import opened CombatFovLaws

  predicate AtLeast(a: Slope, b: Slope) { !Below(a, b) }

  predicate Exact(a: Slope) { a.den > 0 }

  lemma AtLeastTrans(a: Slope, b: Slope, c: Slope)
    requires Exact(a) && Exact(b) && Exact(c) && AtLeast(a, b) && AtLeast(b, c)
    ensures AtLeast(a, c)
  {
    var x, y, z := a.num * b.den, b.num * a.den, b.num * c.den;
    assert a.num * b.den * c.den >= b.num * a.den * c.den by { MulKeeps(x, y, c.den); }
    assert b.num * c.den * a.den >= c.num * b.den * a.den by { MulKeeps(z, c.num * b.den, a.den); }
    MulCancels(a.num * c.den, c.num * a.den, b.den);
  }

  lemma MulKeeps(x: int, y: int, k: int)
    requires x >= y && k > 0
    ensures x * k >= y * k
  {
  }

  lemma MulCancels(x: int, y: int, k: int)
    requires x * k >= y * k && k > 0
    ensures x >= y
  {
    if x < y {
      MulLess(x, y, k);
    }
  }

  lemma MulLess(x: int, y: int, k: int)
    requires x < y && k > 0
    ensures x * k < y * k
  {
  }

  lemma BelowTrans(a: Slope, b: Slope, c: Slope)
    requires Exact(a) && Exact(b) && Exact(c)
    requires (Below(a, b) && AtLeast(c, b)) || (AtLeast(b, a) && Below(b, c))
    ensures Below(a, c)
  {
    if AtLeast(a, c) {
      if Below(a, b) {
        AtLeastTrans(a, c, b);
      } else {
        AtLeastTrans(b, a, c);
      }
    }
  }

  // ----- Slopes of neighbouring cells

  /** Going along a row towards the middle, both slopes fall. */
  lemma SlopesFall(d: int, dx: int, e: int)
    requires 1 <= d && dx <= e
    ensures AtLeast(Local(dx, d).Left(), Local(e, d).Left())
    ensures AtLeast(Local(dx, d).Right(), Local(e, d).Right())
  {
    MulKeeps(1 - 2 * dx, 1 - 2 * e, 2 * d - 1);
    MulKeeps(-1 - 2 * dx, -1 - 2 * e, 2 * d + 1);
  }

  /** The near slope of a cell is below the far slope of the next. */
  lemma NeighboursOverlap(d: int, dx: int)
    requires 1 <= d && dx <= 0
    ensures Below(Local(dx - 1, d).Right(), Local(dx, d).Left())
  {
    var n := 1 - 2 * dx;
    assert n * (2 * d - 1) < n * (2 * d + 1);
  }

  /** A cell one row out and further out than column k has a steeper near slope. */
  lemma NearBound(d: int, k: int, c: Local)
    requires 1 <= d && -d <= k <= 0 && c.d == d + 1 && c.InOctant()
    ensures c.dx < k ==> Below(Local(k, d).Right(), c.Right())
  {
    if c.dx < k {
      var m, n := -2 * k - 1, -2 * c.dx - 1;
      MulKeeps(n, m + 2, 2 * d + 1);
      assert (m + 2) * (2 * d + 1) > m * (2 * d + 3);
    }
  }

  /** A cell one row out and no further out than column j has a shallower far slope. */
  lemma FarBound(d: int, j: int, c: Local)
    requires 1 <= d && -d <= j <= 0 && c.d == d + 1 && c.InOctant()
    ensures c.dx >= j ==> Below(c.Left(), Local(j, d).Left())
  {
    if c.dx >= j {
      var m, n := 1 - 2 * j, 1 - 2 * c.dx;
      MulKeeps(m, n, 2 * d - 1);
      assert m * (2 * d - 1) < m * (2 * d + 1);
    }
  }

  // ----- Light keeps within its beam

  predicate InBeam(c: Local, start: Slope, end: Slope) {
    AtLeast(start, c.Right()) && AtLeast(c.Left(), end)
  }

  lemma NarrowBeam(c: Local, start: Slope, end: Slope, s: Slope, e: Slope)
    requires c.d >= 1 && Exact(start) && Exact(end) && Exact(s) && Exact(e)
    requires InBeam(c, s, e) && AtLeast(start, s) && AtLeast(e, end)
    ensures InBeam(c, start, end)
  {
    AtLeastTrans(start, s, c.Right());
    AtLeastTrans(c.Left(), e, end);
  }

  lemma {:induction false} ScanInBeam(s: Scene, radius: int, d: int, dx: int, blocked: bool, start: Slope, newStart: Slope, end: Slope)
    requires 1 <= d && -d <= dx && Exact(start) && Exact(newStart) && Exact(end)
    requires blocked ==> AtLeast(start, newStart)
    ensures var r := Scan(s, radius, d, dx, blocked, start, newStart, end);
            && (forall c :: c in r.lit ==> c.d >= 1 && InBeam(c, start, end))
            && Exact(r.start) && AtLeast(start, r.start)
    decreases if radius < d then 0 else radius + 1 - d, 0, if dx > 0 then 0 else 1 - dx
  {
    hide Scene.In, Scene.Blocks, Below, Local.Norm;
    SlopeSelf(start);
    if dx <= 0 {
      var c := Local(dx, d);
      if !s.In(c) || Below(start, c.Right()) {
        ScanInBeam(s, radius, d, dx + 1, blocked, start, newStart, end);
      } else if !Below(c.Left(), end) {
        if blocked && s.Blocks(c) {
          ScanInBeam(s, radius, d, dx + 1, true, start, c.Right(), end);
        } else if blocked {
          ScanInBeam(s, radius, d, dx + 1, false, newStart, newStart, end);
          LoweredBeam(Scan(s, radius, d, dx + 1, false, newStart, newStart, end), start, newStart, end);
        } else if s.Blocks(c) && d < radius {
          ScanInBeam(s, radius, d, dx + 1, true, start, c.Right(), end);
          CastInBeam(s, radius, d + 1, start, c.Left());
          forall x | x in CastLight(s, radius, d + 1, start, c.Left()) ensures x.d >= 1 && InBeam(x, start, end) {
            NarrowBeam(x, start, end, start, c.Left());
          }
        } else {
          ScanInBeam(s, radius, d, dx + 1, false, start, newStart, end);
        }
      }
    }
  }

  lemma SlopeSelf(a: Slope)
    ensures AtLeast(a, a)
  {
  }

  lemma LoweredBeam(r: Row, start: Slope, lower: Slope, end: Slope)
    requires Exact(start) && Exact(lower) && Exact(end) && Exact(r.start) && AtLeast(start, lower) && AtLeast(lower, r.start)
    requires forall c :: c in r.lit ==> c.d >= 1 && InBeam(c, lower, end)
    ensures AtLeast(start, r.start) && forall c :: c in r.lit ==> InBeam(c, start, end)
  {
    AtLeastTrans(start, lower, r.start);
    SlopeSelf(end);
    forall c | c in r.lit ensures InBeam(c, start, end) {
      NarrowBeam(c, start, end, lower, end);
    }
  }

  lemma {:induction false} RowsInBeam(s: Scene, radius: int, d: int, start: Slope, end: Slope)
    requires 1 <= d && Exact(start) && Exact(end)
    ensures forall c :: c in Rows(s, radius, d, start, end) ==> c.d >= 1 && InBeam(c, start, end)
    decreases if radius < d then 0 else radius + 1 - d, 1, 0
  {
    hide Scan, InBeam;
    if d <= radius {
      ScanInBeam(s, radius, d, -d, false, start, LEVEL, end);
      var r := Scan(s, radius, d, -d, false, start, LEVEL, end);
      RowsInBeam(s, radius, d + 1, r.start, end);
      var rest := Row(Rows(s, radius, d + 1, r.start, end), {}, false, r.start);
      SlopeSelf(r.start);
      LoweredBeam(rest, start, r.start, end);
    }
  }

  lemma {:induction false} CastInBeam(s: Scene, radius: int, row: int, start: Slope, end: Slope)
    requires 1 <= row && Exact(start) && Exact(end)
    ensures forall c :: c in CastLight(s, radius, row, start, end) ==> c.d >= 1 && InBeam(c, start, end)
    decreases if radius < row then 0 else radius + 1 - row, 2, 0
  {
    if !Below(start, end) {
      RowsInBeam(s, radius, row, start, end);
    }
  }

  // ----- No row is jumped

  /** The map seen from a cell of it: what lies between a cell in bounds and the origin's
      column and row is in bounds too. */
  ghost predicate Rectangular(s: Scene) {
    forall c: Local, b: Local :: s.In(c) && 1 <= b.d <= c.d && c.dx <= b.dx <= 0 ==> s.In(b)
  }

  lemma {:induction false} ScenesAreRectangular(g: GridView, o: Pos, k: int)
    requires g.InBounds(o) && 0 <= k < 8
    ensures Rectangular(Scene(g, o, OCTANT_TRANSFORMS[k]))
  {
    var s := Scene(g, o, OCTANT_TRANSFORMS[k]);
    forall c: Local, b: Local | s.In(c) && 1 <= b.d <= c.d && c.dx <= b.dx <= 0 ensures s.In(b) {
      MappedIs(g, o, k, c);
      MappedIs(g, o, k, b);
    }
  }

  /** A cell not passed over: on the map and not beyond the start of the beam. */
  predicate Met(s: Scene, c: Local, start: Slope) { s.In(c) && AtLeast(start, c.Right()) }

  /** From column dx on, the beam covers a cell of row d that is on the map. */
  ghost predicate Lands(s: Scene, d: int, dx: int, start: Slope, end: Slope) {
    exists e :: dx <= e <= 0 && Met(s, Local(e, d), start) && AtLeast(Local(e, d).Left(), end)
  }

  /** Where a scan of row d stands at column dx, as far as a cell c of the next row is
      concerned.  Blocked: the cell before was opaque and the beam will restart at its
      near slope.  Clear: the cells from i on were transparent, and a cell of the next row
      within the start of the beam is not further out than i - 1. */
  ghost predicate Standing(s: Scene, d: int, dx: int, blocked: bool, start: Slope, newStart: Slope, end: Slope, i: int, c: Local) {
    && 1 <= d && -d <= i <= dx <= 1 && Exact(start) && Exact(end)
    && start.num >= 0 && AtLeast(DIAGONAL, start)
    && (blocked ==> dx > -d && newStart == Local(dx - 1, d).Right() && Met(s, Local(dx - 1, d), start))
    && (!blocked && AtLeast(start, c.Right()) ==> c.dx >= i - 1)
    && (!blocked && i < dx ==> Met(s, Local(dx - 1, d), start))
    && (!blocked && i == dx ==> Lands(s, d, dx, start, end) && (dx > -d ==> !Met(s, Local(dx - 1, d), start)))
  }

  /** Some transparent cell scanned in row d is next to c: among these, or in the run
      from i up to dx. */
  ghost predicate Touches(cells: set<Local>, d: int, i: int, dx: int, c: Local) {
    exists b: Local :: b.d == d && -1 <= b.dx - c.dx <= 1 && (b in cells || i <= b.dx < dx)
  }

  /** Once a cell of a row is met, so is the next. */
  lemma MetNext(s: Scene, d: int, dx: int, start: Slope)
    requires Rectangular(s) && 1 <= d && dx <= 0 && Exact(start) && Met(s, Local(dx - 1, d), start)
    ensures Met(s, Local(dx, d), start)
  {
    SlopesFall(d, dx - 1, dx);
    AtLeastTrans(start, Local(dx - 1, d).Right(), Local(dx, d).Right());
  }

  /** Passing over a cell moves the start of an empty run along. */
  lemma SkipKeepsStanding(s: Scene, d: int, dx: int, start: Slope, newStart: Slope, end: Slope, i: int, c: Local)
    requires Rectangular(s) && s.In(c) && c.d == d + 1 && c.InOctant() && dx <= 0
    requires Standing(s, d, dx, false, start, newStart, end, i, c) && !Met(s, Local(dx, d), start)
    ensures i == dx && Standing(s, d, dx + 1, false, start, newStart, end, dx + 1, c)
  {
    if i < dx {
      MetNext(s, d, dx, start);
    }
    if AtLeast(start, c.Right()) && Below(start, Local(dx, d).Right()) {
      BelowTrans(c.Right(), start, Local(dx, d).Right());
      NearBound(d, dx, c);
    }
  }

  /** A run of transparent cells starts after an opaque one. */
  lemma RestartStanding(s: Scene, d: int, dx: int, start: Slope, newStart: Slope, end: Slope, i: int, c: Local)
    requires Rectangular(s) && c.d == d + 1 && c.InOctant() && dx <= 0
    requires Standing(s, d, dx, true, start, newStart, end, i, c)
    ensures Standing(s, d, dx + 1, false, newStart, newStart, end, dx, c)
  {
    NearBound(d, dx - 1, c);
    SlopesFall(d, dx - 1, dx);
  }

  /** What a child cast lights in the next row is next to the run before the opaque cell. */
  lemma ChildIsBeside(s: Scene, radius: int, d: int, dx: int, start: Slope, newStart: Slope, end: Slope, i: int, c: Local)
    requires Rectangular(s) && s.In(c) && c.d == d + 1 && c.InOctant() && dx <= 0
    requires Standing(s, d, dx, false, start, newStart, end, i, c)
    requires c in CastLight(s, radius, d + 1, start, Local(dx, d).Left())
    ensures Touches({}, d, i, dx, c)
  {
    var j := Local(dx, d);
    CastInBeam(s, radius, d + 1, start, j.Left());
    FarBound(d, dx, c);
    if i == dx {
      EmptyRunLightsNothing(s, d, dx, start, j.Left(), c);
    }
    NextToRun(d, i, dx, c);
  }

  lemma NextToRun(d: int, i: int, dx: int, c: Local)
    requires i < dx && i - 1 <= c.dx <= dx - 1
    ensures Touches({}, d, i, dx, c)
  {
    var b := Local(if c.dx < i then i else c.dx, d);
    assert b.d == d && -1 <= b.dx - c.dx <= 1 && i <= b.dx < dx;
  }

  /** Right after a cell that was passed over, the far slope of this one is above the
      start of the beam, or the next row is off the map here. */
  lemma EmptyRunLightsNothing(s: Scene, d: int, dx: int, start: Slope, far: Slope, c: Local)
    requires Rectangular(s) && s.In(c) && c.d == d + 1 && c.InOctant() && 1 <= d && -d <= dx <= 0
    requires Exact(start) && AtLeast(DIAGONAL, start) && far == Local(dx, d).Left()
    requires dx > -d ==> !Met(s, Local(dx - 1, d), start)
    requires c.dx == dx - 1
    ensures Below(start, far)
  {
    if dx == -d {
      BelowTrans(start, DIAGONAL, far);
    } else {
      NeighboursOverlap(d, dx);
      BelowTrans(start, Local(dx - 1, d).Right(), far);
    }
  }

  /** Past the last cell the beam covers it lands nowhere. */
  lemma LandsNoFurther(s: Scene, d: int, dx: int, start: Slope, end: Slope)
    requires 1 <= d && dx <= 1 && Exact(end) && (dx == 1 || Below(Local(dx, d).Left(), end))
    ensures !Lands(s, d, dx, start, end)
  {
    forall e | dx <= e <= 0 ensures !AtLeast(Local(e, d).Left(), end) {
      SlopesFall(d, dx, e);
      BelowTrans(Local(e, d).Left(), Local(dx, d).Left(), end);
    }
  }

  /** The end of a row that stays clear: what the beam goes on to is next to the run. */
  lemma RunOutIsBeside(s: Scene, d: int, dx: int, start: Slope, newStart: Slope, end: Slope, i: int, c: Local)
    requires c.d == d + 1 && c.InOctant()
    requires Standing(s, d, dx, false, start, newStart, end, i, c) && InBeam(c, start, end)
    requires dx == 1 || Below(Local(dx, d).Left(), end)
    ensures Touches({}, d, i, dx, c)
  {
    LandsNoFurther(s, d, dx, start, end);
    if dx <= 0 {
      BelowTrans(Local(dx, d).Left(), end, c.Left());
      FarBound(d, dx, c);
    }
    NextToRun(d, i, dx, c);
  }

  /** What a scan of row d lights in the next row, or passes on to it, is next to a
      transparent cell the scan went through. */
  lemma {:induction false} ScanNeverJumps(s: Scene, radius: int, d: int, dx: int, blocked: bool, start: Slope, newStart: Slope, end: Slope,
                                          i: int, c: Local)
    requires Rectangular(s) && s.In(c) && c.d == d + 1 && c.InOctant() && d < radius
    requires Standing(s, d, dx, blocked, start, newStart, end, i, c)
    ensures var r := Scan(s, radius, d, dx, blocked, start, newStart, end);
            c in r.lit || (!r.blocked && InBeam(c, r.start, end)) ==> Touches(r.clear, d, if blocked then dx else i, dx, c)
    decreases 1 - dx
  {
    hide Scene.In, Scene.Blocks, Below, Local.Norm, Rectangular, Touches, CastLight, Lands;
    var j := Local(dx, d);
    var r := Scan(s, radius, d, dx, blocked, start, newStart, end);
    var run := if blocked then dx else i;
    if dx > 0 || (Met(s, j, start) && Below(j.Left(), end)) {
      if !blocked && InBeam(c, start, end) {
        RunOutIsBeside(s, d, dx, start, newStart, end, i, c);
        WiderTouch({}, r.clear, d, i, dx, i, dx, c);
      }
    } else if !Met(s, j, start) {
      if blocked {
        MetNext(s, d, dx, start);
      } else {
        SkipKeepsStanding(s, d, dx, start, newStart, end, i, c);
        ScanNeverJumps(s, radius, d, dx + 1, false, start, newStart, end, dx + 1, c);
        WiderTouch(r.clear, r.clear, d, dx + 1, dx + 1, i, dx, c);
      }
    } else if s.Blocks(j) {
      ScanNeverJumps(s, radius, d, dx + 1, true, start, j.Right(), end, dx, c);
      WiderTouch(Scan(s, radius, d, dx + 1, true, start, j.Right(), end).clear, r.clear, d, dx + 1, dx + 1, run, dx, c);
      if !blocked && c in CastLight(s, radius, d + 1, start, j.Left()) {
        ChildIsBeside(s, radius, d, dx, start, newStart, end, i, c);
        WiderTouch({}, r.clear, d, i, dx, i, dx, c);
      }
    } else if blocked {
      RestartStanding(s, d, dx, start, newStart, end, i, c);
      ScanNeverJumps(s, radius, d, dx + 1, false, newStart, newStart, end, dx, c);
      WiderTouch(Scan(s, radius, d, dx + 1, false, newStart, newStart, end).clear, r.clear, d, dx, dx + 1, dx, dx, c);
    } else {
      ScanNeverJumps(s, radius, d, dx + 1, false, start, newStart, end, i, c);
      WiderTouch(Scan(s, radius, d, dx + 1, false, start, newStart, end).clear, r.clear, d, i, dx + 1, i, dx, c);
    }
  }

  /** Touching carries over to more cells, the end of the run counting as one of them. */
  lemma WiderTouch(a: set<Local>, b: set<Local>, d: int, i: int, dx: int, j: int, ex: int, c: Local)
    requires a <= b && forall x :: i <= x < dx ==> j <= x < ex || Local(x, d) in b
    ensures Touches(a, d, i, dx, c) ==> Touches(b, d, j, ex, c)
  {
    if x: Local :| x.d == d && -1 <= x.dx - c.dx <= 1 && (x in a || i <= x.dx < dx) {
      assert x == Local(x.dx, d);
    }
  }

  /** A beam as shadowcasting makes them: exact, between level and diagonal. */
  predicate IsBeam(start: Slope, end: Slope) {
    Exact(start) && Exact(end) && start.num >= 0 && AtLeast(DIAGONAL, start)
  }

  /** A scan leaves a beam as shadowcasting makes them, whatever it lowers the start to. */
  lemma {:induction false} ScanKeepsBeam(s: Scene, radius: int, d: int, dx: int, blocked: bool, start: Slope, newStart: Slope, end: Slope)
    requires 1 <= d && -d <= dx && IsBeam(start, end)
    requires blocked && dx <= 0 ==> IsBeam(newStart, end)
    ensures IsBeam(Scan(s, radius, d, dx, blocked, start, newStart, end).start, end)
    decreases 1 - dx
  {
    hide Scene.In, Scene.Blocks, Below, Local.Norm, CastLight;
    if dx <= 0 {
      NearSlopeIsBeam(d, dx, end);
      ScanKeepsBeam(s, radius, d, dx + 1, blocked, start, newStart, end);
      ScanKeepsBeam(s, radius, d, dx + 1, true, start, Local(dx, d).Right(), end);
      ScanKeepsBeam(s, radius, d, dx + 1, false, start, newStart, end);
      if blocked {
        ScanKeepsBeam(s, radius, d, dx + 1, false, newStart, newStart, end);
      }
    }
  }

  lemma NearSlopeIsBeam(d: int, dx: int, end: Slope)
    requires 1 <= d && -d <= dx <= 0 && Exact(end)
    ensures dx < 0 ==> IsBeam(Local(dx, d).Right(), end)
  {
  }

  /** The transparent cells row d is scanned through, under one beam. */
  function ClearIn(s: Scene, radius: int, d: int, start: Slope, end: Slope): set<Local>
    requires d >= 1
  {
    Scan(s, radius, d, -d, false, start, LEVEL, end).clear
  }

  /** Every transparent cell a scan goes through is on the map and covered by its beam. */
  lemma {:induction false} ClearInBeam(s: Scene, radius: int, d: int, dx: int, blocked: bool, start: Slope, newStart: Slope, end: Slope)
    requires 1 <= d && -d <= dx && Exact(start) && Exact(newStart) && Exact(end)
    requires blocked ==> AtLeast(start, newStart)
    ensures forall b :: b in Scan(s, radius, d, dx, blocked, start, newStart, end).clear ==>
              b.d == d && dx <= b.dx <= 0 && Met(s, b, start) && AtLeast(b.Left(), end)
    decreases 1 - dx
  {
    hide Scene.In, Scene.Blocks, Below, Local.Norm, CastLight;
    if dx <= 0 {
      var c := Local(dx, d);
      ClearInBeam(s, radius, d, dx + 1, false, start, newStart, end);
      if AtLeast(start, c.Right()) {
        ClearInBeam(s, radius, d, dx + 1, true, start, c.Right(), end);
      }
      if blocked {
        ClearInBeam(s, radius, d, dx + 1, true, start, newStart, end);
        ClearInBeam(s, radius, d, dx + 1, false, newStart, newStart, end);
        forall b | b in Scan(s, radius, d, dx + 1, false, newStart, newStart, end).clear ensures Met(s, b, start) {
          AtLeastTrans(start, newStart, b.Right());
        }
      }
    }
  }

  /** Some transparent cell the beam is scanned through in row d is next to c. */
  ghost predicate Follows(s: Scene, radius: int, d: int, start: Slope, end: Slope, c: Local)
    requires d >= 1
  {
    exists b :: b in ClearIn(s, radius, d, start, end) && -1 <= b.dx - c.dx <= 1
  }

  /** Exactly when light jumps a row: of the cells of row d + 1 lit under a beam that
      began row d, by this call or a child of it, each follows a transparent cell of row d
      if and only if the beam covers a cell of row d that is on the map, whatever the walls. */
  lemma {:induction false} RowIsJumpedExactly(s: Scene, radius: int, d: int, start: Slope, end: Slope, c: Local)
    requires 1 <= d && IsBeam(start, end) && Rectangular(s)
    requires c in Rows(s, radius, d, start, end) && c.d == d + 1
    ensures Follows(s, radius, d, start, end, c) <==> Lands(s, d, -d, start, end)
  {
    hide Scan, Reached, InBeam, Rectangular, Touches, Local.Norm, Scene.In, Scene.Blocks, Met;
    LitRowsAreNear(s, radius, d, start, end, c);
    var r := Scan(s, radius, d, -d, false, start, LEVEL, end);
    ClearInBeam(s, radius, d, -d, false, start, LEVEL, end);
    if Lands(s, d, -d, start, end) {
      ScanInBeam(s, radius, d, -d, false, start, LEVEL, end);
      RowsInBeam(s, radius, d + 1, r.start, end);
      ScanNeverJumps(s, radius, d, -d, false, start, LEVEL, end, -d, c);
      var b := Touched(r.clear, d, c);
    } else {
      forall b | b in r.clear ensures b == Local(b.dx, d) {}
    }
  }

  lemma MiddleIsMet(s: Scene, d: int, start: Slope, c: Local)
    requires Rectangular(s) && s.In(c) && c.d == d + 1 && c.dx <= 0 && d >= 1 && start.num >= 0 && Exact(start)
    ensures Met(s, Local(0, d), start)
  {
    assert start.num * (2 * d + 1) >= 0;
  }

  lemma BelowMeansAtMost(a: Slope, b: Slope)
    requires Below(a, b)
    ensures AtLeast(b, a)
  {
  }

  /** Column e of row d is not beyond the start of the beam when c, one row out and further
      out than e, is not. */
  lemma FurtherInIsMet(s: Scene, d: int, e: int, start: Slope, c: Local)
    requires 1 <= d && -d <= e <= 0 && Exact(start) && Rectangular(s)
    requires s.In(c) && c.InOctant() && c.d == d + 1 && c.dx < e && AtLeast(start, c.Right())
    ensures Met(s, Local(e, d), start)
  {
    hide Below, Scene.In;
    NearBound(d, e, c);
    BelowMeansAtMost(Local(e, d).Right(), c.Right());
    AtLeastTrans(start, c.Right(), Local(e, d).Right());
  }

  /** Of the cells of row d next to c, the beam covers the one further in when it passes
      over the one straight below c, or there is none. */
  lemma FurtherInIsCovered(s: Scene, d: int, start: Slope, end: Slope, c: Local)
    requires 1 <= d && IsBeam(start, end) && AtLeast(start, end) && c.d == d + 1 && -d - 1 <= c.dx < 0
    requires c.dx >= -d ==> Below(start, Local(c.dx, d).Right())
    ensures AtLeast(Local(c.dx + 1, d).Left(), end)
  {
    hide Below;
    var e := Local(c.dx + 1, d);
    if c.dx >= -d {
      NeighboursOverlap(d, c.dx + 1);
      BelowMeansAtMost(Local(c.dx, d).Right(), e.Left());
      BelowMeansAtMost(start, Local(c.dx, d).Right());
      AtLeastTrans(e.Left(), Local(c.dx, d).Right(), start);
    } else {
      FarEdgeIsSteep(d);
      AtLeastTrans(e.Left(), DIAGONAL, start);
    }
    AtLeastTrans(e.Left(), start, end);
  }

  lemma FarEdgeIsSteep(d: int)
    requires 1 <= d
    ensures AtLeast(Local(-d, d).Left(), DIAGONAL)
  {
  }

  /** A beam that is not inverted lands wherever it lights the next row. */
  lemma {:induction false} UprightBeamLands(s: Scene, d: int, start: Slope, end: Slope, c: Local)
    requires 1 <= d && IsBeam(start, end) && AtLeast(start, end) && Rectangular(s)
    requires s.In(c) && c.InOctant() && c.d == d + 1 && InBeam(c, start, end)
    ensures Lands(s, d, -d, start, end)
  {
    hide Below, Scene.In, Rectangular;
    MiddleIsMet(s, d, start, c);
    var b := Local(c.dx, d);
    if c.dx >= -d && AtLeast(start, b.Right()) {
      StraightBelowIsMet(s, d, start, c);
      FarBound(d, c.dx, c);
      BelowMeansAtMost(c.Left(), b.Left());
      AtLeastTrans(b.Left(), c.Left(), end);
      assert -d <= c.dx <= 0;
    } else {
      FurtherInIsMet(s, d, c.dx + 1, start, c);
      FurtherInIsCovered(s, d, start, end, c);
      assert -d <= c.dx + 1 <= 0;
    }
  }

  lemma StraightBelowIsMet(s: Scene, d: int, start: Slope, c: Local)
    requires Rectangular(s) && s.In(c) && c.d == d + 1 && c.dx <= 0 && d >= 1 && AtLeast(start, Local(c.dx, d).Right())
    ensures Met(s, Local(c.dx, d), start)
  {
  }

  /** Shadowcasting never jumps a row under a beam that is not inverted: every cell of row
      d + 1 that this call or a child of it lights is next to a transparent cell on the map
      that the beam was scanned through in row d. */
  lemma {:induction false} NoRowIsJumped(s: Scene, radius: int, d: int, start: Slope, end: Slope, c: Local) returns (b: Local)
    requires 1 <= d && IsBeam(start, end) && AtLeast(start, end) && Rectangular(s)
    requires c in Rows(s, radius, d, start, end) && c.d == d + 1
    ensures b in ClearIn(s, radius, d, start, end) && b.d == d && -1 <= b.dx - c.dx <= 1
    ensures s.In(b) && !s.Blocks(b)
  {
    hide Scan, Reached, InBeam, Rectangular, Lands, Local.Norm, Scene.In, Scene.Blocks;
    LitRowsAreNear(s, radius, d, start, end, c);
    RowsInBeam(s, radius, d, start, end);
    UprightBeamLands(s, d, start, end, c);
    RowIsJumpedExactly(s, radius, d, start, end, c);
    b :| b in ClearIn(s, radius, d, start, end) && -1 <= b.dx - c.dx <= 1;
    ClearIsClear(s, radius, d, -d, false, start, LEVEL, end);
  }

  lemma Touched(cells: set<Local>, d: int, c: Local) returns (b: Local)
    requires Touches(cells, d, -d, -d, c)
    ensures b in cells && b.d == d && -1 <= b.dx - c.dx <= 1
  {
    b :| b.d == d && -1 <= b.dx - c.dx <= 1 && b in cells;
  }

  lemma LitRowsAreNear(s: Scene, radius: int, d: int, start: Slope, end: Slope, c: Local)
    requires 1 <= d && c in Rows(s, radius, d, start, end)
    ensures c.InOctant() && s.In(c) && c.d < radius
  {
    RowsRange(s, radius, d, start, end);
    if c.d >= radius {
      SquareGrows(radius, c.d);
    }
  }

  lemma {:induction false} ClearIsClear(s: Scene, radius: int, d: int, dx: int, blocked: bool, start: Slope, newStart: Slope, end: Slope)
    requires 1 <= d
    ensures forall b :: b in Scan(s, radius, d, dx, blocked, start, newStart, end).clear ==> b.d == d && s.In(b) && !s.Blocks(b)
    decreases 1 - dx
  {
    hide Scene.In, Scene.Blocks, Below, Local.Norm, Local.Left, Local.Right, CastLight;
    if dx <= 0 {
      ClearIsClear(s, radius, d, dx + 1, blocked, start, newStart, end);
      ClearIsClear(s, radius, d, dx + 1, true, start, Local(dx, d).Right(), end);
      ClearIsClear(s, radius, d, dx + 1, false, newStart, newStart, end);
      ClearIsClear(s, radius, d, dx + 1, false, start, newStart, end);
    }
  }
}
