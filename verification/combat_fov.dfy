/** Recursive shadowcasting as functions on values, with exact slopes.  One octant is
    computed in its own coordinates: a cell is dx columns across, -d <= dx <= 0, and d
    rows away, and the whole view is the eight octants laid over the map. */
module CombatFov {
  import opened Paths
  import opened CombatGrid

  /** An exact slope num / den with den > 0. */
  datatype Slope = Slope(num: int, den: int)

  predicate Below(a: Slope, b: Slope) { a.num * b.den < b.num * a.den }

  const LEVEL := Slope(0, 1)
  const DIAGONAL := Slope(1, 1)

  /** A cell in the coordinates of an octant. */
  datatype Local = Local(dx: int, d: int) {
    predicate InOctant() { 1 <= d && -d <= dx <= 0 }

    /** Slope to the far corner: (dx - 1/2) / (-d + 1/2). */
    function Left(): Slope { Slope(1 - 2 * dx, 2 * d - 1) }

    /** Slope to the near corner: (dx + 1/2) / (-d - 1/2). */
    function Right(): Slope { Slope(-1 - 2 * dx, 2 * d + 1) }

    function Norm(): int { dx * dx + d * d }
  }

  datatype Transform = Transform(xx: int, xy: int, yx: int, yy: int)

  const OCTANT_TRANSFORMS := [
    Transform(1, 0, 0, 1), Transform(0, 1, 1, 0),
    Transform(0, -1, 1, 0), Transform(-1, 0, 0, 1),
    Transform(-1, 0, 0, -1), Transform(0, -1, -1, 0),
    Transform(0, 1, -1, 0), Transform(1, 0, 0, -1)]

  /** Where a transform puts an octant cell. */
  function Place(o: Pos, t: Transform, c: Local): Pos {
    Pos(o.x + c.dx * t.xx - c.d * t.xy, o.y + c.dx * t.yx - c.d * t.yy)
  }

  /** What one octant looks out on. */
  datatype Scene = Scene(g: GridView, origin: Pos, t: Transform) {
    function At(c: Local): Pos { Place(origin, t, c) }

    predicate In(c: Local) { g.InBounds(At(c)) }

    predicate Blocks(c: Local) { g.Opaque(At(c)) }
  }

  /** What scanning the rest of a row lights and leaves: the transparent cells it scanned,
      whether the row ends blocked, and where the beam then starts. */
  datatype Row = Row(lit: set<Local>, clear: set<Local>, blocked: bool, start: Slope)

  /** The rest of row d from column dx on. */
  function Scan(s: Scene, radius: int, d: int, dx: int, blocked: bool, start: Slope, newStart: Slope, end: Slope): Row
    requires d >= 1
    decreases if radius < d then 0 else radius + 1 - d, 0, if dx > 0 then 0 else 1 - dx
  {
    var c := Local(dx, d);
    if dx > 0 then Row({}, {}, blocked, start)
    else if !s.In(c) || Below(start, c.Right()) then Scan(s, radius, d, dx + 1, blocked, start, newStart, end)
    else if Below(c.Left(), end) then Row({}, {}, blocked, start)
    else
      var lit := if c.Norm() < radius * radius then {c} else {};
      var clear := if s.Blocks(c) then {} else {c};
      if blocked then
        var r := if s.Blocks(c) then Scan(s, radius, d, dx + 1, true, start, c.Right(), end)
                 else Scan(s, radius, d, dx + 1, false, newStart, newStart, end);
        r.(lit := lit + r.lit, clear := clear + r.clear)
      else if s.Blocks(c) && d < radius then
        var r := Scan(s, radius, d, dx + 1, true, start, c.Right(), end);
        r.(lit := lit + CastLight(s, radius, d + 1, start, c.Left()) + r.lit)
      else
        var r := Scan(s, radius, d, dx + 1, false, start, newStart, end);
        r.(lit := lit + r.lit, clear := clear + r.clear)
  }

  /** Rows from d outwards under one beam, until a row ends blocked. */
  function Rows(s: Scene, radius: int, d: int, start: Slope, end: Slope): set<Local>
    requires d >= 1
    decreases if radius < d then 0 else radius + 1 - d, 1, 0
  {
    if d > radius then {} else
    var r := Scan(s, radius, d, -d, false, start, LEVEL, end);
    r.lit + if r.blocked then {} else Rows(s, radius, d + 1, r.start, end)
  }

  function CastLight(s: Scene, radius: int, row: int, start: Slope, end: Slope): set<Local>
    requires row >= 1
    decreases if radius < row then 0 else radius + 1 - row, 2, 0
  {
    if Below(start, end) then {} else Rows(s, radius, row, start, end)
  }

  /** The cells one octant lights. */
  function Octant(g: GridView, o: Pos, radius: int, k: int): set<Local>
    requires 0 <= k < 8
  {
    CastLight(Scene(g, o, OCTANT_TRANSFORMS[k]), radius, 1, DIAGONAL, LEVEL)
  }

  function MaxRadius(g: GridView, radius: int): int {
    if radius <= 0 then g.width + g.height else radius
  }

  /** p is lit by octant k. */
  ghost predicate LitBy(g: GridView, o: Pos, radius: int, k: int, p: Pos) {
    0 <= k < 8 && exists c :: c in Octant(g, o, radius, k) && p == Scene(g, o, OCTANT_TRANSFORMS[k]).At(c)
  }

  ghost predicate Lit(g: GridView, o: Pos, radius: int, p: Pos) {
    exists k :: LitBy(g, o, radius, k, p)
  }

  /** p is visible from o. */
  ghost predicate Sees(g: GridView, o: Pos, radius: int, p: Pos) {
    p == o || (g.InBounds(o) && Lit(g, o, MaxRadius(g, radius), p))
  }

  // ----- Range

  /** A cell that light starting in row d may reach. */
  predicate Reached(s: Scene, radius: int, d: int, c: Local) {
    c.InOctant() && d <= c.d && s.In(c) && c.Norm() < radius * radius
  }

  lemma {:induction false} ScanRange(s: Scene, radius: int, d: int, dx: int, blocked: bool, start: Slope, newStart: Slope, end: Slope)
    requires 1 <= d && -d <= dx
    ensures forall c :: c in Scan(s, radius, d, dx, blocked, start, newStart, end).lit ==> Reached(s, radius, d, c)
    decreases if radius < d then 0 else radius + 1 - d, 0, if dx > 0 then 0 else 1 - dx
  {
    hide Scene.In, Scene.Blocks, Below, Local.Norm, Local.Left, Local.Right;
    if dx <= 0 {
      var c := Local(dx, d);
      ScanRange(s, radius, d, dx + 1, blocked, start, newStart, end);
      ScanRange(s, radius, d, dx + 1, true, start, c.Right(), end);
      ScanRange(s, radius, d, dx + 1, false, newStart, newStart, end);
      ScanRange(s, radius, d, dx + 1, false, start, newStart, end);
      if d < radius {
        CastRange(s, radius, d + 1, start, c.Left());
      }
    }
  }

  lemma {:induction false} RowsRange(s: Scene, radius: int, d: int, start: Slope, end: Slope)
    requires 1 <= d
    ensures forall c :: c in Rows(s, radius, d, start, end) ==> Reached(s, radius, d, c)
    decreases if radius < d then 0 else radius + 1 - d, 1, 0
  {
    if d <= radius {
      ScanRange(s, radius, d, -d, false, start, LEVEL, end);
      RowsRange(s, radius, d + 1, Scan(s, radius, d, -d, false, start, LEVEL, end).start, end);
    }
  }

  lemma {:induction false} CastRange(s: Scene, radius: int, row: int, start: Slope, end: Slope)
    requires 1 <= row
    ensures forall c :: c in CastLight(s, radius, row, start, end) ==> Reached(s, radius, row, c)
    decreases if radius < row then 0 else radius + 1 - row, 2, 0
  {
    if !Below(start, end) {
      RowsRange(s, radius, row, start, end);
    }
  }

  // ----- A radius only clips

  function Within(cs: set<Local>, r: int): set<Local> { set c | c in cs && c.Norm() < r * r }

  /** No cell of the scene is as far as the radius. */
  ghost predicate Covers(s: Scene, radius: int) {
    forall c: Local :: c.InOctant() && s.In(c) ==> c.d < radius && c.Norm() < radius * radius
  }

  lemma {:induction false} ScanClips(s: Scene, r: int, full: int, d: int, dx: int, blocked: bool, start: Slope, newStart: Slope, end: Slope)
    requires 1 <= d < r && d < full && -d <= dx && Covers(s, full)
    ensures var a := Scan(s, r, d, dx, blocked, start, newStart, end);
            var b := Scan(s, full, d, dx, blocked, start, newStart, end);
            a == b.(lit := Within(b.lit, r))
    decreases r + 1 - d, 0, if dx > 0 then 0 else 1 - dx
  {
    hide Scene.In, Scene.Blocks, Below, Local.Norm, Local.Left, Local.Right;
    if dx <= 0 {
      var c := Local(dx, d);
      ScanClips(s, r, full, d, dx + 1, blocked, start, newStart, end);
      ScanClips(s, r, full, d, dx + 1, true, start, c.Right(), end);
      ScanClips(s, r, full, d, dx + 1, false, newStart, newStart, end);
      ScanClips(s, r, full, d, dx + 1, false, start, newStart, end);
      CastClips(s, r, full, d + 1, start, c.Left());
    }
  }

  /** Beyond either radius there is nothing left to compare. */
  lemma FarRowsAreDark(s: Scene, r: int, full: int, d: int, start: Slope, end: Slope)
    requires 1 <= r && 1 <= d && Covers(s, full) && (d >= r || d >= full)
    ensures Rows(s, r, d, start, end) == {} == Within(Rows(s, full, d, start, end), r)
  {
    RowsRange(s, r, d, start, end);
    RowsRange(s, full, d, start, end);
    forall c | c in Rows(s, r, d, start, end) || c in Within(Rows(s, full, d, start, end), r) ensures false {
      if c.d >= r {
        SquareGrows(r, c.d);
      }
    }
  }

  lemma SquareGrows(a: int, b: int)
    requires 0 <= a <= b
    ensures a * a <= b * b
  {
  }

  lemma {:induction false} RowsClip(s: Scene, r: int, full: int, d: int, start: Slope, end: Slope)
    requires 1 <= r && 1 <= d && Covers(s, full)
    ensures Rows(s, r, d, start, end) == Within(Rows(s, full, d, start, end), r)
    decreases if r < d then 0 else r + 1 - d, 1, 0
  {
    if d < r && d < full {
      ScanClips(s, r, full, d, -d, false, start, LEVEL, end);
      RowsClip(s, r, full, d + 1, Scan(s, full, d, -d, false, start, LEVEL, end).start, end);
    } else {
      FarRowsAreDark(s, r, full, d, start, end);
    }
  }

  lemma {:induction false} CastClips(s: Scene, r: int, full: int, row: int, start: Slope, end: Slope)
    requires 1 <= r && 1 <= row && Covers(s, full)
    ensures CastLight(s, r, row, start, end) == Within(CastLight(s, full, row, start, end), r)
    decreases if r < row then 0 else r + 1 - row, 2, 0
  {
    if !Below(start, end) {
      RowsClip(s, r, full, row, start, end);
    }
  }
}
