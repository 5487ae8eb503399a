/** Visible and castLight as they run: one set of seen cells written by all the
    recursive calls, proved to end with exactly what the octant functions light. */
module CombatVisible {
  import opened Paths
  import opened CombatGrid
  import opened CombatFov

  /** The cells seen so far, shared by every cast. */
  class Sight {
    var visible: set<Pos>

    constructor (p: Pos)
      ensures visible == {p}
    {
      visible := {p};
    }
  }

  /** Where a scene puts a set of octant cells. */
  function Image(s: Scene, cs: set<Local>): set<Pos> { set c | c in cs :: s.At(c) }

  lemma ImageUnion(s: Scene, a: set<Local>, b: set<Local>)
    ensures Image(s, a + b) == Image(s, a) + Image(s, b)
  {
  }

  lemma ImageOne(s: Scene, c: Local)
    ensures Image(s, {c}) == {s.At(c)} && Image(s, {}) == {}
  {
  }

  method IsOpaque(g: Grid, x: int, y: int) returns (b: bool)
    requires g.Valid()
    ensures b == g.View().Opaque(Pos(x, y))
  {
    var cell := g.At(x, y);
    b := !cell.1 || cell.0.blocksLOS;
  }

  /** Row d from its far end under the beam from start0 to end. */
  method ScanRow(g: Grid, sight: Sight, o: Pos, t: Transform, radius: int, d: int, start0: Slope, end: Slope)
    returns (blocked: bool, start: Slope)
    requires g.Valid() && 1 <= d <= radius
    modifies sight
    ensures var s := Scene(g.View(), o, t);
            var r := Scan(s, radius, d, -d, false, start0, LEVEL, end);
            blocked == r.blocked && start == r.start && sight.visible == old(sight.visible) + Image(s, r.lit)
    decreases radius + 1 - d, 0
  {
    hide Grid.View, Place, Below, Local.Left, Local.Right, Image, GridView.Opaque;
    ghost var s := Scene(g.View(), o, t);
    var newStart := LEVEL;
    blocked, start := false, start0;
    ghost var r := Scan(s, radius, d, -d, false, start0, LEVEL, end);
    var dx := -d;
    while dx <= 0
      invariant -d <= dx <= 1
      invariant var rest := Scan(s, radius, d, dx, blocked, start, newStart, end);
                rest.blocked == r.blocked && rest.start == r.start &&
                sight.visible + Image(s, rest.lit) == old(sight.visible) + Image(s, r.lit)
    {
      var c := Local(dx, d);
      var p := Place(o, t, c);
      ghost var rest := Scan(s, radius, d, dx, blocked, start, newStart, end);
      if g.InBounds(p.x, p.y) && !Below(start, c.Right()) {
        if Below(c.Left(), end) {
          break;
        }
        ghost var lit: set<Local> := {};
        if dx * dx + d * d < radius * radius {
          sight.visible := sight.visible + {p};
          lit := {c};
        }
        ImageOne(s, c);
        var opaque_ := IsOpaque(g, p.x, p.y);
        if blocked {
          if opaque_ {
            newStart := c.Right();
          } else {
            blocked, start := false, newStart;
          }
          ImageUnion(s, lit, Scan(s, radius, d, dx + 1, blocked, start, newStart, end).lit);
        } else if opaque_ && d < radius {
          blocked := true;
          ghost var child := CombatFov.CastLight(s, radius, d + 1, start, c.Left());
          CastLight(g, sight, o, t, radius, d + 1, start, c.Left());
          newStart := c.Right();
          ImageUnion(s, lit, child);
          ImageUnion(s, lit + child, Scan(s, radius, d, dx + 1, blocked, start, newStart, end).lit);
        } else {
          ImageUnion(s, lit, Scan(s, radius, d, dx + 1, blocked, start, newStart, end).lit);
        }
      }
      dx := dx + 1;
    }
    ImageOne(s, Local(dx, d));
  }

  method CastLight(g: Grid, sight: Sight, o: Pos, t: Transform, radius: int, row: int, start0: Slope, end: Slope)
    requires g.Valid() && 1 <= row
    modifies sight
    ensures var s := Scene(g.View(), o, t);
            sight.visible == old(sight.visible) + Image(s, CombatFov.CastLight(s, radius, row, start0, end))
    decreases if radius < row then 0 else radius + 1 - row, 1
  {
    hide Grid.View, Place, Below, Local.Left, Local.Right, Image, Scan;
    ghost var s := Scene(g.View(), o, t);
    ImageOne(s, Local(0, 0));
    if Below(start0, end) {
      return;
    }
    var start, blocked := start0, false;
    ghost var total := Rows(s, radius, row, start0, end);
    var distance := row;
    while distance <= radius && !blocked
      invariant row <= distance
      invariant old(sight.visible) + Image(s, total) ==
                  sight.visible + Image(s, if blocked then {} else Rows(s, radius, distance, start, end))
      decreases radius - distance
    {
      ghost var r := Scan(s, radius, distance, -distance, false, start, LEVEL, end);
      ImageUnion(s, r.lit, if r.blocked then {} else Rows(s, radius, distance + 1, r.start, end));
      blocked, start := ScanRow(g, sight, o, t, radius, distance, start, end);
      distance := distance + 1;
    }
  }

  /** The cells visible from (x, y); just the origin without a map to look at. */
  method Visible(g: Grid?, x: int, y: int, radius: int) returns (visible: set<Pos>)
    requires g != null ==> g.Valid()
    ensures forall p :: p in visible <==> if g == null then p == Pos(x, y) else Sees(g.View(), Pos(x, y), radius, p)
  {
    var o := Pos(x, y);
    var sight := new Sight(o);
    if g == null || !g.InBounds(x, y) {
      return sight.visible;
    }
    hide LitBy, LitUpTo, Octant, Grid.View, Place, Image;
    var maxRadius := if radius <= 0 then g.Width + g.Height else radius;
    ghost var v := g.View();
    var k := 0;
    LitByNone(v, o, maxRadius);
    while k < |OCTANT_TRANSFORMS|
      invariant 0 <= k <= |OCTANT_TRANSFORMS|
      invariant forall p :: p in sight.visible <==> p == o || LitUpTo(v, o, maxRadius, k, p)
    {
      CastLight(g, sight, o, OCTANT_TRANSFORMS[k], maxRadius, 1, DIAGONAL, LEVEL);
      LitByOneMore(v, o, maxRadius, k);
      k := k + 1;
    }
    LitByAll(v, o, maxRadius);
    visible := sight.visible;
  }

  ghost predicate LitUpTo(g: GridView, o: Pos, radius: int, n: int, p: Pos) {
    exists k :: k < n && LitBy(g, o, radius, k, p)
  }

  lemma LitByNone(g: GridView, o: Pos, radius: int)
    ensures forall p :: !LitUpTo(g, o, radius, 0, p)
  {
  }

  lemma LitByOneMore(g: GridView, o: Pos, radius: int, k: int)
    requires 0 <= k < 8
    ensures var s := Scene(g, o, OCTANT_TRANSFORMS[k]);
            forall p :: LitUpTo(g, o, radius, k + 1, p) <==>
              LitUpTo(g, o, radius, k, p) || p in Image(s, CombatFov.CastLight(s, radius, 1, DIAGONAL, LEVEL))
  {
    hide CombatFov.CastLight, Place;
    var s := Scene(g, o, OCTANT_TRANSFORMS[k]);
    forall p ensures LitBy(g, o, radius, k, p) <==> p in Image(s, CombatFov.CastLight(s, radius, 1, DIAGONAL, LEVEL)) {
      assert Octant(g, o, radius, k) == CombatFov.CastLight(s, radius, 1, DIAGONAL, LEVEL);
    }
  }

  lemma LitByAll(g: GridView, o: Pos, radius: int)
    ensures forall p :: LitUpTo(g, o, radius, 8, p) <==> Lit(g, o, radius, p)
  {
    hide Octant;
  }
}
