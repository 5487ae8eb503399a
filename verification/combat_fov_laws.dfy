/** Laws of the field of view, whatever the map: its range, what a radius does, and how it
    follows the symmetries of the square. */
module CombatFovLaws {
  import opened Paths
  import opened RowMajor
  import opened CombatGrid
  import opened CombatFov

  function DistanceSquared(p: Pos, q: Pos): int {
    (p.x - q.x) * (p.x - q.x) + (p.y - q.y) * (p.y - q.y)
  }

  function Mapped(g: GridView, o: Pos, k: int, c: Local): Pos
    requires 0 <= k < 8
  {
    Scene(g, o, OCTANT_TRANSFORMS[k]).At(c)
  }

  /** The eight transforms written out. */
  lemma MappedIs(g: GridView, o: Pos, k: int, c: Local)
    requires 0 <= k < 8
    ensures Mapped(g, o, k, c) ==
              if k == 0 then Pos(o.x + c.dx, o.y - c.d)
              else if k == 1 then Pos(o.x - c.d, o.y + c.dx)
              else if k == 2 then Pos(o.x + c.d, o.y + c.dx)
              else if k == 3 then Pos(o.x - c.dx, o.y - c.d)
              else if k == 4 then Pos(o.x - c.dx, o.y + c.d)
              else if k == 5 then Pos(o.x + c.d, o.y - c.dx)
              else if k == 6 then Pos(o.x - c.d, o.y - c.dx)
              else Pos(o.x + c.dx, o.y + c.d)
  {
  }

  lemma {:induction false} MappedDistance(g: GridView, o: Pos, k: int, c: Local)
    requires 0 <= k < 8
    ensures DistanceSquared(Mapped(g, o, k, c), o) == c.Norm()
  {
    MappedIs(g, o, k, c);
  }

  // ----- Range and radius

  lemma SquareBelow(a: int, b: int)
    requires -b < a < b
    ensures a * a <= (b - 1) * (b - 1)
  {
    SquareGrows(if a < 0 then -a else a, b - 1);
  }

  lemma NearerThanMap(a: int, b: int, w: int, h: int)
    requires -w < a < w && -h < b < h
    ensures a * a + b * b < (w + h) * (w + h)
  {
    SquareBelow(a, w);
    SquareBelow(b, h);
    assert (w + h) * (w + h) == w * w + 2 * w * h + h * h;
    assert (w - 1) * (w - 1) == w * w - 2 * w + 1 && (h - 1) * (h - 1) == h * h - 2 * h + 1;
    assert w * h > 0;
  }

  /** Width plus height is farther than any cell. */
  lemma WholeMapCovered(g: GridView, o: Pos, k: int)
    requires 0 <= k < 8 && g.InBounds(o)
    ensures Covers(Scene(g, o, OCTANT_TRANSFORMS[k]), g.width + g.height)
  {
    hide Local.Norm, DistanceSquared, Scene.At;
    var s := Scene(g, o, OCTANT_TRANSFORMS[k]);
    forall c: Local | c.InOctant() && s.In(c)
      ensures c.d < g.width + g.height && c.Norm() < (g.width + g.height) * (g.width + g.height)
    {
      MappedIs(g, o, k, c);
      MappedDistance(g, o, k, c);
      DistanceOnMap(g, s.At(c), o);
    }
  }

  lemma DistanceOnMap(g: GridView, p: Pos, q: Pos)
    requires g.InBounds(p) && g.InBounds(q)
    ensures DistanceSquared(p, q) < (g.width + g.height) * (g.width + g.height)
  {
    NearerThanMap(p.x - q.x, p.y - q.y, g.width, g.height);
  }

  /** A radius only clips: with it, exactly the cells seen without it that are nearer
      than it, and the origin. */
  lemma RadiusOnlyClips(g: GridView, o: Pos, r: int, p: Pos)
    requires g.InBounds(o) && r >= 1
    ensures Sees(g, o, r, p) <==> p == o || (Sees(g, o, 0, p) && DistanceSquared(p, o) < r * r)
  {
    hide LitBy, DistanceSquared;
    forall k ensures LitBy(g, o, r, k, p) <==> LitBy(g, o, g.width + g.height, k, p) && DistanceSquared(p, o) < r * r {
      OctantClips(g, o, r, k, p);
    }
    if k :| LitBy(g, o, r, k, p) {
      assert LitBy(g, o, MaxRadius(g, 0), k, p);
    }
    if k :| LitBy(g, o, MaxRadius(g, 0), k, p) && DistanceSquared(p, o) < r * r {
      assert LitBy(g, o, r, k, p);
    }
  }

  lemma OctantClips(g: GridView, o: Pos, r: int, k: int, p: Pos)
    requires g.InBounds(o) && r >= 1
    ensures LitBy(g, o, r, k, p) <==> LitBy(g, o, g.width + g.height, k, p) && DistanceSquared(p, o) < r * r
  {
    hide Scene.At, CastLight, Local.Norm, DistanceSquared;
    if 0 <= k < 8 {
      var s, full := Scene(g, o, OCTANT_TRANSFORMS[k]), g.width + g.height;
      WholeMapCovered(g, o, k);
      CastClips(s, r, full, 1, DIAGONAL, LEVEL);
      assert Octant(g, o, r, k) == Within(Octant(g, o, full, k), r);
      forall c | p == s.At(c) ensures DistanceSquared(p, o) == c.Norm() {
        MappedDistance(g, o, k, c);
      }
    }
  }

  /** Whatever is seen is the origin or on the map and nearer than the radius. */
  lemma SightStaysInRange(g: GridView, o: Pos, radius: int, p: Pos)
    requires Sees(g, o, radius, p)
    ensures p == o || (g.InBounds(p) && DistanceSquared(p, o) < MaxRadius(g, radius) * MaxRadius(g, radius))
  {
    if p != o {
      var r := MaxRadius(g, radius);
      var k :| LitBy(g, o, r, k, p);
      var c :| c in Octant(g, o, r, k) && p == Scene(g, o, OCTANT_TRANSFORMS[k]).At(c);
      CastRange(Scene(g, o, OCTANT_TRANSFORMS[k]), r, 1, DIAGONAL, LEVEL);
      MappedDistance(g, o, k, c);
    }
  }

  // ----- Symmetry

  /** The same scene seen twice: two scenes that agree cell for cell. */
  ghost predicate Alike(s: Scene, t: Scene) {
    forall c: Local :: s.In(c) == t.In(c) && s.Blocks(c) == t.Blocks(c)
  }

  lemma {:induction false} ScanAlike(s: Scene, t: Scene, radius: int, d: int, dx: int, blocked: bool, start: Slope, newStart: Slope, end: Slope)
    requires 1 <= d && Alike(s, t)
    ensures Scan(s, radius, d, dx, blocked, start, newStart, end) == Scan(t, radius, d, dx, blocked, start, newStart, end)
    decreases if radius < d then 0 else radius + 1 - d, 0, if dx > 0 then 0 else 1 - dx
  {
    hide Scene.In, Scene.Blocks, Below, Local.Norm, Local.Left, Local.Right;
    if dx <= 0 {
      var c := Local(dx, d);
      assert s.In(c) == t.In(c) && s.Blocks(c) == t.Blocks(c);
      ScanAlike(s, t, radius, d, dx + 1, blocked, start, newStart, end);
      ScanAlike(s, t, radius, d, dx + 1, true, start, c.Right(), end);
      ScanAlike(s, t, radius, d, dx + 1, false, newStart, newStart, end);
      ScanAlike(s, t, radius, d, dx + 1, false, start, newStart, end);
      if d < radius {
        CastAlike(s, t, radius, d + 1, start, c.Left());
      }
    }
  }

  lemma {:induction false} RowsAlike(s: Scene, t: Scene, radius: int, d: int, start: Slope, end: Slope)
    requires 1 <= d && Alike(s, t)
    ensures Rows(s, radius, d, start, end) == Rows(t, radius, d, start, end)
    decreases if radius < d then 0 else radius + 1 - d, 1, 0
  {
    if d <= radius {
      ScanAlike(s, t, radius, d, -d, false, start, LEVEL, end);
      RowsAlike(s, t, radius, d + 1, Scan(s, radius, d, -d, false, start, LEVEL, end).start, end);
    }
  }

  lemma {:induction false} CastAlike(s: Scene, t: Scene, radius: int, row: int, start: Slope, end: Slope)
    requires 1 <= row && Alike(s, t)
    ensures CastLight(s, radius, row, start, end) == CastLight(t, radius, row, start, end)
    decreases if radius < row then 0 else radius + 1 - row, 2, 0
  {
    if !Below(start, end) {
      RowsAlike(s, t, radius, row, start, end);
    }
  }

  datatype Symmetry = MirrorX | MirrorY | Transpose

  /** Where a symmetry takes a cell of a w*h map. */
  function Moved(m: Symmetry, w: int, h: int, p: Pos): Pos {
    match m
    case MirrorX => Pos(w - 1 - p.x, p.y)
    case MirrorY => Pos(p.x, h - 1 - p.y)
    case Transpose => Pos(p.y, p.x)
  }

  /** h is g with every cell moved. */
  ghost predicate IsImage(m: Symmetry, g: GridView, h: GridView) {
    && g.Shaped() && h.Shaped()
    && (if m.Transpose? then h.width == g.height && h.height == g.width else h.width == g.width && h.height == g.height)
    && forall p :: p in g.cells ==>
         Moved(m, g.width, g.height, p) in h.cells && h.cells[Moved(m, g.width, g.height, p)] == g.cells[p]
  }

  function ImageOf(m: Symmetry, g: GridView): (h: GridView)
    requires g.Shaped()
  {
    var w := if m.Transpose? then g.height else g.width;
    var h := if m.Transpose? then g.width else g.height;
    GridView(w, h, map q | q in Cells(w, h) :: g.cells[Moved(m, w, h, q)])
  }

  lemma {:induction false} EveryMapHasAnImage(m: Symmetry, g: GridView)
    requires g.Shaped()
    ensures IsImage(m, g, ImageOf(m, g))
  {
    var h := ImageOf(m, g);
    forall p ensures p in h.cells <==> h.InBounds(p) {
      assert p in Cells(h.width, h.height) <==> h.InBounds(p);
    }
    forall p | p in g.cells
      ensures Moved(m, g.width, g.height, p) in h.cells && h.cells[Moved(m, g.width, g.height, p)] == g.cells[p]
    {
      assert Moved(m, h.width, h.height, Moved(m, g.width, g.height, p)) == p;
    }
  }

  /** How a symmetry permutes the octants. */
  function Swapped(m: Symmetry, k: int): int
    requires 0 <= k < 8
  {
    match m
    case MirrorX => [3, 2, 1, 0, 7, 6, 5, 4][k]
    case MirrorY => [7, 6, 5, 4, 3, 2, 1, 0][k]
    case Transpose => [1, 0, 7, 6, 5, 4, 3, 2][k]
  }

  lemma SwappedTwice(m: Symmetry, k: int)
    requires 0 <= k < 8
    ensures 0 <= Swapped(m, k) < 8 && Swapped(m, Swapped(m, k)) == k
  {
  }

  lemma MovedOctant(m: Symmetry, g: GridView, h: GridView, o: Pos, k: int, c: Local)
    requires 0 <= k < 8 && IsImage(m, g, h)
    ensures Moved(m, g.width, g.height, Mapped(g, o, k, c)) == Mapped(h, Moved(m, g.width, g.height, o), Swapped(m, k), c)
  {
    MappedIs(g, o, k, c);
    MappedIs(h, Moved(m, g.width, g.height, o), Swapped(m, k), c);
  }

  lemma MovedInBounds(m: Symmetry, g: GridView, h: GridView, p: Pos)
    requires IsImage(m, g, h)
    ensures g.InBounds(p) <==> h.InBounds(Moved(m, g.width, g.height, p))
    ensures g.Opaque(p) <==> h.Opaque(Moved(m, g.width, g.height, p))
  {
  }

  lemma OctantMoves(m: Symmetry, g: GridView, h: GridView, o: Pos, radius: int, k: int, p: Pos)
    requires 0 <= k < 8 && IsImage(m, g, h)
    ensures LitBy(g, o, radius, k, p) ==>
              LitBy(h, Moved(m, g.width, g.height, o), radius, Swapped(m, k), Moved(m, g.width, g.height, p))
  {
    var o2 := Moved(m, g.width, g.height, o);
    SwappedTwice(m, k);
    var s, t := Scene(g, o, OCTANT_TRANSFORMS[k]), Scene(h, o2, OCTANT_TRANSFORMS[Swapped(m, k)]);
    forall c: Local ensures s.In(c) == t.In(c) && s.Blocks(c) == t.Blocks(c) {
      MovedOctant(m, g, h, o, k, c);
      MovedInBounds(m, g, h, s.At(c));
    }
    CastAlike(s, t, radius, 1, DIAGONAL, LEVEL);
    forall c | p == s.At(c) ensures Moved(m, g.width, g.height, p) == t.At(c) {
      MovedOctant(m, g, h, o, k, c);
    }
  }

  lemma ImageBack(m: Symmetry, g: GridView, h: GridView)
    requires IsImage(m, g, h)
    ensures IsImage(m, h, g)
    ensures forall p :: Moved(m, h.width, h.height, Moved(m, g.width, g.height, p)) == p
  {
    forall p | p in h.cells
      ensures Moved(m, h.width, h.height, p) in g.cells && g.cells[Moved(m, h.width, h.height, p)] == h.cells[p]
    {
      var q := Moved(m, h.width, h.height, p);
      assert g.InBounds(q) && Moved(m, g.width, g.height, q) == p;
    }
  }

  lemma SightMovesForward(m: Symmetry, g: GridView, h: GridView, o: Pos, radius: int, p: Pos)
    requires IsImage(m, g, h) && Sees(g, o, radius, p)
    ensures Sees(h, Moved(m, g.width, g.height, o), radius, Moved(m, g.width, g.height, p))
  {
    if p != o {
      MovedInBounds(m, g, h, o);
      assert MaxRadius(g, radius) == MaxRadius(h, radius);
      var k :| LitBy(g, o, MaxRadius(g, radius), k, p);
      OctantMoves(m, g, h, o, MaxRadius(g, radius), k, p);
    }
  }

  /** Mirroring or transposing the map and the origin does the same to what is seen. */
  lemma SightFollowsSymmetry(m: Symmetry, g: GridView, h: GridView, o: Pos, radius: int, p: Pos)
    requires IsImage(m, g, h)
    ensures Sees(g, o, radius, p) <==> Sees(h, Moved(m, g.width, g.height, o), radius, Moved(m, g.width, g.height, p))
  {
    hide Sees, IsImage;
    ImageBack(m, g, h);
    var o2, p2 := Moved(m, g.width, g.height, o), Moved(m, g.width, g.height, p);
    if Sees(g, o, radius, p) {
      SightMovesForward(m, g, h, o, radius, p);
    }
    if Sees(h, o2, radius, p2) {
      SightMovesForward(m, h, g, o2, radius, p2);
    }
  }
}
