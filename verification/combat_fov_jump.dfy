/** Why a beam must not be inverted: a map on which a cell is seen though no transparent
    cell next to it in the row before is. */
module CombatFovJump {
  import opened Paths
  import opened RowMajor
  import opened CombatGrid
  import opened CombatMoves
  import opened CombatFov
  import opened CombatFovLaws
  import opened CombatFovBeams
  import opened CombatFovOpen

  const WALLS := {Pos(8, 6), Pos(6, 5), Pos(2, 1)}

  /** Thirteen by thirteen cells of open floor with three walls. */
  function JumpMap(): GridView {
    GridView(13, 13, map p | p in Cells(13, 13) :: if p in WALLS then WALL else OPEN_FLOOR)
  }

  const CORNER := Pos(12, 12)

  function JumpScene(): Scene { Scene(JumpMap(), CORNER, OCTANT_TRANSFORMS[0]) }

  lemma SceneIs(c: Local)
    ensures JumpScene().In(c) <==> 0 <= 12 + c.dx < 13 && 0 <= 12 - c.d < 13
    ensures JumpScene().In(c) ==>
              (JumpScene().Blocks(c) <==> c == Local(-4, 6) || c == Local(-6, 7) || c == Local(-10, 11))
  {
    MappedIs(JumpMap(), CORNER, 0, c);
    assert JumpScene().At(c) in Cells(13, 13) <==> 0 <= 12 + c.dx < 13 && 0 <= 12 - c.d < 13;
  }

  const FAR_EDGE := Slope(9, 11)   // the far slope of the wall at (-4, 6)
  const NEAR_EDGE := Slope(11, 15) // the near slope of the wall at (-6, 7)

  /** A row without a wall under the beam passes it on. */
  lemma PassRow(d: int, start: Slope, end: Slope)
    requires 1 <= d <= 26 && Exact(start) && Exact(end) && WholeRowClear(JumpScene(), d, start, end)
    ensures forall c :: c in Rows(JumpScene(), 26, d, start, end) ==> c.d == d || c in Rows(JumpScene(), 26, d + 1, start, end)
    ensures Rows(JumpScene(), 26, d + 1, start, end) <= Rows(JumpScene(), 26, d, start, end)
  {
    hide Scan;
    ClearRowPasses(JumpScene(), 26, d, -d, start, LEVEL, end);
  }

  /** Row 6 meets the first wall: beyond it, light goes above the wall or below it. */
  lemma RowSix(c: Local)
    requires c.d > 6
    ensures var s := JumpScene();
            c in Rows(s, 26, 6, DIAGONAL, LEVEL) <==>
              c in CastLight(s, 26, 7, DIAGONAL, FAR_EDGE) || c in Rows(s, 26, 7, Slope(7, 13), LEVEL)
  {
    hide CastLight, Scene.In, Scene.Blocks;
    var s := JumpScene();
    SceneIs(Local(-6, 6));
    SceneIs(Local(-5, 6));
    SceneIs(Local(-4, 6));
    SceneIs(Local(-3, 6));
    SceneIs(Local(-2, 6));
    SceneIs(Local(-1, 6));
    SceneIs(Local(0, 6));
    var r0 := Scan(s, 26, 6, 0, false, Slope(7, 13), Slope(7, 13), LEVEL);
    var r1 := Scan(s, 26, 6, -1, false, Slope(7, 13), Slope(7, 13), LEVEL);
    var r2 := Scan(s, 26, 6, -2, false, Slope(7, 13), Slope(7, 13), LEVEL);
    var r3 := Scan(s, 26, 6, -3, true, DIAGONAL, Slope(7, 13), LEVEL);
    var r4 := Scan(s, 26, 6, -4, false, DIAGONAL, LEVEL, LEVEL);
    var r5 := Scan(s, 26, 6, -5, false, DIAGONAL, LEVEL, LEVEL);
    var r6 := Scan(s, 26, 6, -6, false, DIAGONAL, LEVEL, LEVEL);
    assert !r0.blocked && r0.start == Slope(7, 13) && c !in r0.lit;
    assert !r1.blocked && r1.start == Slope(7, 13) && c !in r1.lit;
    assert !r2.blocked && r2.start == Slope(7, 13) && c !in r2.lit;
    assert !r3.blocked && r3.start == Slope(7, 13) && c !in r3.lit;
    assert !r4.blocked && r4.start == Slope(7, 13) && (c in r4.lit <==> c in CastLight(s, 26, 7, DIAGONAL, FAR_EDGE));
    assert !r5.blocked && r5.start == Slope(7, 13) && (c in r5.lit <==> c in r4.lit);
    assert !r6.blocked && r6.start == Slope(7, 13) && (c in r6.lit <==> c in r5.lit);
  }

  /** Row 7 above the first wall meets the second, and restarts below its own end. */
  lemma RowSeven(c: Local)
    requires c.d > 7
    ensures var s := JumpScene();
            c in CastLight(s, 26, 7, DIAGONAL, FAR_EDGE) <==>
              c in CastLight(s, 26, 8, DIAGONAL, Slope(13, 13)) || c in Rows(s, 26, 8, NEAR_EDGE, FAR_EDGE)
  {
    hide Scene.In, Scene.Blocks;
    var s := JumpScene();
    SceneIs(Local(-7, 7));
    SceneIs(Local(-6, 7));
    SceneIs(Local(-5, 7));
    SceneIs(Local(-4, 7));
    var r4 := Scan(s, 26, 7, -4, false, NEAR_EDGE, NEAR_EDGE, FAR_EDGE);
    var r5 := Scan(s, 26, 7, -5, true, DIAGONAL, NEAR_EDGE, FAR_EDGE);
    var r6 := Scan(s, 26, 7, -6, false, DIAGONAL, LEVEL, FAR_EDGE);
    var r7 := Scan(s, 26, 7, -7, false, DIAGONAL, LEVEL, FAR_EDGE);
    assert !r4.blocked && r4.start == NEAR_EDGE && c !in r4.lit;
    assert !r5.blocked && r5.start == NEAR_EDGE && c !in r5.lit;
    assert !r6.blocked && r6.start == NEAR_EDGE && (c in r6.lit <==> c in CastLight(s, 26, 8, DIAGONAL, Slope(13, 13)));
    assert !r7.blocked && r7.start == NEAR_EDGE && (c in r7.lit <==> c in r6.lit);
  }

  lemma OpeningRowsAreClear(d: int)
    requires 1 <= d <= 5
    ensures WholeRowClear(JumpScene(), d, DIAGONAL, LEVEL)
  {
    forall e | -d <= e <= 0 && JumpScene().In(Local(e, d)) ensures !JumpScene().Blocks(Local(e, d)) {
      SceneIs(Local(e, d));
    }
  }

  /** The first five rows pass everything on. */
  lemma OpeningRows(c: Local)
    requires c.d > 6
    ensures c in Octant(JumpMap(), CORNER, 26, 0) <==> c in Rows(JumpScene(), 26, 6, DIAGONAL, LEVEL)
  {
    hide Rows, WholeRowClear;
    OpeningRowsAreClear(1);
    OpeningRowsAreClear(2);
    OpeningRowsAreClear(3);
    OpeningRowsAreClear(4);
    OpeningRowsAreClear(5);
    PassRow(1, DIAGONAL, LEVEL);
    PassRow(2, DIAGONAL, LEVEL);
    PassRow(3, DIAGONAL, LEVEL);
    PassRow(4, DIAGONAL, LEVEL);
    PassRow(5, DIAGONAL, LEVEL);
  }

  /** The inverted beam reaches row 12. */
  lemma FarCellIsLit()
    ensures Local(-9, 12) in Octant(JumpMap(), CORNER, 26, 0)
  {
    hide Rows, WholeRowClear, CastLight;
    var c := Local(-9, 12);
    forall d | 8 <= d <= 12 ensures WholeRowClear(JumpScene(), d, NEAR_EDGE, FAR_EDGE) {
      LateRowsAreClear(d);
    }
    SceneIs(c);
    LightPasses(JumpScene(), 26, 8, NEAR_EDGE, FAR_EDGE, c);
    RowSeven(c);
    RowSix(c);
    OpeningRows(c);
  }

  lemma LateRowsAreClear(d: int)
    requires 8 <= d <= 12
    ensures WholeRowClear(JumpScene(), d, NEAR_EDGE, FAR_EDGE)
  {
    forall e | -d <= e <= 0 && JumpScene().In(Local(e, d)) && InBeam(Local(e, d), NEAR_EDGE, FAR_EDGE)
      ensures !JumpScene().Blocks(Local(e, d))
    {
      SceneIs(Local(e, d));
    }
  }

  /** No beam covers the two open cells next to it in row 11. */
  lemma NearCellsAreDark(c: Local)
    requires c == Local(-9, 11) || c == Local(-8, 11)
    ensures c !in Octant(JumpMap(), CORNER, 26, 0)
  {
    hide Rows, CastLight;
    OpeningRows(c);
    RowSix(c);
    RowSeven(c);
    RowsInBeam(JumpScene(), 26, 7, Slope(7, 13), LEVEL);
    RowsInBeam(JumpScene(), 26, 8, NEAR_EDGE, FAR_EDGE);
    CastInBeam(JumpScene(), 26, 8, DIAGONAL, Slope(13, 13));
  }

  /** Cells strictly inside the first octant belong to no other. */
  lemma OnlyFirstOctant(k: int, c: Local, p: Pos)
    requires 0 <= k < 8 && c.InOctant() && Mapped(JumpMap(), CORNER, k, c) == p
    requires p.y < p.x < 12
    ensures k == 0 && c == Local(p.x - 12, 12 - p.y)
  {
    MappedIs(JumpMap(), CORNER, k, c);
  }

  lemma DarkCellIsUnseen(p: Pos)
    requires p == Pos(3, 1) || p == Pos(4, 1)
    ensures !Sees(JumpMap(), CORNER, 0, p)
  {
    hide Octant;
    NearCellsAreDark(Local(p.x - 12, 12 - p.y));
    forall k ensures !LitBy(JumpMap(), CORNER, 26, k, p) {
      if 0 <= k < 8 {
        OctantRange(JumpMap(), CORNER, 26, k);
        forall c | c in Octant(JumpMap(), CORNER, 26, k) ensures p != Mapped(JumpMap(), CORNER, k, c) {
          if p == Mapped(JumpMap(), CORNER, k, c) {
            OnlyFirstOctant(k, c, p);
          }
        }
      }
    }
  }

  lemma OctantRange(g: GridView, o: Pos, radius: int, k: int)
    requires 0 <= k < 8
    ensures forall c :: c in Octant(g, o, radius, k) ==> c.InOctant()
  {
    CastRange(Scene(g, o, OCTANT_TRANSFORMS[k]), radius, 1, DIAGONAL, LEVEL);
  }

  lemma LitIsSeen(g: GridView, o: Pos, k: int, c: Local)
    requires 0 <= k < 8 && g.InBounds(o) && c in Octant(g, o, g.width + g.height, k)
    ensures Sees(g, o, 0, Mapped(g, o, k, c))
  {
    hide Octant, Place;
    assert LitBy(g, o, g.width + g.height, k, Mapped(g, o, k, c));
  }

  lemma FarCellIsSeen()
    ensures Sees(JumpMap(), CORNER, 0, Pos(3, 0))
  {
    hide Octant, Sees, Place;
    FarCellIsLit();
    MappedIs(JumpMap(), CORNER, 0, Local(-9, 12));
    LitIsSeen(JumpMap(), CORNER, 0, Local(-9, 12));
  }

  lemma ThirdWall()
    ensures JumpMap().Opaque(Pos(2, 1))
  {
    assert Pos(2, 1) in Cells(13, 13);
  }

  /** On this map (3, 0) is seen from the corner, yet every cell next to it in the row
      before is a wall or unseen: the hypothesis of NoRowIsJumped cannot be dropped. */
  lemma ARowCanBeJumped()
    ensures Sees(JumpMap(), CORNER, 0, Pos(3, 0))
    ensures forall q :: Near(q, Pos(3, 0)) && q.y == 1 ==> JumpMap().Opaque(q) || !Sees(JumpMap(), CORNER, 0, q)
  {
    hide Sees, JumpMap;
    FarCellIsSeen();
    ThirdWall();
    DarkCellIsUnseen(Pos(3, 1));
    DarkCellIsUnseen(Pos(4, 1));
    forall q | Near(q, Pos(3, 0)) && q.y == 1 ensures q == Pos(2, 1) || q == Pos(3, 1) || q == Pos(4, 1) {}
  }
}
