/** Every row an octant begins, and under which beam: the first, each row a beam goes on
    to, and the first row of each child cast. */
module CombatFovRows {
  import opened Paths
  import opened CombatGrid
  import opened CombatFov
  import opened CombatFovBeams

  /** The beam under which row d is begun. */
  datatype Beam = Beam(d: int, start: Slope, end: Slope)

  const FIRST_BEAM := Beam(1, DIAGONAL, LEVEL)

  /** The child casts made by the rest of row d from column dx on. */
  function ChildCasts(s: Scene, radius: int, d: int, dx: int, blocked: bool, start: Slope, newStart: Slope, end: Slope): set<Beam>
    requires d >= 1
    decreases if dx > 0 then 0 else 1 - dx
  {
    var c := Local(dx, d);
    if dx > 0 then {}
    else if !s.In(c) || Below(start, c.Right()) then ChildCasts(s, radius, d, dx + 1, blocked, start, newStart, end)
    else if Below(c.Left(), end) then {}
    else if blocked && s.Blocks(c) then ChildCasts(s, radius, d, dx + 1, true, start, c.Right(), end)
    else if blocked then ChildCasts(s, radius, d, dx + 1, false, newStart, newStart, end)
    else if s.Blocks(c) && d < radius then
      {Beam(d + 1, start, c.Left())} + ChildCasts(s, radius, d, dx + 1, true, start, c.Right(), end)
    else ChildCasts(s, radius, d, dx + 1, false, start, newStart, end)
  }

  /** Scanning the row a begins b: the row after it, or the first row of a child cast that
      does not return at once. */
  ghost predicate Begins(s: Scene, radius: int, a: Beam, b: Beam) {
    && 1 <= a.d <= radius
    && var r := Scan(s, radius, a.d, -a.d, false, a.start, LEVEL, a.end);
       || (!r.blocked && b == Beam(a.d + 1, r.start, a.end))
       || (b in ChildCasts(s, radius, a.d, -a.d, false, a.start, LEVEL, a.end) && !Below(b.start, b.end))
  }

  ghost predicate IsDescent(s: Scene, radius: int, bs: seq<Beam>) {
    && |bs| > 0 && bs[0] == FIRST_BEAM
    && forall i :: 0 < i < |bs| ==> Begins(s, radius, bs[i - 1], bs[i])
  }

  /** An octant over this scene begins b. */
  ghost predicate Begun(s: Scene, radius: int, b: Beam) {
    exists bs :: IsDescent(s, radius, bs) && bs[|bs| - 1] == b
  }

  lemma BegunNext(s: Scene, radius: int, a: Beam, b: Beam)
    requires Begun(s, radius, a) && Begins(s, radius, a, b)
    ensures Begun(s, radius, b)
  {
    hide Begins;
    var bs :| IsDescent(s, radius, bs) && bs[|bs| - 1] == a;
    var more := bs + [b];
    assert more[|more| - 1] == b && forall i :: 0 < i < |bs| ==> more[i] == bs[i];
    assert IsDescent(s, radius, more);
  }

  // ----- Every beam is well shaped

  lemma {:induction false} ChildCastsAreBeams(s: Scene, radius: int, d: int, dx: int, blocked: bool, start: Slope, newStart: Slope, end: Slope)
    requires 1 <= d && -d <= dx && IsBeam(start, end)
    requires blocked && dx <= 0 ==> IsBeam(newStart, end)
    ensures forall b :: b in ChildCasts(s, radius, d, dx, blocked, start, newStart, end) ==> b.d == d + 1 && IsBeam(b.start, b.end)
    decreases 1 - dx
  {
    hide Scene.In, Scene.Blocks, Below;
    if dx <= 0 {
      NearSlopeIsBeam(d, dx, end);
      ChildCastsAreBeams(s, radius, d, dx + 1, true, start, Local(dx, d).Right(), end);
      ChildCastsAreBeams(s, radius, d, dx + 1, false, start, newStart, end);
      ChildCastsAreBeams(s, radius, d, dx + 1, blocked, start, newStart, end);
      if blocked {
        ChildCastsAreBeams(s, radius, d, dx + 1, false, newStart, newStart, end);
      }
    }
  }

  lemma BeginsABeam(s: Scene, radius: int, a: Beam, b: Beam)
    requires IsBeam(a.start, a.end) && Begins(s, radius, a, b)
    ensures b.d == a.d + 1 && IsBeam(b.start, b.end)
  {
    hide Scan, ChildCasts;
    ScanKeepsBeam(s, radius, a.d, -a.d, false, a.start, LEVEL, a.end);
    ChildCastsAreBeams(s, radius, a.d, -a.d, false, a.start, LEVEL, a.end);
  }

  lemma {:induction false} DescentOfBeams(s: Scene, radius: int, bs: seq<Beam>, i: nat)
    requires IsDescent(s, radius, bs) && i < |bs|
    ensures bs[i].d == i + 1 && IsBeam(bs[i].start, bs[i].end)
  {
    hide Begins;
    if i > 0 {
      DescentOfBeams(s, radius, bs, i - 1);
      BeginsABeam(s, radius, bs[i - 1], bs[i]);
    }
  }

  /** Every beam an octant begins a row under, child casts included, lies between level and
      diagonal at its start. */
  lemma EveryBeamIsABeam(s: Scene, radius: int, b: Beam)
    requires Begun(s, radius, b)
    ensures b.d >= 1 && IsBeam(b.start, b.end)
  {
    var bs :| IsDescent(s, radius, bs) && bs[|bs| - 1] == b;
    DescentOfBeams(s, radius, bs, |bs| - 1);
  }

  // ----- Every lit cell comes down a row at a time

  function RowsOf(s: Scene, radius: int, b: Beam): set<Local>
    requires b.d >= 1
  {
    Rows(s, radius, b.d, b.start, b.end)
  }

  /** What a scan lights beyond its own row one of its child casts lights. */
  lemma {:induction false} LitByChild(s: Scene, radius: int, d: int, dx: int, blocked: bool, start: Slope, newStart: Slope, end: Slope,
                                      c: Local) returns (b: Beam)
    requires 1 <= d && c.d > d && c in Scan(s, radius, d, dx, blocked, start, newStart, end).lit
    ensures b in ChildCasts(s, radius, d, dx, blocked, start, newStart, end) && !Below(b.start, b.end)
    ensures b.d == d + 1 && c in RowsOf(s, radius, b)
    decreases 1 - dx
  {
    hide Scene.In, Scene.Blocks, Below, Local.Norm;
    var j := Local(dx, d);
    if !s.In(j) || Below(start, j.Right()) {
      b := LitByChild(s, radius, d, dx + 1, blocked, start, newStart, end, c);
    } else if blocked && s.Blocks(j) {
      b := LitByChild(s, radius, d, dx + 1, true, start, j.Right(), end, c);
    } else if blocked {
      b := LitByChild(s, radius, d, dx + 1, false, newStart, newStart, end, c);
    } else if s.Blocks(j) && d < radius {
      if c in CastLight(s, radius, d + 1, start, j.Left()) {
        b := Beam(d + 1, start, j.Left());
      } else {
        b := LitByChild(s, radius, d, dx + 1, true, start, j.Right(), end, c);
      }
    } else {
      b := LitByChild(s, radius, d, dx + 1, false, start, newStart, end, c);
    }
  }

  /** A cell lit beyond the row after a was lit from a row that one began. */
  lemma LitFromNextRow(s: Scene, radius: int, a: Beam, c: Local) returns (b: Beam)
    requires 1 <= a.d && c.d > a.d && c in RowsOf(s, radius, a)
    ensures Begins(s, radius, a, b) && b.d == a.d + 1 && c in RowsOf(s, radius, b)
  {
    hide Scan, ChildCasts, Below;
    var r := Scan(s, radius, a.d, -a.d, false, a.start, LEVEL, a.end);
    if c in r.lit {
      b := LitByChild(s, radius, a.d, -a.d, false, a.start, LEVEL, a.end, c);
    } else {
      b := Beam(a.d + 1, r.start, a.end);
    }
  }

  lemma {:induction false} LitFromRowBefore(s: Scene, radius: int, a: Beam, c: Local) returns (b: Beam)
    requires Begun(s, radius, a) && 1 <= a.d < c.d && c in RowsOf(s, radius, a)
    ensures Begun(s, radius, b) && b.d == c.d - 1 && c in RowsOf(s, radius, b)
    decreases c.d - a.d
  {
    hide Begun, Begins, RowsOf;
    if c.d == a.d + 1 {
      b := a;
    } else {
      var next := LitFromNextRow(s, radius, a, c);
      BegunNext(s, radius, a, next);
      b := LitFromRowBefore(s, radius, next, c);
    }
  }

  /** Row jumping over whole octants, on any map: each cell lit beyond the first row is lit
      under some beam that began the row before it, and under every such beam it follows a
      transparent cell of that row if and only if the beam lands in it. */
  lemma OctantJumpsExactly(g: GridView, o: Pos, radius: int, k: int, c: Local)
    requires 0 <= k < 8 && g.InBounds(o) && c in Octant(g, o, radius, k) && c.d >= 2
    ensures var s := Scene(g, o, OCTANT_TRANSFORMS[k]);
            && (exists b :: Begun(s, radius, b) && b.d == c.d - 1 && c in RowsOf(s, radius, b))
            && forall b :: Begun(s, radius, b) && b.d == c.d - 1 && c in RowsOf(s, radius, b) ==>
                 (Follows(s, radius, b.d, b.start, b.end, c) <==> Lands(s, b.d, -b.d, b.start, b.end))
  {
    hide Begins, Rows, Follows, Lands, Place;
    var s := Scene(g, o, OCTANT_TRANSFORMS[k]);
    assert IsDescent(s, radius, [FIRST_BEAM]) && [FIRST_BEAM][0] == FIRST_BEAM;
    var b := LitFromRowBefore(s, radius, FIRST_BEAM, c);
    ScenesAreRectangular(g, o, k);
    forall b | Begun(s, radius, b) && b.d == c.d - 1 && c in RowsOf(s, radius, b)
      ensures Follows(s, radius, b.d, b.start, b.end, c) <==> Lands(s, b.d, -b.d, b.start, b.end)
    {
      EveryBeamIsABeam(s, radius, b);
      RowIsJumpedExactly(s, radius, b.d, b.start, b.end, c);
    }
  }
}
